/** The records the fold produces: `ChatMessage` and `ChatMessagePart`. */
module Chat {

  /** One styled text segment; `className` is the style tag (`class` is a reserved word here). */
  datatype ChatMessagePart = ChatMessagePart(id: string, className: string, text: string)

  /** One chat line: an id, the capture time in milliseconds and the parts in order. */
  datatype ChatMessage = ChatMessage(id: string, timestamp: nat, parts: seq<ChatMessagePart>)

  /** The error the fold throws: an unrecognised node type, carrying that type. */
  datatype NodeError = UnknownNodeType(kind: string)
  {
    /** The thrown Error's message. */
    function Message(): (m: string)
      ensures |m| == 19 + |kind|
      ensures m[..19] == "Unknown node type: " && m[19..] == kind
    {
      "Unknown node type: " + kind
    }
  }
}
