/**
 * The parts of archipelago.js's message nodes that the fold reads. Each node
 * kind becomes one constructor; `UnknownNode` stands for a node whose type
 * string is none of the five the fold knows.
 */
module MessageNodes {

  /** An item reference: its display name and its four classification flags. */
  datatype Item = Item(name: string, progression: bool, useful: bool, trap: bool, filler: bool)

  /** A `node.type` string that is none of the five the fold switches on. */
  type UnknownKind = k: string | k !in {"color", "location", "item", "player", "text"} witness ""

  /** A player reference: only the display alias is read. */
  datatype Player = Player(alias: string)

  datatype MessageNode =
    | ColorNode(text: string, color: string)
    | LocationNode(text: string)
    | ItemNode(item: Item)
    | PlayerNode(player: Player)
    | TextNode(text: string)
    | UnknownNode(kind: UnknownKind)
  {
    /** The node's type tag, `node.type`. */
    function Kind(): string {
      match this
      case ColorNode(_, _) => "color"
      case LocationNode(_) => "location"
      case ItemNode(_) => "item"
      case PlayerNode(_) => "player"
      case TextNode(_) => "text"
      case UnknownNode(k) => k
    }
  }

  /**
   * Each known node kind has its own tag among the five the fold switches on,
   * so the tag of a known node tells which case of the switch it takes.
   */
  lemma KindTag(node: MessageNode)
    ensures !node.UnknownNode? ==> node.Kind() in {"color", "location", "item", "player", "text"}
    ensures node.ColorNode? <==> !node.UnknownNode? && node.Kind() == "color"
    ensures node.LocationNode? <==> !node.UnknownNode? && node.Kind() == "location"
    ensures node.ItemNode? <==> !node.UnknownNode? && node.Kind() == "item"
    ensures node.PlayerNode? <==> !node.UnknownNode? && node.Kind() == "player"
    ensures node.TextNode? <==> !node.UnknownNode? && node.Kind() == "text"
    ensures node.UnknownNode? ==> node.Kind() == node.kind && node.Kind() !in {"color", "location", "item", "player", "text"}
  {
  }
}
