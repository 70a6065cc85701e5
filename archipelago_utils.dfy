/**
 * The message-node fold: the item classifier and the conversion of an
 * ordered list of message nodes into one chat message record.
 */
module ArchipelagoUtils {
  import opened Wrappers
  import opened Radix
  import opened MessageNodes
  import opened Chat

  // ---------------------------------------------------------------------
  // Item classification
  // ---------------------------------------------------------------------

  /** The tier tags of the four flags, highest priority first. */
  const TierNames: seq<string> := ["filler", "useful", "progression", "trap"]

  /** The item's flags, in the order of TierNames. */
  function Flags(item: Item): seq<bool> {
    [item.filler, item.useful, item.progression, item.trap]
  }

  /**
   * getLocationType: the tier tag of an item. The first set flag in the order
   * filler, useful, progression, trap decides; with none set it is "default".
   */
  function GetLocationType(item: Item): (r: string)
    ensures r in TierNames || r == "default"
    ensures r == "filler" <==> item.filler
    ensures r == "useful" <==> !item.filler && item.useful
    ensures r == "progression" <==> !item.filler && !item.useful && item.progression
    ensures r == "trap" <==> !item.filler && !item.useful && !item.progression && item.trap
    ensures r == "default" <==> !item.filler && !item.useful && !item.progression && !item.trap
  {
    if item.filler then "filler"
    else if item.useful then "useful"
    else if item.progression then "progression"
    else if item.trap then "trap"
    else "default"
  }

  /** Reference rule: the name of the first set flag, or "default" when no flag is set. */
  function FirstMatch(names: seq<string>, flags: seq<bool>): (r: string)
    requires |names| == |flags|
    ensures r == "default" || r in names
    ensures (exists i :: 0 <= i < |flags| && flags[i]) ==> r in names
    ensures (forall i :: 0 <= i < |flags| ==> !flags[i]) ==> r == "default"
    ensures forall i :: 0 <= i < |flags| && flags[i] && (forall j :: 0 <= j < i ==> !flags[j]) ==> r == names[i]
    decreases |names|
  {
    if |names| == 0 then "default"
    else if flags[0] then names[0]
    else FirstMatch(names[1..], flags[1..])
  }

  /** The classifier is the first-match rule over the priority list TierNames. */
  lemma LocationTypeIsFirstMatch(item: Item)
    ensures GetLocationType(item) == FirstMatch(TierNames, Flags(item))
  {
  }

  /** When exactly one flag is set, the priority order is irrelevant: that flag's tag is returned. */
  lemma SingleFlagNamesItsTier(item: Item, k: nat)
    requires k < 4 && Flags(item)[k]
    requires forall j :: 0 <= j < 4 && j != k ==> !Flags(item)[j]
    ensures GetLocationType(item) == TierNames[k]
  {
    var f := Flags(item);
    if k == 1 {
      assert !f[0];
    } else if k == 2 {
      assert !f[0] && !f[1];
    } else if k == 3 {
      assert !f[0] && !f[1] && !f[2];
    }
  }

  // ---------------------------------------------------------------------
  // Ids
  // ---------------------------------------------------------------------

  /** The id of the part at position `idx`: `messageId + '_' + idx.toString()`. */
  function PartId(messageId: string, idx: nat): string {
    messageId + "_" + Decimal(idx)
  }

  /** A part id is the message id, then '_', then the position's decimal digits and nothing else. */
  lemma PartIdShape(messageId: string, idx: nat)
    ensures var id := PartId(messageId, idx);
      && |id| == |messageId| + 1 + |Decimal(idx)|
      && id[..|messageId|] == messageId && id[|messageId|] == '_'
      && AllDigits(id[|messageId| + 1..], 10)
      && ParseRadix(id[|messageId| + 1..], 10) == Some(idx)
  {
    var id := PartId(messageId, idx);
    assert id[|messageId| + 1..] == Decimal(idx);
    ParseToRadix(idx, 10);
    ToRadixDigits(idx, 10);
  }

  /** Position of the first `c` in `s`, or |s| when there is none. */
  function IndexOf(s: string, c: char): (k: nat)
    ensures k <= |s|
    ensures k < |s| ==> s[k] == c
    ensures forall j :: 0 <= j < k ==> s[j] != c
    decreases |s|
  {
    if |s| == 0 then 0 else if s[0] == c then 0 else 1 + IndexOf(s[1..], c)
  }

  /** Splits a part id at its first '_' into the message id and the decimal index. */
  function ParsePartId(id: string): (r: Option<(string, nat)>)
    ensures r.Some? ==> '_' !in r.value.0
  {
    var k := IndexOf(id, '_');
    if k == |id| then None
    else
      match ParseRadix(id[k + 1..], 10)
      case None => None
      case Some(idx) => Some((id[..k], idx))
  }

  /** A part id determines its message id and its position, for any message id without '_'. */
  lemma ParsePartIdRoundTrip(messageId: string, idx: nat)
    requires '_' !in messageId
    ensures ParsePartId(PartId(messageId, idx)) == Some((messageId, idx))
  {
    var id := PartId(messageId, idx);
    var k := IndexOf(id, '_');
    assert id[|messageId|] == '_';
    assert forall j :: 0 <= j < |messageId| ==> id[j] == messageId[j];
    assert k == |messageId|;
    assert id[..k] == messageId;
    assert id[k + 1..] == Decimal(idx);
    ParseToRadix(idx, 10);
    ToRadixDigits(idx, 10);
  }

  /** Two positions of one message never share a part id, whatever the message id. */
  lemma PartIdInjective(messageId: string, i: nat, j: nat)
    ensures PartId(messageId, i) == PartId(messageId, j) <==> i == j
  {
    if PartId(messageId, i) == PartId(messageId, j) {
      var n := |messageId| + 1;
      assert Decimal(i) == PartId(messageId, i)[n..];
      assert Decimal(j) == PartId(messageId, j)[n..];
      ToRadixInjective(i, j, 10);
    }
  }

  /** Part ids of messages captured at different times differ too, at every position. */
  lemma PartIdsAcrossMessages(t1: nat, i: nat, t2: nat, j: nat)
    ensures PartId(Hex(t1), i) == PartId(Hex(t2), j) <==> t1 == t2 && i == j
  {
    ToRadixHasNoSeparator(t1, 16, '_');
    ToRadixHasNoSeparator(t2, 16, '_');
    ParsePartIdRoundTrip(Hex(t1), i);
    ParsePartIdRoundTrip(Hex(t2), j);
    ToRadixInjective(t1, t2, 16);
  }

  // ---------------------------------------------------------------------
  // Part classes
  // ---------------------------------------------------------------------

  /** The style a part's class selects. */
  datatype Style =
    | ColorStyle(color: string)
    | LocationStyle
    | ItemStyle(tier: string)
    | PlayerStyle
    | TextStyle

  /** The style a node is meant to be shown with; None for an unknown node. */
  function StyleOf(node: MessageNode): Option<Style> {
    match node
    case ColorNode(_, color) => Some(ColorStyle(color))
    case LocationNode(_) => Some(LocationStyle)
    case ItemNode(item) => Some(ItemStyle(GetLocationType(item)))
    case PlayerNode(_) => Some(PlayerStyle)
    case TextNode(_) => Some(TextStyle)
    case UnknownNode(_) => None
  }

  const ColorPrefix: string := "chat-message-part-color-"
  const ItemPrefix: string := "chat-message-part-item-"

  /** Decodes a class string back into the style it names, as a stylesheet would read it. */
  function ParseClass(c: string): Option<Style> {
    if c == "chat-message-part-location" then Some(LocationStyle)
    else if c == "chat-message-part-player" then Some(PlayerStyle)
    else if c == "chat-message-part-text" then Some(TextStyle)
    else if ColorPrefix <= c then Some(ColorStyle(c[|ColorPrefix|..]))
    else if ItemPrefix <= c then Some(ItemStyle(c[|ItemPrefix|..]))
    else None
  }

  lemma ParseColorClass(color: string)
    ensures ParseClass(ColorPrefix + color) == Some(ColorStyle(color))
  {
    var c := ColorPrefix + color;
    assert c[18] == 'c';
    assert "chat-message-part-location"[18] == 'l';
    assert "chat-message-part-player"[18] == 'p';
    assert "chat-message-part-text"[18] == 't';
    assert ColorPrefix <= c;
    assert c[|ColorPrefix|..] == color;
  }

  lemma ParseItemClass(tier: string)
    ensures ParseClass(ItemPrefix + tier) == Some(ItemStyle(tier))
  {
    var c := ItemPrefix + tier;
    assert c[18] == 'i';
    assert "chat-message-part-location"[18] == 'l';
    assert "chat-message-part-player"[18] == 'p';
    assert "chat-message-part-text"[18] == 't';
    assert ColorPrefix[18] == 'c';
    assert !(ColorPrefix <= c);
    assert ItemPrefix <= c;
    assert c[|ItemPrefix|..] == tier;
  }

  // ---------------------------------------------------------------------
  // The fold
  // ---------------------------------------------------------------------

  /**
   * One case of the switch: the part for `node` with id `nodeId`, whose text
   * is the node's display text; an unknown type throws, carrying that type.
   */
  function ConvertNode(node: MessageNode, nodeId: string): (r: Result<ChatMessagePart, NodeError>)
    ensures r.Err? <==> node.UnknownNode?
    ensures r.Err? ==> r.error == UnknownNodeType(node.Kind())
    ensures r.Ok? ==> r.value.id == nodeId
    ensures r.Ok? && node.ItemNode? ==> r.value.text == node.item.name
    ensures r.Ok? && node.PlayerNode? ==> r.value.text == node.player.alias
    ensures r.Ok? && (node.ColorNode? || node.LocationNode? || node.TextNode?) ==> r.value.text == node.text
  {
    match node
    case ColorNode(text, color) =>
      Ok(ChatMessagePart(nodeId, ColorPrefix + color, text))
    case LocationNode(text) =>
      Ok(ChatMessagePart(nodeId, "chat-message-part-location", text))
    case ItemNode(item) =>
      Ok(ChatMessagePart(nodeId, ItemPrefix + GetLocationType(item), item.name))
    case PlayerNode(player) =>
      Ok(ChatMessagePart(nodeId, "chat-message-part-player", player.alias))
    case TextNode(text) =>
      Ok(ChatMessagePart(nodeId, "chat-message-part-text", text))
    case UnknownNode(kind) =>
      Err(UnknownNodeType(kind))
  }

  /**
   * The class of a converted part decodes to the node's style: the colour of a
   * colour node, the tier of an item, or the fixed location, player and text styles.
   */
  lemma ConvertNodeClassDecodes(node: MessageNode, nodeId: string)
    requires !node.UnknownNode?
    ensures ParseClass(ConvertNode(node, nodeId).value.className) == StyleOf(node)
  {
    match node
    case ColorNode(_, color) => ParseColorClass(color);
    case ItemNode(item) => ParseItemClass(GetLocationType(item));
    case _ =>
  }

  /** True when no node of `nodes` has an unrecognised type. */
  predicate AllKnown(nodes: seq<MessageNode>) {
    forall i :: 0 <= i < |nodes| ==> !nodes[i].UnknownNode?
  }

  /** Position of the first node with an unrecognised type, or |nodes| when there is none. */
  function FirstUnknown(nodes: seq<MessageNode>): (k: nat)
    ensures k <= |nodes|
    ensures k < |nodes| ==> nodes[k].UnknownNode?
    ensures forall j :: 0 <= j < k ==> !nodes[j].UnknownNode?
    decreases |nodes|
  {
    if |nodes| == 0 then 0
    else if nodes[0].UnknownNode? then 0
    else 1 + FirstUnknown(nodes[1..])
  }

  /**
   * `nodes.map(...)`: the parts in node order, or the error of the first
   * unknown node, which stops the map before any later node.
   */
  function ConvertParts(nodes: seq<MessageNode>, messageId: string): (r: Result<seq<ChatMessagePart>, NodeError>)
    ensures r.Ok? <==> AllKnown(nodes)
    ensures r.Ok? ==> |r.value| == |nodes|
    decreases |nodes|
  {
    if |nodes| == 0 then Ok([])
    else
      var n := |nodes| - 1;
      assert forall i :: 0 <= i < n ==> nodes[..n][i] == nodes[i];
      match ConvertParts(nodes[..n], messageId)
      case Err(e) => Err(e)
      case Ok(prefix) =>
        match ConvertNode(nodes[n], PartId(messageId, n))
        case Err(e) => Err(e)
        case Ok(part) => Ok(prefix + [part])
  }

  /** Part `i` of a successful map is the switch case applied to node `i` with the id for position `i`. */
  lemma {:induction false} ConvertPartsPointwise(nodes: seq<MessageNode>, messageId: string)
    ensures var r := ConvertParts(nodes, messageId);
      r.Ok? ==> forall i :: 0 <= i < |nodes| ==> ConvertNode(nodes[i], PartId(messageId, i)) == Ok(r.value[i])
    decreases |nodes|
  {
    var r := ConvertParts(nodes, messageId);
    if |nodes| > 0 && r.Ok? {
      var n := |nodes| - 1;
      ConvertPartsPointwise(nodes[..n], messageId);
      var p := ConvertParts(nodes[..n], messageId);
      var c := ConvertNode(nodes[n], PartId(messageId, n));
      assert p.Ok? && c.Ok? && r.value == p.value + [c.value];
      forall i | 0 <= i < n
        ensures ConvertNode(nodes[i], PartId(messageId, i)) == Ok(r.value[i])
      {
        assert nodes[..n][i] == nodes[i];
        assert r.value[i] == p.value[i];
      }
    }
  }

  /** A failed map reports the type of the first unknown node: the one `nodes.map` reaches first. */
  lemma {:induction false} ConvertPartsFirstError(nodes: seq<MessageNode>, messageId: string)
    ensures var r := ConvertParts(nodes, messageId);
      r.Err? ==> FirstUnknown(nodes) < |nodes| && r.error == UnknownNodeType(nodes[FirstUnknown(nodes)].kind)
    decreases |nodes|
  {
    var r := ConvertParts(nodes, messageId);
    if |nodes| > 0 && r.Err? {
      var n := |nodes| - 1;
      ConvertPartsFirstError(nodes[..n], messageId);
      var k := FirstUnknown(nodes);
      var p := ConvertParts(nodes[..n], messageId);
      if p.Err? {
        assert r == p;
        var j := FirstUnknown(nodes[..n]);
        assert nodes[..n][j] == nodes[j];
        assert forall m :: 0 <= m < j ==> nodes[..n][m] == nodes[m];
        assert k == j;
      } else {
        var c := ConvertNode(nodes[n], PartId(messageId, n));
        assert c.Err? && r.error == c.error;
        assert forall m :: 0 <= m < n ==> nodes[..n][m] == nodes[m];
        assert k == n;
      }
    }
  }

  /**
   * convertMessageNodes, with the clock reading passed in as `timestamp`:
   * one message whose id is the base-16 timestamp, or the error of the
   * first node with an unknown type.
   */
  function ConvertMessageNodes(nodes: seq<MessageNode>, timestamp: nat): (r: Result<ChatMessage, NodeError>)
    ensures r.Ok? <==> AllKnown(nodes)
    ensures r.Ok? ==> r.value.id == Hex(timestamp) && r.value.timestamp == timestamp
    ensures r.Ok? ==> |r.value.parts| == |nodes|
    ensures r.Ok? ==> forall i :: 0 <= i < |nodes| ==>
      ConvertNode(nodes[i], PartId(r.value.id, i)) == Ok(r.value.parts[i])
    ensures r.Err? ==> FirstUnknown(nodes) < |nodes| && r.error == UnknownNodeType(nodes[FirstUnknown(nodes)].kind)
    ensures nodes == [] ==> r == Ok(ChatMessage(Hex(timestamp), timestamp, []))
  {
    var messageId := Hex(timestamp);
    ConvertPartsPointwise(nodes, messageId);
    ConvertPartsFirstError(nodes, messageId);
    match ConvertParts(nodes, messageId)
    case Err(e) => Err(e)
    case Ok(parts) => Ok(ChatMessage(messageId, timestamp, parts))
  }

  // ---------------------------------------------------------------------
  // Properties of the fold
  // ---------------------------------------------------------------------

  /** All part ids of one message are pairwise distinct. */
  lemma MessagePartIdsUnique(nodes: seq<MessageNode>, timestamp: nat)
    ensures var r := ConvertMessageNodes(nodes, timestamp);
      r.Ok? ==> forall i, j :: 0 <= i < j < |r.value.parts| ==> r.value.parts[i].id != r.value.parts[j].id
  {
    var r := ConvertMessageNodes(nodes, timestamp);
    if r.Ok? {
      forall i, j | 0 <= i < j < |r.value.parts|
        ensures r.value.parts[i].id != r.value.parts[j].id
      {
        PartIdInjective(r.value.id, i, j);
      }
    }
  }

  /** A part depends on its own node only: the fold of a longer list extends the fold of its prefix. */
  lemma ConvertPartsPrefix(nodes: seq<MessageNode>, more: seq<MessageNode>, messageId: string)
    requires AllKnown(nodes + more)
    ensures ConvertParts(nodes, messageId).Ok?
    ensures ConvertParts(nodes + more, messageId).value[..|nodes|] == ConvertParts(nodes, messageId).value
  {
    var all := nodes + more;
    assert forall i :: 0 <= i < |nodes| ==> nodes[i] == all[i];
    var r, s := ConvertParts(nodes, messageId), ConvertParts(all, messageId);
    ConvertPartsPointwise(nodes, messageId);
    ConvertPartsPointwise(all, messageId);
    forall i | 0 <= i < |nodes|
      ensures s.value[i] == r.value[i]
    {
      assert ConvertNode(all[i], PartId(messageId, i)) == Ok(s.value[i]);
    }
  }

  /** The map yields exactly the given parts when each node converts to the part at its position. */
  lemma ConvertPartsFromPoints(nodes: seq<MessageNode>, messageId: string, expected: seq<ChatMessagePart>)
    requires |expected| == |nodes|
    requires forall i :: 0 <= i < |nodes| ==> ConvertNode(nodes[i], PartId(messageId, i)) == Ok(expected[i])
    ensures ConvertParts(nodes, messageId) == Ok(expected)
  {
    ConvertPartsPointwise(nodes, messageId);
    var r := ConvertParts(nodes, messageId);
    assert r.Ok?;
    assert r.value == expected;
  }

  /** "Player Alice found Sword at Cave", the chat line of a progression item being found. */
  lemma ItemFoundScenario(timestamp: nat)
    ensures var nodes := [TextNode("Player "), PlayerNode(Player("Alice")), TextNode(" found "),
                          ItemNode(Item("Sword", true, false, false, false)), TextNode(" at "),
                          LocationNode("Cave")];
      var id := Hex(timestamp);
      ConvertMessageNodes(nodes, timestamp) == Ok(ChatMessage(id, timestamp, [
        ChatMessagePart(PartId(id, 0), "chat-message-part-text", "Player "),
        ChatMessagePart(PartId(id, 1), "chat-message-part-player", "Alice"),
        ChatMessagePart(PartId(id, 2), "chat-message-part-text", " found "),
        ChatMessagePart(PartId(id, 3), "chat-message-part-item-progression", "Sword"),
        ChatMessagePart(PartId(id, 4), "chat-message-part-text", " at "),
        ChatMessagePart(PartId(id, 5), "chat-message-part-location", "Cave")]))
  {
    var nodes := [TextNode("Player "), PlayerNode(Player("Alice")), TextNode(" found "),
                  ItemNode(Item("Sword", true, false, false, false)), TextNode(" at "),
                  LocationNode("Cave")];
    var id := Hex(timestamp);
    var expected := [
      ChatMessagePart(PartId(id, 0), "chat-message-part-text", "Player "),
      ChatMessagePart(PartId(id, 1), "chat-message-part-player", "Alice"),
      ChatMessagePart(PartId(id, 2), "chat-message-part-text", " found "),
      ChatMessagePart(PartId(id, 3), "chat-message-part-item-progression", "Sword"),
      ChatMessagePart(PartId(id, 4), "chat-message-part-text", " at "),
      ChatMessagePart(PartId(id, 5), "chat-message-part-location", "Cave")];
    assert ItemPrefix + "progression" == "chat-message-part-item-progression";
    assert ConvertNode(nodes[0], PartId(id, 0)) == Ok(expected[0]);
    assert ConvertNode(nodes[1], PartId(id, 1)) == Ok(expected[1]);
    assert ConvertNode(nodes[2], PartId(id, 2)) == Ok(expected[2]);
    assert ConvertNode(nodes[3], PartId(id, 3)) == Ok(expected[3]);
    assert ConvertNode(nodes[4], PartId(id, 4)) == Ok(expected[4]);
    assert ConvertNode(nodes[5], PartId(id, 5)) == Ok(expected[5]);
    ConvertPartsFromPoints(nodes, id, expected);
  }
}
