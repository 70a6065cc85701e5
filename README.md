# Archipelago chat message fold, in Dafny

This project models the one piece of logic in a Vue chat client for
Archipelago multiworld sessions. The session server delivers each chat or
event line as an ordered list of message nodes: plain text, coloured
text, a player, an item or a location. `convertMessageNodes` turns that
list into one `ChatMessage` record that the UI can render. The record has
an id derived from the capture time, the time itself, and one
`ChatMessagePart` per node. Each part has an id, a style class and a text.
Item parts are styled by `getLocationType`. This classifier picks the
item's tier from its four flags in a fixed priority order.

Files:

- `wrappers.dfy` (`Wrappers`): `Option` and `Result`. A thrown error is modelled as `Err`.
- `radix.dfy` (`Radix`): `Number.prototype.toString(radix)` for non-negative integers, plus a parser back. The parser is used to show that ids can be read back, so different numbers give different ids.
- `message_nodes.dfy` (`MessageNodes`): the node fields the fold reads, as one datatype with a constructor per node kind. `UnknownNode(kind)` stands for any other `node.type`; its kind is of the subset type `UnknownKind`, which excludes the five known tags.
- `chat.dfy` (`Chat`): the shapes declared in src/types/chat.d.ts (`ChatMessage`, `ChatMessagePart`), and `NodeError` for the error thrown at src/util/archipelagoUtils.ts:79. `class` is a reserved word in Dafny, so the part's `class` field is named `className` here.
- `archipelago_utils.dfy` (`ArchipelagoUtils`): the classifier, the per-node switch, the fold, and the lemmas about them. It also holds two reference decoders. `ParseClass` reads a class string back into the style it selects. `ParsePartId` splits a part id into the message id and the position.

`Date.now()` is read once per call in the source. Here the fold takes it as
the parameter `timestamp: nat`.

## Model

| member | source | states |
|---|---|---|
| `ArchipelagoUtils.GetLocationType` | src/util/archipelagoUtils.ts:13-25 | The result is one of the five tags. It is "filler" exactly when `filler` is set. It is "useful" exactly when `filler` is clear and `useful` is set. "progression" and "trap" likewise require every higher-priority flag to be clear. It is "default" exactly when all four flags are clear. |
| `ArchipelagoUtils.FirstMatch` | src/util/archipelagoUtils.ts:13-25 | Reference rule for a priority list: it returns the first name whose flag is set, or "default". If any flag is set, the result is one of the names. |
| `ArchipelagoUtils.LocationTypeIsFirstMatch` | src/util/archipelagoUtils.ts:13-25 | The classifier equals the first-match rule over the priority list filler, useful, progression, trap. |
| `ArchipelagoUtils.SingleFlagNamesItsTier` | src/util/archipelagoUtils.ts:13-25 | When exactly one flag is set, the result is that flag's tag, so the priority order then has no effect. |
| `Radix.ToRadix` | src/util/archipelagoUtils.ts:37-39 | `toString(radix)` of a non-negative integer is a non-empty string with no leading zero. It is one digit exactly when the number is below the radix. |
| `Radix.ToRadixDigits` | src/util/archipelagoUtils.ts:37-39 | Every character of a rendering is a digit of that radix: 0-9, then lower-case a-z. |
| `Radix.Hex` | src/util/archipelagoUtils.ts:37 | The message id `timestamp.toString(16)` is a non-empty string of lower-case hexadecimal digits. It has no leading zero unless the timestamp is 0, and it reads back as the timestamp. |
| `Radix.ParseRadix` | src/util/archipelagoUtils.ts:37-39 | The reader for these renderings succeeds exactly on non-empty strings of digits of the radix. |
| `Radix.ParseToRadix` | src/util/archipelagoUtils.ts:37-39 | Reading a rendering gives back the number it rendered. |
| `Radix.ToRadixInjective` | src/util/archipelagoUtils.ts:37-39 | Two numbers have the same rendering in one radix exactly when they are equal. |
| `Radix.ToRadixHasNoSeparator` | src/util/archipelagoUtils.ts:37-39 | A rendering never contains a non-digit character such as the `_` separator. So every base-16 message id is free of `_`. |
| `ArchipelagoUtils.ParsePartIdRoundTrip` | src/util/archipelagoUtils.ts:39 | A part id `messageId + '_' + idx` splits back into that message id and that index whenever the message id has no `_`. |
| `ArchipelagoUtils.PartIdShape` | src/util/archipelagoUtils.ts:39 | A part id `messageId + '_' + idx.toString()` starts with the message id. The `_` follows it directly, and the rest is exactly the decimal digits of the position, which read back as the position. |
| `ArchipelagoUtils.PartIdInjective` | src/util/archipelagoUtils.ts:38-39 | Within one message, two positions have the same part id exactly when they are the same position. |
| `ArchipelagoUtils.PartIdsAcrossMessages` | src/util/archipelagoUtils.ts:36-39 | Part ids built from two timestamps and two positions are equal exactly when both the timestamps and the positions are equal. |
| `ArchipelagoUtils.ParseColorClass` | src/util/archipelagoUtils.ts:45 | The class `chat-message-part-color-<color>` decodes to a colour style with that exact colour. |
| `ArchipelagoUtils.ParseItemClass` | src/util/archipelagoUtils.ts:61 | The class `chat-message-part-item-<tier>` decodes to an item style with that exact tier. |
| `MessageNodes.KindTag` | src/util/archipelagoUtils.ts:40 | Each known node kind has its own `node.type` tag: "color", "location", "item", "player" or "text". The tag of a known node decides which switch case it takes. An unknown node's tag is its own type string, never one of the five. |
| `Chat.NodeError.Message` | src/util/archipelagoUtils.ts:79 | The thrown message is "Unknown node type: " followed by exactly the node's type. |
| `ArchipelagoUtils.ConvertNode` | src/util/archipelagoUtils.ts:39-80 | A switch case fails exactly for an unknown node type, and the error carries that type. Otherwise the part has the given id. Its text is the item's name for an item, the player's alias for a player, and the node's own text otherwise. |
| `ArchipelagoUtils.ConvertNodeClassDecodes` | src/util/archipelagoUtils.ts:40-77 | The class of every converted part decodes to the node's style. For a colour node that is the colour style with its colour. For an item it is the item style with `getLocationType` of the item. Location, player and text nodes get their fixed styles. Different styles therefore never share a class. |
| `ArchipelagoUtils.FirstUnknown` | src/util/archipelagoUtils.ts:38-79 | Reference definition of the node at which `nodes.map` throws. Every node before it has a known type, and it is the first unknown node, or the end of the list when there is none. |
| `ArchipelagoUtils.ConvertParts` | src/util/archipelagoUtils.ts:38-81 | The map succeeds exactly when no node has an unknown type, and then it yields one part per node. |
| `ArchipelagoUtils.ConvertPartsPointwise` | src/util/archipelagoUtils.ts:38-81 | After a successful map, part `i` is the switch case applied to node `i` with id `messageId_i`, so order is kept and each part comes from its own node. |
| `ArchipelagoUtils.ConvertPartsFirstError` | src/util/archipelagoUtils.ts:38-81 | A failed map carries the type of the first unknown node, which is the node `nodes.map` reaches first. |
| `ArchipelagoUtils.ConvertPartsFromPoints` | src/util/archipelagoUtils.ts:38-81 | If each node converts to a given part at its position, the map yields exactly those parts. |
| `ArchipelagoUtils.ConvertMessageNodes` | src/util/archipelagoUtils.ts:33-87 | The fold succeeds exactly when every node is known; otherwise no partial record exists. On success, the record's id is the base-16 timestamp, its `timestamp` is that same value, and it has one part per node in node order, each derived from its own node. An empty list gives a record with no parts. On failure, the error carries the type of the first unknown node. |
| `ArchipelagoUtils.MessagePartIdsUnique` | src/util/archipelagoUtils.ts:38-39 | All part ids of one record are pairwise distinct. |
| `ArchipelagoUtils.ConvertPartsPrefix` | src/util/archipelagoUtils.ts:38-81 | Appending nodes does not change the parts of the earlier nodes, so each part depends only on its own node and position. |
| `ArchipelagoUtils.ItemFoundScenario` | src/util/archipelagoUtils.ts:33-87 | For the line "Player Alice found Sword at Cave", where the sword is a progression item, the fold gives six parts. Their classes are text, player, text, item-progression, text and location. Their texts are the six fragments in order, and their ids are `<hex>_0` … `<hex>_5`. |

## Left out

- src/stores/ChatStore.ts is not part of this model. It is a store whose only action is an asynchronous network login through the archipelago.js client, which this model cannot see.
- src/router/index.ts is not part of this model. It is a static route table.
- `ChatStoreState` in src/types/chat.d.ts is not modelled. Its `ChatClientStatus` type is not defined in any file of the source.
- The clock: `Date.now()` becomes the `timestamp` parameter.
- JavaScript number precision: timestamps and indices are unbounded naturals here. The source's are IEEE doubles, exact below 2^53; `Date.now()` and array indices stay far below that bound.
- The type casts (`node as ColorMessageNode`, …) and all node and item fields the fold does not read.
- The thrown error in the source is a generic `Error` whose message is "Unknown node type: " followed by the type. The model returns `Err(UnknownNodeType(kind))`, and `Chat.NodeError.Message` rebuilds that text.
