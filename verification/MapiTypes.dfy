/** The values the codec carries: restrictions, tagged property values, rule actions. */
module MapiTypes {
  import opened Bytes
  import opened Options

  datatype Guid = Guid(timeLow: uint32, timeMid: uint16, timeHi: uint16, clockSeq: bytes2, node: bytes6)

  datatype Restriction =
    | And(children: seq<Restriction>)
    | Or(children: seq<Restriction>)
    | Not(res: Restriction)
    | Content(fuzzyLevel: uint32, proptag: uint32, propval: TaggedPropval)
    | Property(relop: uint8, proptag: uint32, propval: TaggedPropval)
    | PropCompare(relop: uint8, proptag1: uint32, proptag2: uint32)
    | BitMask(relop: uint8, proptag: uint32, mask: uint32)
    | Size(relop: uint8, proptag: uint32, size: uint32)
    | Exist(proptag: uint32)
    | SubObj(subobject: uint32, res: Restriction)
    | Comment(propvals: seq<TaggedPropval>, optional: Option<Restriction>)
    | Count(count: uint32, res: Restriction)
    | NullRes
    | Unknown(rt: uint8)  // a type byte the switch statements do not list

  datatype TaggedPropval = TaggedPropval(proptag: uint32, value: PropValue)

  datatype PropValue =
    | Short(s: uint16)
    | Long(l: uint32)
    | Float(f: bytes4)
    | Double(d: bytes8)
    | Byte(b: uint8)
    | LongLong(ll: uint64)
    | String(chars: bytes)
    | GuidValue(guid: Guid)
    | Res(res: Restriction)
    | Rule(blocks: seq<ActionBlock>)
    | Binary(bin: bytes)
    | ShortArray(shorts: seq<uint16>)
    | LongArray(longs: seq<uint32>)
    | LongLongArray(longlongs: seq<uint64>)
    | StringArray(strings: seq<bytes>)
    | GuidArray(guids: seq<Guid>)
    | BinaryArray(bins: seq<bytes>)

  datatype ActionBlock = ActionBlock(length: uint16, opcode: uint8, flavor: uint32, flags: uint32, data: ActionData)

  datatype ActionData =
    | MoveCopy(storeEid: bytes, folderEid: bytes)
    | Reply(messageEid: bytes, templateGuid: Guid)
    | Defer(payload: bytes)
    | Bounce(code: uint32)
    | ForwardDelegate(recipients: seq<RecipientBlock>)
    | Tag(tagged: TaggedPropval)
    | NoData

  datatype RecipientBlock = RecipientBlock(reserved: uint8, propvals: seq<TaggedPropval>)

  /** What a `void*` property value points at. */
  datatype ValueKind =
    | KShort | KLong | KFloat | KDouble | KByte | KLongLong | KString | KGuid | KRes | KRule | KBinary
    | KShortArray | KLongArray | KLongLongArray | KStringArray | KGuidArray | KBinaryArray | KNone

  /** What an action block's `void*` points at. */
  datatype ActionKind = AMoveCopy | AReply | ADefer | ABounce | AForward | ATag | ANoData | ANone

  function TypeOf(proptag: uint32): uint16 { proptag % 0x1_0000 }

  /** A multi-value instance (both 0x3000 bits set) is treated as a single value. */
  function SingleType(t: uint16): uint16 {
    if t / 0x1000 % 4 == 3 then t - 0x3000 else t
  }

  function KindOf(t: uint16): ValueKind {
    if t == 0x0002 then KShort
    else if t == 0x0003 || t == 0x000a then KLong
    else if t == 0x0004 then KFloat
    else if t == 0x0005 || t == 0x0007 then KDouble
    else if t == 0x000b then KByte
    else if t == 0x0014 || t == 0x0040 then KLongLong
    else if t == 0x001e || t == 0x001f then KString
    else if t == 0x0048 then KGuid
    else if t == 0x00fd then KRes
    else if t == 0x00fe then KRule
    else if t == 0x0102 then KBinary
    else if t == 0x1002 then KShortArray
    else if t == 0x1003 then KLongArray
    else if t == 0x1014 then KLongLongArray
    else if t == 0x101e || t == 0x101f then KStringArray
    else if t == 0x1048 then KGuidArray
    else if t == 0x1102 then KBinaryArray
    else KNone
  }

  function KindOfTag(proptag: uint32): ValueKind { KindOf(SingleType(TypeOf(proptag))) }

  function KindOfValue(v: PropValue): ValueKind {
    match v
    case Short(_) => KShort
    case Long(_) => KLong
    case Float(_) => KFloat
    case Double(_) => KDouble
    case Byte(_) => KByte
    case LongLong(_) => KLongLong
    case String(_) => KString
    case GuidValue(_) => KGuid
    case Res(_) => KRes
    case Rule(_) => KRule
    case Binary(_) => KBinary
    case ShortArray(_) => KShortArray
    case LongArray(_) => KLongArray
    case LongLongArray(_) => KLongLongArray
    case StringArray(_) => KStringArray
    case GuidArray(_) => KGuidArray
    case BinaryArray(_) => KBinaryArray
  }

  function KindOfAction(op: uint8): ActionKind {
    if op == 1 || op == 2 then AMoveCopy
    else if op == 3 || op == 4 then AReply
    else if op == 5 then ADefer
    else if op == 6 then ABounce
    else if op == 7 || op == 8 then AForward
    else if op == 9 then ATag
    else if op == 10 || op == 11 then ANoData
    else ANone
  }

  function KindOfData(d: ActionData): ActionKind {
    match d
    case MoveCopy(_, _) => AMoveCopy
    case Reply(_, _) => AReply
    case Defer(_) => ADefer
    case Bounce(_) => ABounce
    case ForwardDelegate(_) => AForward
    case Tag(_) => ATag
    case NoData => ANoData
  }

  /** The payload size a deferred action's length field announces: the C code
      subtracts the 9 header bytes in 16-bit arithmetic, so lengths below 9 wrap. */
  function DeferSize(length: uint16): uint16 { (length - 9) % 0x1_0000 }
}
