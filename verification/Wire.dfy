/** The byte layout written by ext_pack's push functions, and which values they accept. */
module Wire {
  import opened Bytes
  import opened MapiTypes
  import opened Options

  /** A uint32_t count or size field. */
  function Count32<T>(xs: seq<T>): bytes { U32(|xs| % 0x1_0000_0000) }

  function Count16<T>(xs: seq<T>): bytes { U16(|xs| % 0x1_0000) }

  lemma FittingCount<T>(xs: seq<T>)
    ensures |xs| < 0x1_0000 ==> Count16(xs) == U16(|xs|)
    ensures |xs| < 0x1_0000_0000 ==> Count32(xs) == U32(|xs|)
  {
  }

  function EncSeq<T>(enc: T -> bytes, xs: seq<T>): bytes {
    if xs == [] then [] else enc(xs[0]) + EncSeq(enc, xs[1..])
  }

  function EncArray<T>(enc: T -> bytes, xs: seq<T>): bytes { Count32(xs) + EncSeq(enc, xs) }

  function EncBinary(b: bytes): bytes { Count32(b) + b }

  lemma BinarySize(b: bytes)
    ensures |EncBinary(b)| == 4 + |b|
  {
  }

  function EncString(b: bytes): bytes { b + [0] }

  function EncGuid(g: Guid): bytes {
    U32(g.timeLow) + (U16(g.timeMid) + (U16(g.timeHi) + (g.clockSeq + g.node)))
  }

  function EncRestriction(r: Restriction): bytes
    decreases r, 1
  {
    [TypeByte(r)] + EncBody(r)
  }

  function TypeByte(r: Restriction): uint8 {
    match r
    case And(_) => 0x00
    case Or(_) => 0x01
    case Not(_) => 0x02
    case Content(_, _, _) => 0x03
    case Property(_, _, _) => 0x04
    case PropCompare(_, _, _) => 0x05
    case BitMask(_, _, _) => 0x06
    case Size(_, _, _) => 0x07
    case Exist(_) => 0x08
    case SubObj(_, _) => 0x09
    case Comment(_, _) => 0x0a
    case Count(_, _) => 0x0b
    case NullRes => 0xff
    case Unknown(rt) => rt
  }

  function EncBody(r: Restriction): bytes
    decreases r, 0
  {
    match r
    case And(rs) => Count32(rs) + EncRestrictions(rs)
    case Or(rs) => Count32(rs) + EncRestrictions(rs)
    case Not(res) => EncRestriction(res)
    case Content(fuzzy, tag, pv) => U32(fuzzy) + (U32(tag) + EncTagged(pv))
    case Property(relop, tag, pv) => [relop] + (U32(tag) + EncTagged(pv))
    case PropCompare(relop, tag1, tag2) => [relop] + (U32(tag1) + U32(tag2))
    case BitMask(relop, tag, mask) => [relop] + (U32(tag) + U32(mask))
    case Size(relop, tag, size) => [relop] + (U32(tag) + U32(size))
    case Exist(tag) => U32(tag)
    case SubObj(sub, res) => U32(sub) + EncRestriction(res)
    case Comment(pvs, opt) => [|pvs| % 0x100] + (EncTaggeds(pvs) + EncOptional(opt))
    case Count(n, res) => U32(n) + EncRestriction(res)
    case _ => []
  }

  function EncOptional(opt: Option<Restriction>): bytes
    decreases opt, 0
  {
    match opt
    case None => [0]
    case Some(res) => [1] + EncRestriction(res)
  }

  function EncRestrictions(rs: seq<Restriction>): bytes
    decreases rs, 0
  {
    if rs == [] then [] else EncRestriction(rs[0]) + EncRestrictions(rs[1..])
  }

  function EncTagged(pv: TaggedPropval): bytes
    decreases pv, 0
  {
    U32(pv.proptag) + EncValue(pv.value)
  }

  function EncTaggeds(pvs: seq<TaggedPropval>): bytes
    decreases pvs, 0
  {
    if pvs == [] then [] else EncTagged(pvs[0]) + EncTaggeds(pvs[1..])
  }

  function EncValue(v: PropValue): bytes
    decreases v, 0
  {
    match v
    case Short(s) => U16(s)
    case Long(l) => U32(l)
    case Float(f) => f
    case Double(d) => d
    case Byte(b) => [b]
    case LongLong(ll) => U64(ll)
    case String(chars) => EncString(chars)
    case GuidValue(guid) => EncGuid(guid)
    case Res(res) => EncRestriction(res)
    case Rule(blocks) => Count16(blocks) + EncActions(blocks)
    case Binary(bin) => EncBinary(bin)
    case ShortArray(xs) => EncArray(U16, xs)
    case LongArray(xs) => EncArray(U32, xs)
    case LongLongArray(xs) => EncArray(U64, xs)
    case StringArray(xs) => EncArray(EncString, xs)
    case GuidArray(xs) => EncArray(EncGuid, xs)
    case BinaryArray(xs) => EncArray(EncBinary, xs)
  }

  function EncActions(bs: seq<ActionBlock>): bytes
    decreases bs, 0
  {
    if bs == [] then [] else EncAction(bs[0]) + EncActions(bs[1..])
  }

  /** The length field counts the bytes that follow it, in 16 bits. */
  function EncAction(a: ActionBlock): bytes
    decreases a, 2
  {
    U16(LengthField(a)) + EncAfterLength(a)
  }

  function LengthField(a: ActionBlock): uint16
    decreases a, 1
  {
    |EncAfterLength(a)| % 0x1_0000
  }

  function EncAfterLength(a: ActionBlock): bytes
    decreases a, 0
  {
    [a.opcode] + (U32(a.flavor) + (U32(a.flags) + EncData(a.data)))
  }

  function EncData(d: ActionData): bytes
    decreases d, 0
  {
    match d
    case MoveCopy(store, folder) => EncBinary(store) + EncBinary(folder)
    case Reply(eid, guid) => EncBinary(eid) + EncGuid(guid)
    case Defer(payload) => payload
    case Bounce(code) => U32(code)
    case ForwardDelegate(rs) => Count16(rs) + EncRecipients(rs)
    case Tag(pv) => EncTagged(pv)
    case NoData => []
  }

  function EncRecipients(rs: seq<RecipientBlock>): bytes
    decreases rs, 0
  {
    if rs == [] then [] else EncRecipient(rs[0]) + EncRecipients(rs[1..])
  }

  function EncRecipient(r: RecipientBlock): bytes
    decreases r, 0
  {
    [r.reserved] + (Count16(r.propvals) + EncTaggeds(r.propvals))
  }

  // ----- the values a push accepts and a pull can return -----

  predicate OkBinary(b: bytes) { |b| < 0x1_0000_0000 }

  predicate OkString(b: bytes) { 0 !in b }

  predicate OkRestriction(r: Restriction)
    decreases r, 0
  {
    match r
    case And(rs) => |rs| < 0x1_0000_0000 && OkRestrictions(rs)
    case Or(rs) => |rs| < 0x1_0000_0000 && OkRestrictions(rs)
    case Not(res) => OkRestriction(res)
    case Content(_, _, pv) => OkTagged(pv)
    case Property(_, _, pv) => OkTagged(pv)
    case SubObj(_, res) => OkRestriction(res)
    case Comment(pvs, opt) =>
      0 < |pvs| < 0x100 && OkTaggeds(pvs) && (opt.Some? ==> OkRestriction(opt.value))
    case Count(_, res) => OkRestriction(res)
    case Unknown(_) => false
    case _ => true
  }

  predicate OkRestrictions(rs: seq<Restriction>)
    decreases rs, 0
  {
    rs == [] || (OkRestriction(rs[0]) && OkRestrictions(rs[1..]))
  }

  predicate OkTagged(pv: TaggedPropval)
    decreases pv, 0
  {
    KindOfTag(pv.proptag) == KindOfValue(pv.value) && OkValue(pv.value)
  }

  predicate OkTaggeds(pvs: seq<TaggedPropval>)
    decreases pvs, 0
  {
    pvs == [] || (OkTagged(pvs[0]) && OkTaggeds(pvs[1..]))
  }

  predicate OkValue(v: PropValue)
    decreases v, 0
  {
    match v
    case String(chars) => OkString(chars)
    case Res(res) => OkRestriction(res)
    case Rule(blocks) => 0 < |blocks| < 0x1_0000 && OkActions(blocks)
    case Binary(bin) => OkBinary(bin)
    case ShortArray(xs) => |xs| < 0x1_0000_0000
    case LongArray(xs) => |xs| < 0x1_0000_0000
    case LongLongArray(xs) => |xs| < 0x1_0000_0000
    case StringArray(xs) => |xs| < 0x1_0000_0000 && forall x | x in xs :: OkString(x)
    case GuidArray(xs) => |xs| < 0x1_0000_0000
    case BinaryArray(xs) => |xs| < 0x1_0000_0000 && forall x | x in xs :: OkBinary(x)
    case _ => true
  }

  predicate OkActions(bs: seq<ActionBlock>)
    decreases bs, 0
  {
    bs == [] || (OkAction(bs[0]) && OkActions(bs[1..]))
  }

  predicate OkAction(a: ActionBlock)
    decreases a, 0
  {
    KindOfAction(a.opcode) == KindOfData(a.data) && OkData(a.data) &&
    (a.data.Defer? ==> |a.data.payload| == DeferSize(a.length))
  }

  predicate OkData(d: ActionData)
    decreases d, 0
  {
    match d
    case MoveCopy(store, folder) => OkBinary(store) && OkBinary(folder)
    case Reply(eid, _) => OkBinary(eid)
    case ForwardDelegate(rs) => 0 < |rs| < 0x1_0000 && OkRecipients(rs)
    case Tag(pv) => OkTagged(pv)
    case _ => true
  }

  predicate OkRecipients(rs: seq<RecipientBlock>)
    decreases rs, 0
  {
    rs == [] || (OkRecipient(rs[0]) && OkRecipients(rs[1..]))
  }

  predicate OkRecipient(r: RecipientBlock)
    decreases r, 0
  {
    0 < |r.propvals| < 0x1_0000 && OkTaggeds(r.propvals)
  }

  // ----- one element at a time -----

  lemma NextInSeq<T>(enc: T -> bytes, xs: seq<T>, i: nat)
    requires i <= |xs|
    ensures EncSeq(enc, xs[i..]) == if i == |xs| then [] else enc(xs[i]) + EncSeq(enc, xs[i + 1..])
    ensures xs[0..] == xs
  {
    if i < |xs| { assert xs[i..][0] == xs[i] && xs[i..][1..] == xs[i + 1..]; }
  }

  lemma NextRestriction(xs: seq<Restriction>, i: nat)
    requires i <= |xs|
    ensures EncRestrictions(xs[i..]) == if i == |xs| then [] else EncRestriction(xs[i]) + EncRestrictions(xs[i + 1..])
    ensures OkRestrictions(xs[i..]) <==> i == |xs| || (OkRestriction(xs[i]) && OkRestrictions(xs[i + 1..]))
    ensures xs[0..] == xs
  {
    hide EncRestriction, OkRestriction;
    if i < |xs| { assert xs[i..][0] == xs[i] && xs[i..][1..] == xs[i + 1..]; }
  }

  lemma NextTagged(xs: seq<TaggedPropval>, i: nat)
    requires i <= |xs|
    ensures EncTaggeds(xs[i..]) == if i == |xs| then [] else EncTagged(xs[i]) + EncTaggeds(xs[i + 1..])
    ensures OkTaggeds(xs[i..]) <==> i == |xs| || (OkTagged(xs[i]) && OkTaggeds(xs[i + 1..]))
    ensures xs[0..] == xs
  {
    hide EncTagged, OkTagged;
    if i < |xs| { assert xs[i..][0] == xs[i] && xs[i..][1..] == xs[i + 1..]; }
  }

  lemma NextAction(xs: seq<ActionBlock>, i: nat)
    requires i <= |xs|
    ensures EncActions(xs[i..]) == if i == |xs| then [] else EncAction(xs[i]) + EncActions(xs[i + 1..])
    ensures OkActions(xs[i..]) <==> i == |xs| || (OkAction(xs[i]) && OkActions(xs[i + 1..]))
    ensures xs[0..] == xs
  {
    hide EncAction, OkAction;
    if i < |xs| { assert xs[i..][0] == xs[i] && xs[i..][1..] == xs[i + 1..]; }
  }

  lemma NextRecipient(xs: seq<RecipientBlock>, i: nat)
    requires i <= |xs|
    ensures EncRecipients(xs[i..]) == if i == |xs| then [] else EncRecipient(xs[i]) + EncRecipients(xs[i + 1..])
    ensures OkRecipients(xs[i..]) <==> i == |xs| || (OkRecipient(xs[i]) && OkRecipients(xs[i + 1..]))
    ensures xs[0..] == xs
  {
    hide EncRecipient, OkRecipient;
    if i < |xs| { assert xs[i..][0] == xs[i] && xs[i..][1..] == xs[i + 1..]; }
  }
}
