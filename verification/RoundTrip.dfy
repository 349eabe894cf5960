/** Pulling what was pushed, with any bytes behind it. */
module RoundTrip {
  import opened Bytes
  import opened MapiTypes
  import opened Options
  import opened Wire
  import opened Parse

  // ----- a pull returns the value with every action block's length field recomputed -----

  function NormRestriction(r: Restriction): (n: Restriction)
    ensures EncRestriction(n) == EncRestriction(r)
    decreases r, 0
  {
    match r
    case And(rs) => And(NormRestrictions(rs))
    case Or(rs) => Or(NormRestrictions(rs))
    case Not(res) => Not(NormRestriction(res))
    case Content(fuzzy, tag, pv) => Content(fuzzy, tag, NormTagged(pv))
    case Property(relop, tag, pv) => Property(relop, tag, NormTagged(pv))
    case SubObj(sub, res) => SubObj(sub, NormRestriction(res))
    case Comment(pvs, opt) => Comment(NormTaggeds(pvs), NormOptional(opt))
    case Count(n, res) => Count(n, NormRestriction(res))
    case _ => r
  }

  function NormOptional(opt: Option<Restriction>): (n: Option<Restriction>)
    ensures EncOptional(n) == EncOptional(opt)
    decreases opt, 0
  {
    if opt.None? then None else Some(NormRestriction(opt.value))
  }

  function NormRestrictions(rs: seq<Restriction>): (n: seq<Restriction>)
    ensures |n| == |rs| && EncRestrictions(n) == EncRestrictions(rs)
    decreases rs, 0
  {
    if rs == [] then [] else [NormRestriction(rs[0])] + NormRestrictions(rs[1..])
  }

  function NormTagged(pv: TaggedPropval): (n: TaggedPropval)
    ensures EncTagged(n) == EncTagged(pv)
    decreases pv, 0
  {
    TaggedPropval(pv.proptag, NormValue(pv.value))
  }

  function NormTaggeds(pvs: seq<TaggedPropval>): (n: seq<TaggedPropval>)
    ensures |n| == |pvs| && EncTaggeds(n) == EncTaggeds(pvs)
    decreases pvs, 0
  {
    if pvs == [] then [] else [NormTagged(pvs[0])] + NormTaggeds(pvs[1..])
  }

  function NormValue(v: PropValue): (n: PropValue)
    ensures EncValue(n) == EncValue(v)
    decreases v, 0
  {
    match v
    case Res(res) => Res(NormRestriction(res))
    case Rule(blocks) => Rule(NormActions(blocks))
    case _ => v
  }

  function NormActions(bs: seq<ActionBlock>): (n: seq<ActionBlock>)
    ensures |n| == |bs| && EncActions(n) == EncActions(bs)
    decreases bs, 0
  {
    if bs == [] then [] else [NormAction(bs[0])] + NormActions(bs[1..])
  }

  function NormAction(a: ActionBlock): (n: ActionBlock)
    ensures EncAction(n) == EncAction(a)
    decreases a, 0
  {
    ActionBlock(LengthField(a), a.opcode, a.flavor, a.flags, NormData(a.data))
  }

  function NormData(d: ActionData): (n: ActionData)
    ensures EncData(n) == EncData(d)
    decreases d, 0
  {
    match d
    case ForwardDelegate(rs) => ForwardDelegate(NormRecipients(rs))
    case Tag(pv) => Tag(NormTagged(pv))
    case _ => d
  }

  function NormRecipients(rs: seq<RecipientBlock>): (n: seq<RecipientBlock>)
    ensures |n| == |rs| && EncRecipients(n) == EncRecipients(rs)
    decreases rs, 0
  {
    if rs == [] then []
    else [RecipientBlock(rs[0].reserved, NormTaggeds(rs[0].propvals))] + NormRecipients(rs[1..])
  }

  // ----- round trips of the leaves -----

  lemma BinaryRoundTrip(b: bytes, t: bytes)
    requires OkBinary(b)
    ensures DecBinary(EncBinary(b) + t) == Ok(b, t)
  {
    hide U32, PullUint32, PullBytes;
    Field32(|b|, b, t);
    BytesRoundTrip(b, t);
  }

  lemma StringRoundTrip(b: bytes, t: bytes)
    requires OkString(b)
    ensures DecString(EncString(b) + t) == Ok(b, t)
  {
    StrLenIs(b, t);
    var s := EncString(b) + t;
    assert s[..|b|] == b && s[|b| + 1..] == t;
  }

  lemma GuidRoundTrip(g: Guid, t: bytes)
    ensures DecGuid(EncGuid(g) + t) == Ok(g, t)
  {
    hide U16, U32, PullUint16, PullUint32, PullBytes;
    var tail := g.clockSeq + g.node;
    Field32(g.timeLow, U16(g.timeMid) + (U16(g.timeHi) + tail), t);
    Field16(g.timeMid, U16(g.timeHi) + tail, t);
    Field16(g.timeHi, tail, t);
    FieldBytes(g.clockSeq, g.node, t);
    BytesRoundTrip(g.node, t);
  }

  lemma {:induction false} SeqRoundTrip<T>(dec: bytes -> Pulled<T>, enc: T -> bytes, xs: seq<T>, t: bytes)
    requires forall x, u | x in xs :: dec(enc(x) + u) == Ok(x, u)
    ensures DecSeq(dec, |xs|, EncSeq(enc, xs) + t) == Ok(xs, t)
  {
    if xs != [] {
      Assoc(enc(xs[0]), EncSeq(enc, xs[1..]), t);
      SeqRoundTrip(dec, enc, xs[1..], t);
      assert [xs[0]] + xs[1..] == xs;
    }
  }

  // ----- the simultaneous induction -----

  lemma {:induction false} RestrictionRoundTrip(r: Restriction, t: bytes)
    requires OkRestriction(r)
    ensures DecRestriction(EncRestriction(r) + t) == Ok(NormRestriction(r), t)
    decreases r, 1
  {
    match r
    case And(_) => AndOrRoundTrip(r, t);
    case Or(_) => AndOrRoundTrip(r, t);
    case Not(_) => NestedRoundTrip(r, t);
    case SubObj(_, _) => NestedRoundTrip(r, t);
    case Count(_, _) => NestedRoundTrip(r, t);
    case Comment(pvs, opt) => CommentRoundTrip(pvs, opt, t);
    case Content(_, _, _) => TestRoundTrip(r, t);
    case Property(_, _, _) => TestRoundTrip(r, t);
    case _ => FlatRoundTrip(r, t);
  }

  lemma {:induction false} AndOrRoundTrip(r: Restriction, t: bytes)
    requires OkRestriction(r) && (r.And? || r.Or?)
    ensures DecRestriction(EncRestriction(r) + t) == Ok(NormRestriction(r), t)
    decreases r, 0
  {
    hide U32, PullUint8, PullUint32, Count32;
    var rs := r.children;
    FittingCount(rs);
    Field8(if r.And? then 0x00 else 0x01, U32(|rs|) + EncRestrictions(rs), t);
    Field32(|rs|, EncRestrictions(rs), t);
    RestrictionsRoundTrip(rs, t);
  }

  /** The restrictions that wrap one other restriction. */
  lemma {:induction false} NestedRoundTrip(r: Restriction, t: bytes)
    requires OkRestriction(r) && (r.Not? || r.SubObj? || r.Count?)
    ensures DecRestriction(EncRestriction(r) + t) == Ok(NormRestriction(r), t)
    decreases r, 0
  {
    hide U32, PullUint8, PullUint32, DecAndOr, DecTest, DecFlat, DecComment;
    RestrictionRoundTrip(r.res, t);
    match r
    case Not(res) =>
      Field8(0x02, EncRestriction(res), t);
    case SubObj(sub, res) =>
      Field8(0x09, U32(sub) + EncRestriction(res), t);
      Field32(sub, EncRestriction(res), t);
    case Count(n, res) =>
      Field8(0x0b, U32(n) + EncRestriction(res), t);
      Field32(n, EncRestriction(res), t);
  }

  /** The restrictions that compare a property with a value. */
  lemma {:induction false} TestRoundTrip(r: Restriction, t: bytes)
    requires OkRestriction(r) && (r.Content? || r.Property?)
    ensures DecRestriction(EncRestriction(r) + t) == Ok(NormRestriction(r), t)
    decreases r, 0
  {
    hide U32, PullUint8, PullUint32;
    TaggedRoundTrip(r.propval, t);
    Field32(r.proptag, EncTagged(r.propval), t);
    match r
    case Content(fuzzy, tag, pv) =>
      Field8(0x03, U32(fuzzy) + (U32(tag) + EncTagged(pv)), t);
      Field32(fuzzy, U32(tag) + EncTagged(pv), t);
    case Property(relop, tag, pv) =>
      Field8(0x04, [relop] + (U32(tag) + EncTagged(pv)), t);
      Field8(relop, U32(tag) + EncTagged(pv), t);
  }

  /** The restrictions that contain no other value. */
  lemma FlatRoundTrip(r: Restriction, t: bytes)
    requires r.PropCompare? || r.BitMask? || r.Size? || r.Exist? || r.NullRes?
    ensures DecRestriction(EncRestriction(r) + t) == Ok(r, t)
  {
    hide U32, PullUint8, PullUint32;
    match r
    case PropCompare(relop, a, b) => FlatFields(0x05, relop, a, b, t);
    case BitMask(relop, a, b) => FlatFields(0x06, relop, a, b, t);
    case Size(relop, a, b) => FlatFields(0x07, relop, a, b, t);
    case Exist(tag) =>
      Field8(0x08, U32(tag), t);
      U32RoundTrip(tag, t);
    case NullRes =>
      assert EncRestriction(r) == [0xff];
      U8RoundTrip(0xff, t);
  }

  lemma FlatFields(rt: uint8, relop: uint8, a: uint32, b: uint32, t: bytes)
    ensures PullUint8([rt] + ([relop] + (U32(a) + U32(b))) + t) == Ok(rt, [relop] + (U32(a) + U32(b)) + t)
    ensures PullUint8([relop] + (U32(a) + U32(b)) + t) == Ok(relop, U32(a) + U32(b) + t)
    ensures PullUint32(U32(a) + U32(b) + t) == Ok(a, U32(b) + t)
    ensures PullUint32(U32(b) + t) == Ok(b, t)
  {
    hide U32, PullUint8, PullUint32;
    Field8(rt, [relop] + (U32(a) + U32(b)), t);
    Field8(relop, U32(a) + U32(b), t);
    Field32(a, U32(b), t);
    U32RoundTrip(b, t);
  }

  lemma {:induction false} CommentRoundTrip(pvs: seq<TaggedPropval>, opt: Option<Restriction>, t: bytes)
    requires OkRestriction(Comment(pvs, opt))
    ensures DecRestriction(EncRestriction(Comment(pvs, opt)) + t) == Ok(NormRestriction(Comment(pvs, opt)), t)
    decreases Comment(pvs, opt), 0
  {
    hide PullUint8, EncOptional, DecOptional, NormOptional, EncTaggeds, DecTaggeds;
    var n, e := |pvs| as uint8, EncTaggeds(pvs) + EncOptional(opt);
    Field8(0x0a, [n] + e, t);
    Field8(n, e, t);
    Assoc(EncTaggeds(pvs), EncOptional(opt), t);
    TaggedsRoundTrip(pvs, EncOptional(opt) + t);
    OptionalRoundTrip(opt, t);
  }

  lemma {:induction false} OptionalRoundTrip(opt: Option<Restriction>, t: bytes)
    requires opt.Some? ==> OkRestriction(opt.value)
    ensures DecOptional(EncOptional(opt) + t) ==
            Ok(NormOptional(opt), t)
    decreases opt, 0
  {
    hide PullUint8;
    match opt
    case None => U8RoundTrip(0, t);
    case Some(res) =>
      Field8(1, EncRestriction(res), t);
      RestrictionRoundTrip(res, t);
  }

  lemma {:induction false} RestrictionsRoundTrip(rs: seq<Restriction>, t: bytes)
    requires OkRestrictions(rs)
    ensures DecRestrictions(|rs|, EncRestrictions(rs) + t) == Ok(NormRestrictions(rs), t)
    decreases rs, 0
  {
    if rs != [] {
      Assoc(EncRestriction(rs[0]), EncRestrictions(rs[1..]), t);
      RestrictionRoundTrip(rs[0], EncRestrictions(rs[1..]) + t);
      RestrictionsRoundTrip(rs[1..], t);
    }
  }

  lemma {:induction false} TaggedRoundTrip(pv: TaggedPropval, t: bytes)
    requires OkTagged(pv)
    ensures DecTagged(EncTagged(pv) + t) == Ok(NormTagged(pv), t)
    decreases pv, 0
  {
    Field32(pv.proptag, EncValue(pv.value), t);
    ValueRoundTrip(pv.value, t);
  }

  lemma {:induction false} TaggedsRoundTrip(pvs: seq<TaggedPropval>, t: bytes)
    requires OkTaggeds(pvs)
    ensures DecTaggeds(|pvs|, EncTaggeds(pvs) + t) == Ok(NormTaggeds(pvs), t)
    decreases pvs, 0
  {
    if pvs != [] {
      Assoc(EncTagged(pvs[0]), EncTaggeds(pvs[1..]), t);
      TaggedRoundTrip(pvs[0], EncTaggeds(pvs[1..]) + t);
      TaggedsRoundTrip(pvs[1..], t);
    }
  }

  lemma {:induction false} ValueRoundTrip(v: PropValue, t: bytes)
    requires OkValue(v)
    ensures DecValue(KindOfValue(v), EncValue(v) + t) == Ok(NormValue(v), t)
    decreases v, 0
  {
    hide U16, U32, U64, PullUint8, PullUint16, PullUint32, PullUint64, PullBytes, Count16, EncArray, DecArrayValue;
    hide DecRuleActions, EncActions, NormActions, EncRestriction, DecRestriction, NormRestriction;
    hide EncString, DecString, EncGuid, DecGuid, EncBinary, DecBinary;
    match v
    case Res(res) => RestrictionRoundTrip(res, t);
    case Rule(bs) => RuleRoundTrip(bs, t);
    case ShortArray(_) => ArrayRoundTrip(v, t);
    case LongArray(_) => ArrayRoundTrip(v, t);
    case LongLongArray(_) => ArrayRoundTrip(v, t);
    case StringArray(_) => ArrayRoundTrip(v, t);
    case GuidArray(_) => ArrayRoundTrip(v, t);
    case BinaryArray(_) => ArrayRoundTrip(v, t);
    case _ => ScalarRoundTrip(v, t);
  }

  lemma {:induction false} RuleRoundTrip(bs: seq<ActionBlock>, t: bytes)
    requires OkValue(Rule(bs))
    ensures DecRuleActions(EncValue(Rule(bs)) + t) == Ok(NormActions(bs), t)
    decreases bs, 1
  {
    hide U16, PullUint16, Count16, EncActions, DecActions, NormActions, OkActions;
    FittingCount(bs);
    Field16(|bs|, EncActions(bs), t);
    ActionsRoundTrip(bs, t);
  }

  lemma ScalarRoundTrip(v: PropValue, t: bytes)
    requires OkValue(v)
    requires v.Short? || v.Long? || v.Float? || v.Double? || v.Byte? || v.LongLong? || v.String? || v.GuidValue?
             || v.Binary?
    ensures DecValue(KindOfValue(v), EncValue(v) + t) == Ok(v, t)
  {
    hide U16, U32, U64, PullUint8, PullUint16, PullUint32, PullUint64, PullBytes, DecBinary, DecString, DecGuid;
    match v
    case Short(s) => U16RoundTrip(s, t);
    case Long(l) => U32RoundTrip(l, t);
    case Float(f) => BytesRoundTrip(f, t);
    case Double(d) => BytesRoundTrip(d, t);
    case Byte(b) => U8RoundTrip(b, t);
    case LongLong(ll) => U64RoundTrip(ll, t);
    case String(chars) => StringRoundTrip(chars, t);
    case GuidValue(guid) => GuidRoundTrip(guid, t);
    case Binary(bin) => BinaryRoundTrip(bin, t);
  }

  /** An array behind its 32-bit count. */
  lemma CountedRoundTrip<T>(dec: bytes -> Pulled<T>, enc: T -> bytes, xs: seq<T>, t: bytes)
    requires |xs| < 0x1_0000_0000
    requires forall x, u | x in xs :: dec(enc(x) + u) == Ok(x, u)
    ensures PullUint32(EncArray(enc, xs) + t) == Ok(|xs|, EncSeq(enc, xs) + t)
    ensures DecSeq(dec, |xs|, EncSeq(enc, xs) + t) == Ok(xs, t)
  {
    hide U32, PullUint32, EncSeq, DecSeq;
    Field32(|xs|, EncSeq(enc, xs), t);
    SeqRoundTrip(dec, enc, xs, t);
  }

  lemma ArrayRoundTrip(v: PropValue, t: bytes)
    requires OkValue(v)
    requires v.ShortArray? || v.LongArray? || v.LongLongArray? || v.StringArray? || v.GuidArray? || v.BinaryArray?
    ensures DecValue(KindOfValue(v), EncValue(v) + t) == Ok(v, t)
  {
    hide U16, U32, U64, PullUint16, PullUint32, PullUint64, EncArray, EncSeq, DecSeq;
    match v
    case ShortArray(xs) =>
      forall x, u | x in xs ensures PullUint16(U16(x) + u) == Ok(x, u) { U16RoundTrip(x, u); }
      CountedRoundTrip(PullUint16, U16, xs, t);
    case LongArray(xs) =>
      forall x, u | x in xs ensures PullUint32(U32(x) + u) == Ok(x, u) { U32RoundTrip(x, u); }
      CountedRoundTrip(PullUint32, U32, xs, t);
    case LongLongArray(xs) =>
      forall x, u | x in xs ensures PullUint64(U64(x) + u) == Ok(x, u) { U64RoundTrip(x, u); }
      CountedRoundTrip(PullUint64, U64, xs, t);
    case _ => VariableArrayRoundTrip(v, t);
  }

  /** The arrays whose elements are themselves structured. */
  lemma VariableArrayRoundTrip(v: PropValue, t: bytes)
    requires OkValue(v)
    requires v.StringArray? || v.GuidArray? || v.BinaryArray?
    ensures DecValue(KindOfValue(v), EncValue(v) + t) == Ok(v, t)
  {
    hide U32, PullUint32, EncArray, EncSeq, DecSeq, EncString, DecString, EncGuid, DecGuid, EncBinary, DecBinary;
    match v
    case StringArray(xs) =>
      forall x, u | x in xs ensures DecString(EncString(x) + u) == Ok(x, u) { StringRoundTrip(x, u); }
      CountedRoundTrip(DecString, EncString, xs, t);
    case GuidArray(xs) =>
      forall x, u | x in xs ensures DecGuid(EncGuid(x) + u) == Ok(x, u) { GuidRoundTrip(x, u); }
      CountedRoundTrip(DecGuid, EncGuid, xs, t);
    case BinaryArray(xs) =>
      forall x, u | x in xs ensures DecBinary(EncBinary(x) + u) == Ok(x, u) { BinaryRoundTrip(x, u); }
      CountedRoundTrip(DecBinary, EncBinary, xs, t);
  }

  lemma {:induction false} ActionsRoundTrip(bs: seq<ActionBlock>, t: bytes)
    requires OkActions(bs)
    ensures DecActions(|bs|, EncActions(bs) + t) == Ok(NormActions(bs), t)
    decreases bs, 0
  {
    if bs != [] {
      Assoc(EncAction(bs[0]), EncActions(bs[1..]), t);
      ActionRoundTrip(bs[0], EncActions(bs[1..]) + t);
      ActionsRoundTrip(bs[1..], t);
    }
  }

  lemma {:induction false} ActionRoundTrip(a: ActionBlock, t: bytes)
    requires OkAction(a)
    ensures DecAction(EncAction(a) + t) == Ok(NormAction(a), t)
    decreases a, 0
  {
    hide U16, U32, PullUint8, PullUint16, PullUint32;
    var d := EncData(a.data);
    Field16(LengthField(a), [a.opcode] + (U32(a.flavor) + (U32(a.flags) + d)), t);
    Field8(a.opcode, U32(a.flavor) + (U32(a.flags) + d), t);
    Field32(a.flavor, U32(a.flags) + d, t);
    Field32(a.flags, d, t);
    assert |EncAfterLength(a)| == 9 + |d|;
    DataRoundTrip(a.data, LengthField(a), t);
  }

  lemma {:induction false} DataRoundTrip(d: ActionData, length: uint16, t: bytes)
    requires OkData(d)
    requires d.Defer? ==> |d.payload| == DeferSize(length)
    ensures DecData(KindOfData(d), length, EncData(d) + t) == Ok(NormData(d), t)
    decreases d, 0
  {
    hide U16, U32, Count16, PullUint16, PullUint32, PullBytes, EncBinary;
    hide DecBinary, EncGuid, DecGuid, EncRecipients, DecRecipients, EncTagged, DecTagged;
    match d
    case MoveCopy(store, folder) =>
      Assoc(EncBinary(store), EncBinary(folder), t);
      BinaryRoundTrip(store, EncBinary(folder) + t);
      BinaryRoundTrip(folder, t);
    case Reply(eid, guid) =>
      Assoc(EncBinary(eid), EncGuid(guid), t);
      BinaryRoundTrip(eid, EncGuid(guid) + t);
      GuidRoundTrip(guid, t);
    case Defer(payload) => BytesRoundTrip(payload, t);
    case Bounce(code) => U32RoundTrip(code, t);
    case ForwardDelegate(rs) =>
      FittingCount(rs);
      Field16(|rs|, EncRecipients(rs), t);
      RecipientsRoundTrip(rs, t);
    case Tag(pv) => TaggedRoundTrip(pv, t);
    case NoData =>
  }

  lemma {:induction false} RecipientsRoundTrip(rs: seq<RecipientBlock>, t: bytes)
    requires OkRecipients(rs)
    ensures DecRecipients(|rs|, EncRecipients(rs) + t) == Ok(NormRecipients(rs), t)
    decreases rs, 0
  {
    if rs != [] {
      Assoc(EncRecipient(rs[0]), EncRecipients(rs[1..]), t);
      RecipientRoundTrip(rs[0], EncRecipients(rs[1..]) + t);
      RecipientsRoundTrip(rs[1..], t);
    }
  }

  lemma {:induction false} RecipientRoundTrip(r: RecipientBlock, t: bytes)
    requires OkRecipient(r)
    ensures DecRecipient(EncRecipient(r) + t) == Ok(RecipientBlock(r.reserved, NormTaggeds(r.propvals)), t)
    decreases r, 0
  {
    hide U16, PullUint8, PullUint16, Count16;
    var n := |r.propvals|;
    FittingCount(r.propvals);
    Field8(r.reserved, U16(n) + EncTaggeds(r.propvals), t);
    Field16(n, EncTaggeds(r.propvals), t);
    TaggedsRoundTrip(r.propvals, t);
  }
}
