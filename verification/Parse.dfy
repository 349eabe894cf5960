/** What ext_pack's pull functions return on arbitrary input. Every function's
    contract says that a successful pull returns a value a push accepts, whose
    encoding is exactly as long as the input consumed. */
module Parse {
  import opened Bytes
  import opened MapiTypes
  import opened Options
  import opened Wire

  function DecSeq<T>(dec: bytes -> Pulled<T>, n: nat, s: bytes): (r: Pulled<seq<T>>) {
    if n == 0 then Ok([], s) else
    var (x, s) :- dec(s);
    var (xs, s) :- DecSeq(dec, n - 1, s);
    Ok([x] + xs, s)
  }

  /** A 32-bit count and that many elements. */
  function DecCounted<T>(dec: bytes -> Pulled<T>, s: bytes): Pulled<seq<T>> {
    var (n, s) :- PullUint32(s);
    DecSeq(dec, n, s)
  }

  function DecBinary(s: bytes): (r: Pulled<bytes>)
    ensures r.Ok? ==> OkBinary(r.value) && |EncBinary(r.value)| + |r.rest| == |s|
  {
    var (n, s) :- PullUint32(s);
    PullBytes(n, s)
  }

  function DecString(s: bytes): (r: Pulled<bytes>)
    ensures r.Ok? ==> OkString(r.value) && |EncString(r.value)| + |r.rest| == |s|
  {
    var n := StrLen(s);
    if n == |s| then Fail else Ok(s[..n], s[n + 1..])
  }

  function DecGuid(s: bytes): (r: Pulled<Guid>)
    ensures r.Ok? ==> |EncGuid(r.value)| + |r.rest| == |s|
  {
    var (a, s) :- PullUint32(s);
    var (b, s) :- PullUint16(s);
    var (c, s) :- PullUint16(s);
    var (clock, s) :- PullBytes(2, s);
    var (node, s) :- PullBytes(6, s);
    Ok(Guid(a, b, c, clock, node), s)
  }

  lemma {:induction false} DecSeqSound<T>(dec: bytes -> Pulled<T>, enc: T -> bytes, ok: T -> bool, n: nat, s: bytes)
    requires forall t :: dec(t).Ok? ==> ok(dec(t).value) && |enc(dec(t).value)| + |dec(t).rest| == |t|
    requires DecSeq(dec, n, s).Ok?
    ensures var r := DecSeq(dec, n, s);
            |r.value| == n && (forall x | x in r.value :: ok(x)) && |EncSeq(enc, r.value)| + |r.rest| == |s|
  {
    if n > 0 {
      var r := dec(s);
      DecSeqSound(dec, enc, ok, n - 1, r.rest);
      var r' := DecSeq(dec, n - 1, r.rest);
      assert DecSeq(dec, n, s).value == [r.value] + r'.value;
      assert ([r.value] + r'.value)[1..] == r'.value;
    }
  }

  lemma DecCountedSound<T>(dec: bytes -> Pulled<T>, enc: T -> bytes, ok: T -> bool, s: bytes)
    requires forall t :: dec(t).Ok? ==> ok(dec(t).value) && |enc(dec(t).value)| + |dec(t).rest| == |t|
    ensures var r := DecCounted(dec, s);
            r.Ok? ==> |r.value| < 0x1_0000_0000 && (forall x | x in r.value :: ok(x)) &&
                      |EncArray(enc, r.value)| + |r.rest| == |s|
  {
    var c := PullUint32(s);
    if c.Ok? && DecSeq(dec, c.value, c.rest).Ok? {
      DecSeqSound(dec, enc, ok, c.value, c.rest);
    }
  }

  function DecRestriction(s: bytes): (r: Pulled<Restriction>)
    ensures r.Ok? ==> OkRestriction(r.value) && |EncRestriction(r.value)| + |r.rest| == |s| && |r.rest| < |s|
    decreases |s|, 0
  {
    var (rt, s) :- PullUint8(s);
    if rt == 0x00 || rt == 0x01 then DecAndOr(rt, s)
    else if rt == 0x03 || rt == 0x04 then DecTest(rt, s)
    else if rt == 0x05 || rt == 0x06 || rt == 0x07 then DecFlat(rt, s)
    else if rt == 0x0a then DecComment(s)
    else if rt == 0x02 then
      var (res, s) :- DecRestriction(s);
      Ok(Not(res), s)
    else if rt == 0x08 then
      var (tag, s) :- PullUint32(s);
      Ok(Exist(tag), s)
    else if rt == 0x09 || rt == 0x0b then DecNumbered(rt, s)
    else if rt == 0xff then Ok(NullRes, s)
    else Fail
  }

  function DecAndOr(rt: uint8, s: bytes): (r: Pulled<Restriction>)
    ensures r.Ok? ==> OkRestriction(r.value) && |EncRestriction(r.value)| + |r.rest| == 1 + |s| && |r.rest| < |s|
    decreases |s|, 2
  {
    var (n, s) :- PullUint32(s);
    var (rs, s) :- DecRestrictions(n, s);
    Ok(if rt == 0x00 then And(rs) else Or(rs), s)
  }

  /** The sub-object and count restrictions. */
  function DecNumbered(rt: uint8, s: bytes): (r: Pulled<Restriction>)
    ensures r.Ok? ==> OkRestriction(r.value) && |EncRestriction(r.value)| + |r.rest| == 1 + |s| && |r.rest| < |s|
    decreases |s|, 2
  {
    var (n, s) :- PullUint32(s);
    var (res, s) :- DecRestriction(s);
    Ok(if rt == 0x09 then SubObj(n, res) else Count(n, res), s)
  }

  /** The content and property restrictions. */
  function DecTest(rt: uint8, s: bytes): (r: Pulled<Restriction>)
    ensures r.Ok? ==> OkRestriction(r.value) && |EncRestriction(r.value)| + |r.rest| == 1 + |s| && |r.rest| < |s|
    decreases |s|, 2
  {
    if rt == 0x03 then
      var (fuzzy, s) :- PullUint32(s);
      var (tag, s) :- PullUint32(s);
      var (pv, s) :- DecTagged(s);
      Ok(Content(fuzzy, tag, pv), s)
    else
      var (relop, s) :- PullUint8(s);
      var (tag, s) :- PullUint32(s);
      var (pv, s) :- DecTagged(s);
      Ok(Property(relop, tag, pv), s)
  }

  /** The compare, bitmask and size restrictions. */
  function DecFlat(rt: uint8, s: bytes): (r: Pulled<Restriction>)
    ensures r.Ok? ==> OkRestriction(r.value) && |EncRestriction(r.value)| + |r.rest| == 1 + |s| && |r.rest| < |s|
  {
    var (relop, s) :- PullUint8(s);
    var (a, s) :- PullUint32(s);
    var (b, s) :- PullUint32(s);
    Ok(if rt == 0x05 then PropCompare(relop, a, b)
       else if rt == 0x06 then BitMask(relop, a, b)
       else Size(relop, a, b), s)
  }

  function DecComment(s: bytes): (r: Pulled<Restriction>)
    ensures r.Ok? ==> OkRestriction(r.value) && |EncRestriction(r.value)| + |r.rest| == 1 + |s| && |r.rest| < |s|
    decreases |s|, 2
  {
    var (n, s) :- PullUint8(s);
    if n == 0 then Fail else
    var (pvs, s) :- DecTaggeds(n, s);
    var (opt, s) :- DecOptional(s);
    Ok(Comment(pvs, opt), s)
  }

  function DecOptional(s: bytes): (r: Pulled<Option<Restriction>>)
    ensures r.Ok? ==> (r.value.Some? ==> OkRestriction(r.value.value)) && |EncOptional(r.value)| + |r.rest| == |s|
    decreases |s|, 0
  {
    var (present, s) :- PullUint8(s);
    if present == 0 then Ok(None, s) else
    var (res, s) :- DecRestriction(s);
    Ok(Some(res), s)
  }

  function DecRestrictions(n: nat, s: bytes): (r: Pulled<seq<Restriction>>)
    ensures r.Ok? ==> |r.value| == n && OkRestrictions(r.value) && |EncRestrictions(r.value)| + |r.rest| == |s|
    decreases |s|, 1
  {
    if n == 0 then Ok([], s) else
    var (x, s) :- DecRestriction(s);
    var (xs, s) :- DecRestrictions(n - 1, s);
    assert ([x] + xs)[1..] == xs;
    Ok([x] + xs, s)
  }

  function DecTagged(s: bytes): (r: Pulled<TaggedPropval>)
    ensures r.Ok? ==> OkTagged(r.value) && |EncTagged(r.value)| + |r.rest| == |s| && |r.rest| < |s|
    decreases |s|, 0
  {
    var (tag, s) :- PullUint32(s);
    var (v, s) :- DecValue(KindOfTag(tag), s);
    Ok(TaggedPropval(tag, v), s)
  }

  function DecTaggeds(n: nat, s: bytes): (r: Pulled<seq<TaggedPropval>>)
    ensures r.Ok? ==> |r.value| == n && OkTaggeds(r.value) && |EncTaggeds(r.value)| + |r.rest| == |s|
    decreases |s|, 1
  {
    if n == 0 then Ok([], s) else
    var (x, s) :- DecTagged(s);
    var (xs, s) :- DecTaggeds(n - 1, s);
    assert ([x] + xs)[1..] == xs;
    Ok([x] + xs, s)
  }

  /** ext_pack_pull_propval on a type that has been reduced to the kind of its value. */
  function DecValue(kind: ValueKind, s: bytes): (r: Pulled<PropValue>)
    ensures r.Ok? ==> KindOfValue(r.value) == kind && OkValue(r.value) && |EncValue(r.value)| + |r.rest| == |s|
    decreases |s|, 1
  {
    match kind
    case KShort => var (x, s) :- PullUint16(s); Ok(Short(x), s)
    case KLong => var (x, s) :- PullUint32(s); Ok(Long(x), s)
    case KFloat => var (x, s) :- PullBytes(4, s); Ok(Float(x), s)
    case KDouble => var (x, s) :- PullBytes(8, s); Ok(Double(x), s)
    case KByte => var (x, s) :- PullUint8(s); Ok(Byte(x), s)
    case KLongLong => var (x, s) :- PullUint64(s); Ok(LongLong(x), s)
    case KString => var (x, s) :- DecString(s); Ok(String(x), s)
    case KGuid => var (x, s) :- DecGuid(s); Ok(GuidValue(x), s)
    case KRes => var (x, s) :- DecRestriction(s); Ok(Res(x), s)
    case KRule => var (x, s) :- DecRuleActions(s); Ok(Rule(x), s)
    case KBinary => var (x, s) :- DecBinary(s); Ok(Binary(x), s)
    case KNone => Fail
    case _ => DecArrayValue(kind, s)
  }

  function DecArrayValue(kind: ValueKind, s: bytes): (r: Pulled<PropValue>)
    ensures r.Ok? ==> KindOfValue(r.value) == kind && OkValue(r.value) && |EncValue(r.value)| + |r.rest| == |s|
  {
    match kind
    case KShortArray =>
      DecCountedSound(PullUint16, U16, x => true, s);
      var (xs, t) :- DecCounted(PullUint16, s);
      Ok(ShortArray(xs), t)
    case KLongArray =>
      DecCountedSound(PullUint32, U32, x => true, s);
      var (xs, t) :- DecCounted(PullUint32, s);
      Ok(LongArray(xs), t)
    case KLongLongArray =>
      DecCountedSound(PullUint64, U64, x => true, s);
      var (xs, t) :- DecCounted(PullUint64, s);
      Ok(LongLongArray(xs), t)
    case _ => DecBlobArray(kind, s)
  }

  /** The arrays whose elements are themselves structured. */
  function DecBlobArray(kind: ValueKind, s: bytes): (r: Pulled<PropValue>)
    ensures r.Ok? ==> KindOfValue(r.value) == kind && OkValue(r.value) && |EncValue(r.value)| + |r.rest| == |s|
  {
    match kind
    case KStringArray =>
      DecCountedSound(DecString, EncString, OkString, s);
      var (xs, t) :- DecCounted(DecString, s);
      Ok(StringArray(xs), t)
    case KGuidArray =>
      DecCountedSound(DecGuid, EncGuid, x => true, s);
      var (xs, t) :- DecCounted(DecGuid, s);
      Ok(GuidArray(xs), t)
    case KBinaryArray =>
      DecCountedSound(DecBinary, EncBinary, OkBinary, s);
      var (xs, t) :- DecCounted(DecBinary, s);
      Ok(BinaryArray(xs), t)
    case _ => Fail
  }

  function DecRuleActions(s: bytes): (r: Pulled<seq<ActionBlock>>)
    ensures r.Ok? ==> OkValue(Rule(r.value)) && |EncValue(Rule(r.value))| + |r.rest| == |s| && |r.rest| < |s|
    decreases |s|, 0
  {
    var (n, s) :- PullUint16(s);
    if n == 0 then Fail else DecActions(n, s)
  }

  function DecActions(n: nat, s: bytes): (r: Pulled<seq<ActionBlock>>)
    ensures r.Ok? ==> |r.value| == n && OkActions(r.value) && |EncActions(r.value)| + |r.rest| == |s|
    decreases |s|, 1
  {
    if n == 0 then Ok([], s) else
    var (x, s) :- DecAction(s);
    var (xs, s) :- DecActions(n - 1, s);
    assert ([x] + xs)[1..] == xs;
    Ok([x] + xs, s)
  }

  function DecAction(s: bytes): (r: Pulled<ActionBlock>)
    ensures r.Ok? ==> OkAction(r.value) && |EncAction(r.value)| + |r.rest| == |s| && |r.rest| < |s|
    decreases |s|, 0
  {
    var (length, s) :- PullUint16(s);
    var (op, s) :- PullUint8(s);
    var (flavor, s) :- PullUint32(s);
    var (flags, s) :- PullUint32(s);
    var (data, s) :- DecData(KindOfAction(op), length, s);
    Ok(ActionBlock(length, op, flavor, flags, data), s)
  }

  function DecData(kind: ActionKind, length: uint16, s: bytes): (r: Pulled<ActionData>)
    ensures r.Ok? ==> KindOfData(r.value) == kind && OkData(r.value) && |EncData(r.value)| + |r.rest| == |s|
    ensures r.Ok? && r.value.Defer? ==> |r.value.payload| == DeferSize(length)
    decreases |s|, 1
  {
    match kind
    case AMoveCopy =>
      var (store, s) :- DecBinary(s);
      var (folder, s) :- DecBinary(s);
      Ok(MoveCopy(store, folder), s)
    case AReply =>
      var (eid, s) :- DecBinary(s);
      var (guid, s) :- DecGuid(s);
      Ok(Reply(eid, guid), s)
    case ADefer =>
      var (payload, s) :- PullBytes(DeferSize(length), s);
      Ok(Defer(payload), s)
    case ABounce =>
      var (code, s) :- PullUint32(s);
      Ok(Bounce(code), s)
    case AForward => DecForward(s)
    case ATag =>
      var (pv, s) :- DecTagged(s);
      Ok(Tag(pv), s)
    case ANoData => Ok(NoData, s)
    case ANone => Fail
  }

  function DecForward(s: bytes): (r: Pulled<ActionData>)
    ensures r.Ok? ==> r.value.ForwardDelegate? && OkData(r.value) && |EncData(r.value)| + |r.rest| == |s|
    decreases |s|, 0
  {
    var (n, s) :- PullUint16(s);
    if n == 0 then Fail else
    var (rs, s) :- DecRecipients(n, s);
    Ok(ForwardDelegate(rs), s)
  }

  function DecRecipients(n: nat, s: bytes): (r: Pulled<seq<RecipientBlock>>)
    ensures r.Ok? ==> |r.value| == n && OkRecipients(r.value) && |EncRecipients(r.value)| + |r.rest| == |s|
    decreases |s|, 1
  {
    if n == 0 then Ok([], s) else
    var (x, s) :- DecRecipient(s);
    var (xs, s) :- DecRecipients(n - 1, s);
    assert ([x] + xs)[1..] == xs;
    Ok([x] + xs, s)
  }

  function DecRecipient(s: bytes): (r: Pulled<RecipientBlock>)
    ensures r.Ok? ==> OkRecipient(r.value) && |EncRecipient(r.value)| + |r.rest| == |s| && |r.rest| < |s|
    decreases |s|, 0
  {
    var (reserved, s) :- PullUint8(s);
    var (n, s) :- PullUint16(s);
    if n == 0 then Fail else
    var (pvs, s) :- DecTaggeds(n, s);
    Ok(RecipientBlock(reserved, pvs), s)
  }
}
