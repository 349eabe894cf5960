/** When re-encoding what was pulled gives back the very bytes: two things in the input
    that pull does not look at decide it, and here they are read off the input itself. */
module Exact {
  import opened Bytes
  import opened MapiTypes
  import opened Options
  import opened Wire
  import opened Parse

  // ----- the guards, along the parse of the input -----

  predicate FaithfulRestriction(s: bytes)
    decreases |s|, 0
  {
    var rt := PullUint8(s);
    rt.Ok? ==> FaithfulBody(rt.value, rt.rest)
  }

  predicate FaithfulBody(rt: uint8, s: bytes)
    decreases |s|, 1
  {
    if rt == 0x00 || rt == 0x01 then FaithfulList(s)
    else if rt == 0x02 then FaithfulRestriction(s)
    else if rt == 0x03 then FaithfulContent(s)
    else if rt == 0x04 then FaithfulProperty(s)
    else if rt == 0x09 || rt == 0x0b then FaithfulNumbered(s)
    else if rt == 0x0a then FaithfulComment(s)
    else true
  }

  predicate FaithfulList(s: bytes)
    decreases |s|, 0
  {
    var n := PullUint32(s);
    n.Ok? ==> FaithfulRestrictions(n.value, n.rest)
  }

  predicate FaithfulNumbered(s: bytes)
    decreases |s|, 0
  {
    var n := PullUint32(s);
    n.Ok? ==> FaithfulRestriction(n.rest)
  }

  predicate FaithfulContent(s: bytes)
    decreases |s|, 0
  {
    var fuzzy := PullUint32(s);
    fuzzy.Ok? ==> (var tag := PullUint32(fuzzy.rest); tag.Ok? ==> FaithfulTagged(tag.rest))
  }

  predicate FaithfulProperty(s: bytes)
    decreases |s|, 0
  {
    var relop := PullUint8(s);
    relop.Ok? ==> (var tag := PullUint32(relop.rest); tag.Ok? ==> FaithfulTagged(tag.rest))
  }

  predicate FaithfulRestrictions(n: nat, s: bytes)
    decreases |s|, 1
  {
    var x := DecRestriction(s);
    n > 0 && x.Ok? ==> FaithfulRestriction(s) && FaithfulRestrictions(n - 1, x.rest)
  }

  predicate FaithfulComment(s: bytes)
    decreases |s|, 0
  {
    var n := PullUint8(s);
    n.Ok? ==>
      var pvs := DecTaggeds(n.value, n.rest);
      pvs.Ok? ==> FaithfulTaggeds(n.value, n.rest) && FaithfulOptional(pvs.rest)
  }

  /** The presence byte is 0 or 1: pull takes anything but 0 for presence, push writes 1. */
  predicate FaithfulOptional(s: bytes)
    decreases |s|, 0
  {
    var present := PullUint8(s);
    present.Ok? ==> present.value <= 1 && (present.value == 1 ==> FaithfulRestriction(present.rest))
  }

  predicate FaithfulTagged(s: bytes)
    decreases |s|, 0
  {
    var tag := PullUint32(s);
    tag.Ok? ==> FaithfulValue(KindOfTag(tag.value), tag.rest)
  }

  predicate FaithfulTaggeds(n: nat, s: bytes)
    decreases |s|, 1
  {
    var x := DecTagged(s);
    n > 0 && x.Ok? ==> FaithfulTagged(s) && FaithfulTaggeds(n - 1, x.rest)
  }

  predicate FaithfulValue(kind: ValueKind, s: bytes)
    decreases |s|, 1
  {
    match kind
    case KRes => FaithfulRestriction(s)
    case KRule => FaithfulRuleActions(s)
    case _ => true
  }

  predicate FaithfulRuleActions(s: bytes)
    decreases |s|, 0
  {
    var n := PullUint16(s);
    n.Ok? ==> FaithfulActions(n.value, n.rest)
  }

  predicate FaithfulActions(n: nat, s: bytes)
    decreases |s|, 1
  {
    var x := DecAction(s);
    n > 0 && x.Ok? ==> FaithfulAction(s) && FaithfulActions(n - 1, x.rest)
  }

  /** The length field counts the bytes behind it, modulo 65536: pull ignores it, but for
      the size of a deferred payload, and push writes that count. */
  predicate FaithfulAction(s: bytes)
    decreases |s|, 0
  {
    var h := Header(s);
    h.Ok? ==>
      var (length, op) := h.value;
      var d := DecData(KindOfAction(op), length, h.rest);
      d.Ok? ==> && (KindOfAction(op) == ADefer || length == (9 + |h.rest| - |d.rest|) % 0x1_0000)
                && FaithfulData(KindOfAction(op), h.rest)
  }

  /** Length and opcode, behind which flavor and flags follow. */
  function Header(s: bytes): (h: Pulled<(uint16, uint8)>)
    ensures h.Ok? ==> |h.rest| == |s| - 11
  {
    var (length, s) :- PullUint16(s);
    var (op, s) :- PullUint8(s);
    var (flavor, s) :- PullUint32(s);
    var (flags, s) :- PullUint32(s);
    Ok((length, op), s)
  }

  predicate FaithfulData(kind: ActionKind, s: bytes)
    decreases |s|, 1
  {
    match kind
    case AForward => FaithfulForward(s)
    case ATag => FaithfulTagged(s)
    case _ => true
  }

  predicate FaithfulForward(s: bytes)
    decreases |s|, 0
  {
    var n := PullUint16(s);
    n.Ok? ==> FaithfulRecipients(n.value, n.rest)
  }

  predicate FaithfulRecipients(n: nat, s: bytes)
    decreases |s|, 1
  {
    var x := DecRecipient(s);
    n > 0 && x.Ok? ==> FaithfulRecipient(s) && FaithfulRecipients(n - 1, x.rest)
  }

  predicate FaithfulRecipient(s: bytes)
    decreases |s|, 0
  {
    var reserved := PullUint8(s);
    reserved.Ok? ==> (var n := PullUint16(reserved.rest); n.Ok? ==> FaithfulTaggeds(n.value, n.rest))
  }

  // ----- pieces of the input -----

  predicate Tail(t: bytes, s: bytes) { |t| <= |s| && t == s[|s| - |t|..] }

  /** What was pulled from s up to t: t is where the input goes on, and the encoding gives
      the bytes back exactly when the guard says so. */
  predicate Exactly(e: bytes, t: bytes, s: bytes, guard: bool) {
    Tail(t, s) && |e| + |t| == |s| && (e + t == s <==> guard)
  }

  /** A field that always comes back, and the rest. */
  lemma Behind(a: bytes, e: bytes, s: bytes, u: bytes, t: bytes, guard: bool)
    requires a + u == s && Exactly(e, t, u, guard)
    ensures Exactly(a + e, t, s, guard)
  {
    assert s[|a|..] == u;
    assert t == s[|s| - |t|..] by { assert s[|a|..][|u| - |t|..] == s[|s| - |t|..]; }
    assert a + e + t == a + (e + t);
    if a + e + t == s { assert (a + (e + t))[|a|..] == e + t; }
  }

  /** A field that comes back changed. */
  lemma Unlike(a: bytes, e: bytes, s: bytes, u: bytes, t: bytes, guard: bool)
    requires |a| <= |s| && s[|a|..] == u && a != s[..|a|] && Exactly(e, t, u, guard)
    ensures Exactly(a + e, t, s, false)
  {
    assert t == s[|s| - |t|..] by { assert s[|a|..][|u| - |t|..] == s[|s| - |t|..]; }
    assert a + e + t == a + (e + t);
    assert (a + (e + t))[..|a|] == a;
  }

  /** Two parts, one behind the other. */
  lemma Both(a: bytes, b: bytes, s: bytes, u: bytes, t: bytes, first: bool, second: bool)
    requires Exactly(a, u, s, first) && Exactly(b, t, u, second)
    ensures Exactly(a + b, t, s, first && second)
  {
    assert t == s[|s| - |t|..] by { assert s[|s| - |u|..][|u| - |t|..] == s[|s| - |t|..]; }
    assert a + b + t == a + (b + t);
    if a + b + t == s {
      assert (a + (b + t))[|a|..] == b + t && s[|a|..] == u;
    }
  }

  lemma Whole(e: bytes, t: bytes, s: bytes)
    requires e + t == s
    ensures Exactly(e, t, s, true)
  {
  }

  // ----- fields -----

  lemma Byte(s: bytes)
    requires PullUint8(s).Ok?
    ensures [PullUint8(s).value] + PullUint8(s).rest == s
  {
  }

  lemma Word(s: bytes)
    requires PullUint16(s).Ok?
    ensures U16(PullUint16(s).value) + PullUint16(s).rest == s
  {
    assert U16(FromU16(s)) == s[..2];
  }

  lemma Long(s: bytes)
    requires PullUint32(s).Ok?
    ensures U32(PullUint32(s).value) + PullUint32(s).rest == s
  {
    assert U16(FromU16(s)) == s[..2] && U16(FromU16(s[2..])) == s[2..4];
    LongParts(FromU16(s), FromU16(s[2..]));
    assert s[..2] + s[2..4] + s[4..] == s;
  }

  lemma LongParts(lo: uint16, hi: uint16)
    ensures var v: uint32 := lo + 0x1_0000 * hi; U32(v) == U16(lo) + U16(hi)
  {
    hide U16;
    var v: int := lo + 0x1_0000 * hi;
    assert v / 0x1_0000 == hi && v % 0x1_0000 == lo;
  }

  lemma LongLong(s: bytes)
    requires PullUint64(s).Ok?
    ensures U64(PullUint64(s).value) + PullUint64(s).rest == s
  {
    hide U32, FromU32;
    LongOf(s);
    LongOf(s[4..]);
    LongLongParts(FromU32(s), FromU32(s[4..]));
    assert s[..4] + s[4..][..4] + s[8..] == s;
  }

  lemma LongOf(s: bytes)
    requires |s| >= 4
    ensures U32(FromU32(s)) == s[..4]
  {
    Long(s);
    assert (U32(FromU32(s)) + s[4..])[..4] == U32(FromU32(s));
  }

  lemma LongLongParts(lo: uint32, hi: uint32)
    ensures var v: uint64 := lo + 0x1_0000_0000 * hi; U64(v) == U32(lo) + U32(hi)
  {
    hide U32;
    var v: int := lo + 0x1_0000_0000 * hi;
    assert v / 0x1_0000_0000 == hi && v % 0x1_0000_0000 == lo;
  }

  lemma Blob(n: nat, s: bytes)
    requires PullBytes(n, s).Ok?
    ensures PullBytes(n, s).value + PullBytes(n, s).rest == s
  {
  }

  lemma BinaryBack(s: bytes)
    requires DecBinary(s).Ok?
    ensures EncBinary(DecBinary(s).value) + DecBinary(s).rest == s
  {
    hide U32, PullUint32;
    var n := PullUint32(s);
    Long(s);
    Blob(n.value, n.rest);
    FittingCount(DecBinary(s).value);
    Regroup(U32(n.value), DecBinary(s).value, DecBinary(s).rest);
  }

  lemma Regroup(a: bytes, b: bytes, c: bytes)
    ensures a + b + c == a + (b + c)
  {
  }

  lemma StringBack(s: bytes)
    requires DecString(s).Ok?
    ensures EncString(DecString(s).value) + DecString(s).rest == s
  {
    var n := StrLen(s);
    assert s[..n] + [0] + s[n + 1..] == s;
  }

  lemma GuidBack(s: bytes)
    requires DecGuid(s).Ok?
    ensures EncGuid(DecGuid(s).value) + DecGuid(s).rest == s
  {
    hide U32, U16, PullUint32, PullUint16;
    var a := PullUint32(s);
    var b := PullUint16(a.rest);
    var c := PullUint16(b.rest);
    var d := PullBytes(2, c.rest);
    var e := PullBytes(6, d.rest);
    Long(s);
    Word(a.rest);
    Word(b.rest);
    Blob(2, c.rest);
    Blob(6, d.rest);
    Regroup(d.value, e.value, e.rest);
    Regroup(U16(c.value), d.value + e.value, e.rest);
    Regroup(U16(b.value), U16(c.value) + (d.value + e.value), e.rest);
    Regroup(U32(a.value), U16(b.value) + (U16(c.value) + (d.value + e.value)), e.rest);
  }

  lemma {:induction false} SeqBack<T>(dec: bytes -> Pulled<T>, enc: T -> bytes, n: nat, s: bytes)
    requires forall t :: dec(t).Ok? ==> enc(dec(t).value) + dec(t).rest == t
    requires DecSeq(dec, n, s).Ok?
    ensures EncSeq(enc, DecSeq(dec, n, s).value) + DecSeq(dec, n, s).rest == s
  {
    if n > 0 {
      var x := dec(s);
      var xs := DecSeq(dec, n - 1, x.rest);
      SeqBack(dec, enc, n - 1, x.rest);
      assert ([x.value] + xs.value)[1..] == xs.value;
      Regroup(enc(x.value), EncSeq(enc, xs.value), xs.rest);
    } else {
      assert EncSeq(enc, DecSeq(dec, 0, s).value) == [] && [] + s == s;
    }
  }

  lemma {:induction false} SeqSize<T>(dec: bytes -> Pulled<T>, n: nat, s: bytes)
    requires DecSeq(dec, n, s).Ok?
    ensures |DecSeq(dec, n, s).value| == n
  {
    if n > 0 { SeqSize(dec, n - 1, dec(s).rest); }
  }

  lemma CountedBack<T>(dec: bytes -> Pulled<T>, enc: T -> bytes, s: bytes)
    requires forall t :: dec(t).Ok? ==> enc(dec(t).value) + dec(t).rest == t
    requires DecCounted(dec, s).Ok?
    ensures EncArray(enc, DecCounted(dec, s).value) + DecCounted(dec, s).rest == s
  {
    hide U32, PullUint32, EncSeq, DecSeq;
    var n := PullUint32(s);
    var xs := DecSeq(dec, n.value, n.rest);
    Long(s);
    SeqBack(dec, enc, n.value, n.rest);
    SeqSize(dec, n.value, n.rest);
    FittingCount(xs.value);
    Regroup(U32(n.value), EncSeq(enc, xs.value), xs.rest);
  }

  // ----- values that hold no other value always come back -----

  lemma FlatExact(rt: uint8, s: bytes)
    requires rt == 0x05 || rt == 0x06 || rt == 0x07
    requires DecFlat(rt, s).Ok?
    ensures TypeByte(DecFlat(rt, s).value) == rt
    ensures Exactly(EncBody(DecFlat(rt, s).value), DecFlat(rt, s).rest, s, true)
  {
    hide U32, PullUint32, PullUint8, Exactly;
    var relop := PullUint8(s);
    var a := PullUint32(relop.rest);
    var b := PullUint32(a.rest);
    Byte(s);
    Long(relop.rest);
    Long(a.rest);
    Whole(U32(b.value), b.rest, a.rest);
    Behind(U32(a.value), U32(b.value), relop.rest, a.rest, b.rest, true);
    Behind([relop.value], U32(a.value) + U32(b.value), s, relop.rest, b.rest, true);
  }

  lemma ScalarExact(kind: ValueKind, s: bytes)
    requires DecValue(kind, s).Ok?
    requires kind in {KShort, KLong, KFloat, KDouble, KByte, KLongLong, KString, KGuid, KBinary}
    ensures EncValue(DecValue(kind, s).value) + DecValue(kind, s).rest == s
  {
    hide U16, U32, U64, PullUint8, PullUint16, PullUint32, PullUint64, PullBytes;
    hide DecString, DecGuid, DecBinary, EncString, EncGuid, EncBinary;
    match kind
    case KShort => Word(s);
    case KLong => Long(s);
    case KFloat => Blob(4, s);
    case KDouble => Blob(8, s);
    case KByte => Byte(s);
    case KLongLong => LongLong(s);
    case KString => StringBack(s);
    case KGuid => GuidBack(s);
    case KBinary => BinaryBack(s);
  }

  lemma ArrayExact(kind: ValueKind, s: bytes)
    requires DecArrayValue(kind, s).Ok?
    ensures EncValue(DecArrayValue(kind, s).value) + DecArrayValue(kind, s).rest == s
  {
    hide U16, U32, U64, PullUint16, PullUint32, PullUint64, EncArray, DecCounted;
    hide DecString, DecGuid, DecBinary, EncString, EncGuid, EncBinary;
    match kind
    case KShortArray =>
      forall t | PullUint16(t).Ok? ensures U16(PullUint16(t).value) + PullUint16(t).rest == t { Word(t); }
      CountedBack(PullUint16, U16, s);
    case KLongArray =>
      forall t | PullUint32(t).Ok? ensures U32(PullUint32(t).value) + PullUint32(t).rest == t { Long(t); }
      CountedBack(PullUint32, U32, s);
    case KLongLongArray =>
      forall t | PullUint64(t).Ok? ensures U64(PullUint64(t).value) + PullUint64(t).rest == t { LongLong(t); }
      CountedBack(PullUint64, U64, s);
    case KStringArray =>
      forall t | DecString(t).Ok? ensures EncString(DecString(t).value) + DecString(t).rest == t { StringBack(t); }
      CountedBack(DecString, EncString, s);
    case KGuidArray =>
      forall t | DecGuid(t).Ok? ensures EncGuid(DecGuid(t).value) + DecGuid(t).rest == t { GuidBack(t); }
      CountedBack(DecGuid, EncGuid, s);
    case KBinaryArray =>
      forall t | DecBinary(t).Ok? ensures EncBinary(DecBinary(t).value) + DecBinary(t).rest == t { BinaryBack(t); }
      CountedBack(DecBinary, EncBinary, s);
  }

  // ----- the simultaneous induction -----

  lemma {:induction false} RestrictionExact(s: bytes)
    requires DecRestriction(s).Ok?
    ensures var r := DecRestriction(s);
            Exactly(EncRestriction(r.value), r.rest, s, FaithfulRestriction(s))
    decreases |s|, 0
  {
    hide PullUint8, Exactly, EncBody, DecBody, FaithfulBody;
    var rt, r := PullUint8(s), DecRestriction(s);
    Byte(s);
    TypeFirst(s);
    BodyExact(rt.value, rt.rest);
    Behind([rt.value], EncBody(r.value), s, rt.rest, r.rest, FaithfulRestriction(s));
  }

  /** What follows the type byte. */
  function DecBody(rt: uint8, s: bytes): Pulled<Restriction> {
    if rt == 0x00 || rt == 0x01 then DecAndOr(rt, s)
    else if rt == 0x03 || rt == 0x04 then DecTest(rt, s)
    else if rt == 0x05 || rt == 0x06 || rt == 0x07 then DecFlat(rt, s)
    else if rt == 0x0a then DecComment(s)
    else if rt == 0x02 then DecNot(s)
    else if rt == 0x08 then DecExist(s)
    else if rt == 0x09 || rt == 0x0b then DecNumbered(rt, s)
    else if rt == 0xff then Ok(NullRes, s)
    else Fail
  }

  function DecNot(s: bytes): Pulled<Restriction> {
    var (res, s) :- DecRestriction(s);
    Ok(Not(res), s)
  }

  function DecExist(s: bytes): Pulled<Restriction> {
    var (tag, s) :- PullUint32(s);
    Ok(Exist(tag), s)
  }

  lemma TypeFirst(s: bytes)
    ensures DecRestriction(s) == if PullUint8(s).Fail? then Fail else DecBody(PullUint8(s).value, PullUint8(s).rest)
  {
    hide PullUint8, PullUint32, DecAndOr, DecTest, DecFlat, DecComment, DecNumbered;
  }

  lemma {:induction false} BodyExact(rt: uint8, s: bytes)
    requires DecBody(rt, s).Ok?
    ensures var r := DecBody(rt, s);
            TypeByte(r.value) == rt && Exactly(EncBody(r.value), r.rest, s, FaithfulBody(rt, s))
    decreases |s|, 3
  {
    hide Exactly, EncBody, DecAndOr, DecNumbered, DecTest, DecFlat, DecComment, DecNot, DecExist;
    hide FaithfulList, FaithfulNumbered, FaithfulContent, FaithfulProperty, FaithfulComment, FaithfulRestriction;
    if rt == 0x00 || rt == 0x01 {
      AndOrExact(rt, s);
    } else if rt == 0x02 {
      NotExact(s);
    } else if rt == 0x03 {
      ContentExact(s);
    } else if rt == 0x04 {
      PropertyExact(s);
    } else if rt == 0x09 || rt == 0x0b {
      NumberedExact(rt, s);
    } else if rt == 0x0a {
      CommentExact(s);
    } else if rt == 0x08 {
      ExistExact(s);
    } else if rt == 0xff {
      NullExact(s);
    } else {
      FlatExact(rt, s);
    }
  }

  lemma {:induction false} NotExact(s: bytes)
    requires DecNot(s).Ok?
    ensures DecNot(s).value.Not?
    ensures Exactly(EncBody(DecNot(s).value), DecNot(s).rest, s, FaithfulRestriction(s))
    decreases |s|, 1
  {
    hide Exactly, DecRestriction, FaithfulRestriction;
    RestrictionExact(s);
  }

  lemma ExistExact(s: bytes)
    requires DecExist(s).Ok?
    ensures DecExist(s).value.Exist?
    ensures Exactly(EncBody(DecExist(s).value), DecExist(s).rest, s, true)
  {
    hide U32, PullUint32;
    Long(s);
  }

  lemma NullExact(s: bytes)
    ensures Exactly(EncBody(NullRes), s, s, true)
  {
  }

  lemma {:induction false} AndOrExact(rt: uint8, s: bytes)
    requires rt == 0x00 || rt == 0x01
    requires DecAndOr(rt, s).Ok?
    ensures TypeByte(DecAndOr(rt, s).value) == rt
    ensures Exactly(EncBody(DecAndOr(rt, s).value), DecAndOr(rt, s).rest, s, FaithfulList(s))
    decreases |s|, 2
  {
    hide U32, PullUint32, Exactly, EncRestrictions, DecRestrictions, FaithfulRestrictions;
    var n := PullUint32(s);
    var rs := DecRestrictions(n.value, n.rest);
    Long(s);
    FittingCount(rs.value);
    RestrictionsExact(n.value, n.rest);
    Behind(U32(n.value), EncRestrictions(rs.value), s, n.rest, rs.rest, FaithfulRestrictions(n.value, n.rest));
  }

  lemma {:induction false} NumberedExact(rt: uint8, s: bytes)
    requires rt == 0x09 || rt == 0x0b
    requires DecNumbered(rt, s).Ok?
    ensures TypeByte(DecNumbered(rt, s).value) == rt
    ensures Exactly(EncBody(DecNumbered(rt, s).value), DecNumbered(rt, s).rest, s, FaithfulNumbered(s))
    decreases |s|, 2
  {
    hide U32, PullUint32, Exactly, EncRestriction, DecRestriction, FaithfulRestriction;
    var n := PullUint32(s);
    var res := DecRestriction(n.rest);
    Long(s);
    RestrictionExact(n.rest);
    Behind(U32(n.value), EncRestriction(res.value), s, n.rest, res.rest, FaithfulRestriction(n.rest));
  }

  lemma {:induction false} ContentExact(s: bytes)
    requires DecTest(0x03, s).Ok?
    ensures DecTest(0x03, s).value.Content?
    ensures Exactly(EncBody(DecTest(0x03, s).value), DecTest(0x03, s).rest, s, FaithfulContent(s))
    decreases |s|, 2
  {
    hide U32, PullUint32, Exactly, EncTagged, DecTagged, FaithfulTagged;
    var fuzzy := PullUint32(s);
    var tag := PullUint32(fuzzy.rest);
    var pv := DecTagged(tag.rest);
    Long(s);
    Long(fuzzy.rest);
    TaggedExact(tag.rest);
    Behind(U32(tag.value), EncTagged(pv.value), fuzzy.rest, tag.rest, pv.rest, FaithfulTagged(tag.rest));
    Behind(U32(fuzzy.value), U32(tag.value) + EncTagged(pv.value), s, fuzzy.rest, pv.rest, FaithfulTagged(tag.rest));
  }

  lemma {:induction false} PropertyExact(s: bytes)
    requires DecTest(0x04, s).Ok?
    ensures DecTest(0x04, s).value.Property?
    ensures Exactly(EncBody(DecTest(0x04, s).value), DecTest(0x04, s).rest, s, FaithfulProperty(s))
    decreases |s|, 2
  {
    hide U32, PullUint32, PullUint8, Exactly, EncTagged, DecTagged, FaithfulTagged;
    var relop := PullUint8(s);
    var tag := PullUint32(relop.rest);
    var pv := DecTagged(tag.rest);
    Byte(s);
    Long(relop.rest);
    TaggedExact(tag.rest);
    Behind(U32(tag.value), EncTagged(pv.value), relop.rest, tag.rest, pv.rest, FaithfulTagged(tag.rest));
    Behind([relop.value], U32(tag.value) + EncTagged(pv.value), s, relop.rest, pv.rest, FaithfulTagged(tag.rest));
  }

  lemma {:induction false} RestrictionsExact(n: nat, s: bytes)
    requires DecRestrictions(n, s).Ok?
    ensures var r := DecRestrictions(n, s);
            Exactly(EncRestrictions(r.value), r.rest, s, FaithfulRestrictions(n, s))
    decreases |s|, 1
  {
    hide EncRestriction, DecRestriction, FaithfulRestriction;
    if n == 0 {
      assert [] + s == s;
    } else {
      hide Exactly;
      var x := DecRestriction(s);
      var xs := DecRestrictions(n - 1, x.rest);
      RestrictionExact(s);
      RestrictionsExact(n - 1, x.rest);
      Both(EncRestriction(x.value), EncRestrictions(xs.value), s, x.rest, xs.rest,
           FaithfulRestriction(s), FaithfulRestrictions(n - 1, x.rest));
      assert ([x.value] + xs.value)[1..] == xs.value;
    }
  }

  lemma {:induction false} CommentExact(s: bytes)
    requires DecComment(s).Ok?
    ensures DecComment(s).value.Comment?
    ensures Exactly(EncBody(DecComment(s).value), DecComment(s).rest, s, FaithfulComment(s))
    decreases |s|, 2
  {
    hide PullUint8, Exactly, EncTaggeds, DecTaggeds, EncOptional, DecOptional, FaithfulTaggeds, FaithfulOptional;
    var n := PullUint8(s);
    var pvs := DecTaggeds(n.value, n.rest);
    var opt := DecOptional(pvs.rest);
    var guard := FaithfulTaggeds(n.value, n.rest) && FaithfulOptional(pvs.rest);
    Byte(s);
    TaggedsExact(n.value, n.rest);
    OptionalExact(pvs.rest);
    Both(EncTaggeds(pvs.value), EncOptional(opt.value), n.rest, pvs.rest, opt.rest,
         FaithfulTaggeds(n.value, n.rest), FaithfulOptional(pvs.rest));
    Behind([n.value], EncTaggeds(pvs.value) + EncOptional(opt.value), s, n.rest, opt.rest, guard);
  }

  lemma {:induction false} OptionalExact(s: bytes)
    requires DecOptional(s).Ok?
    ensures Exactly(EncOptional(DecOptional(s).value), DecOptional(s).rest, s, FaithfulOptional(s))
    decreases |s|, 1
  {
    hide EncRestriction, DecRestriction, FaithfulRestriction;
    var present := PullUint8(s);
    Byte(s);
    if present.value == 0 {
    } else {
      var res := DecRestriction(present.rest);
      RestrictionExact(present.rest);
      if present.value == 1 {
        Behind([1], EncRestriction(res.value), s, present.rest, res.rest, FaithfulRestriction(present.rest));
      } else {
        Unlike([1], EncRestriction(res.value), s, present.rest, res.rest, FaithfulRestriction(present.rest));
      }
    }
  }

  lemma {:induction false} TaggedExact(s: bytes)
    requires DecTagged(s).Ok?
    ensures var r := DecTagged(s);
            Exactly(EncTagged(r.value), r.rest, s, FaithfulTagged(s))
    decreases |s|, 0
  {
    hide U32, PullUint32, Exactly, EncValue, DecValue, FaithfulValue, KindOfTag;
    var tag := PullUint32(s);
    var v := DecValue(KindOfTag(tag.value), tag.rest);
    Long(s);
    ValueExact(KindOfTag(tag.value), tag.rest);
    Behind(U32(tag.value), EncValue(v.value), s, tag.rest, v.rest, FaithfulValue(KindOfTag(tag.value), tag.rest));
  }

  lemma {:induction false} TaggedsExact(n: nat, s: bytes)
    requires DecTaggeds(n, s).Ok?
    ensures var r := DecTaggeds(n, s);
            Exactly(EncTaggeds(r.value), r.rest, s, FaithfulTaggeds(n, s))
    decreases |s|, 1
  {
    hide EncTagged, DecTagged, FaithfulTagged;
    if n == 0 {
      assert [] + s == s;
    } else {
      hide Exactly;
      var x := DecTagged(s);
      var xs := DecTaggeds(n - 1, x.rest);
      TaggedExact(s);
      TaggedsExact(n - 1, x.rest);
      Both(EncTagged(x.value), EncTaggeds(xs.value), s, x.rest, xs.rest,
           FaithfulTagged(s), FaithfulTaggeds(n - 1, x.rest));
      assert ([x.value] + xs.value)[1..] == xs.value;
    }
  }

  lemma {:induction false} ValueExact(kind: ValueKind, s: bytes)
    requires DecValue(kind, s).Ok?
    ensures var r := DecValue(kind, s);
            Exactly(EncValue(r.value), r.rest, s, FaithfulValue(kind, s))
    decreases |s|, 1
  {
    hide Exactly, EncRestriction, DecRestriction, FaithfulRestriction, DecRuleActions, FaithfulRuleActions;
    hide U16, U32, U64, PullUint8, PullUint16, PullUint32, PullUint64, PullBytes;
    hide DecArrayValue, EncArray, EncActions, DecString, DecGuid, DecBinary, EncString, EncGuid, EncBinary;
    var r := DecValue(kind, s);
    match kind
    case KRes => RestrictionExact(s);
    case KRule => RuleActionsExact(s);
    case KNone =>
    case KShortArray => ArrayExact(kind, s); Whole(EncValue(r.value), r.rest, s);
    case KLongArray => ArrayExact(kind, s); Whole(EncValue(r.value), r.rest, s);
    case KLongLongArray => ArrayExact(kind, s); Whole(EncValue(r.value), r.rest, s);
    case KStringArray => ArrayExact(kind, s); Whole(EncValue(r.value), r.rest, s);
    case KGuidArray => ArrayExact(kind, s); Whole(EncValue(r.value), r.rest, s);
    case KBinaryArray => ArrayExact(kind, s); Whole(EncValue(r.value), r.rest, s);
    case _ => ScalarExact(kind, s); Whole(EncValue(r.value), r.rest, s);
  }

  lemma {:induction false} RuleActionsExact(s: bytes)
    requires DecRuleActions(s).Ok?
    ensures var r := DecRuleActions(s);
            Exactly(EncValue(Rule(r.value)), r.rest, s, FaithfulRuleActions(s))
    decreases |s|, 0
  {
    hide U16, PullUint16, Exactly, EncActions, DecActions, FaithfulActions;
    var n := PullUint16(s);
    var bs := DecActions(n.value, n.rest);
    Word(s);
    FittingCount(bs.value);
    ActionsExact(n.value, n.rest);
    Behind(U16(n.value), EncActions(bs.value), s, n.rest, bs.rest, FaithfulActions(n.value, n.rest));
  }

  lemma {:induction false} ActionsExact(n: nat, s: bytes)
    requires DecActions(n, s).Ok?
    ensures var r := DecActions(n, s);
            Exactly(EncActions(r.value), r.rest, s, FaithfulActions(n, s))
    decreases |s|, 1
  {
    hide EncAction, DecAction, FaithfulAction;
    if n == 0 {
      assert [] + s == s;
    } else {
      hide Exactly;
      var x := DecAction(s);
      var xs := DecActions(n - 1, x.rest);
      ActionExact(s);
      ActionsExact(n - 1, x.rest);
      Both(EncAction(x.value), EncActions(xs.value), s, x.rest, xs.rest,
           FaithfulAction(s), FaithfulActions(n - 1, x.rest));
      assert ([x.value] + xs.value)[1..] == xs.value;
    }
  }

  lemma {:induction false} ActionExact(s: bytes)
    requires DecAction(s).Ok?
    ensures var r := DecAction(s);
            Exactly(EncAction(r.value), r.rest, s, FaithfulAction(s))
    decreases |s|, 0
  {
    hide U16, U32, PullUint8, PullUint16, PullUint32, Exactly, EncData, DecData, FaithfulData, KindOfAction;
    var length := PullUint16(s);
    var op := PullUint8(length.rest);
    var flavor := PullUint32(op.rest);
    var flags := PullUint32(flavor.rest);
    var kind := KindOfAction(op.value);
    var d := DecData(kind, length.value, flags.rest);
    var a, guard := DecAction(s).value, FaithfulData(kind, flags.rest);
    DataExact(kind, length.value, flags.rest);
    Byte(length.rest);
    Long(op.rest);
    Long(flavor.rest);
    Behind(U32(flags.value), EncData(d.value), flavor.rest, flags.rest, d.rest, guard);
    Behind(U32(flavor.value), U32(flags.value) + EncData(d.value), op.rest, flavor.rest, d.rest, guard);
    Behind([op.value], U32(flavor.value) + (U32(flags.value) + EncData(d.value)), length.rest, op.rest, d.rest, guard);
    LengthCounts(a);
    WithLength(length.value, LengthField(a), EncAfterLength(a), s, d.rest, guard);
  }

  /** What push writes as the length, in terms of the data; a deferred action keeps its length. */
  lemma LengthCounts(a: ActionBlock)
    ensures LengthField(a) == (9 + |EncData(a.data)|) % 0x1_0000
    ensures OkAction(a) && a.data.Defer? ==> LengthField(a) == a.length
  {
    hide U32, OkData;
    assert |EncAfterLength(a)| == 9 + |EncData(a.data)|;
  }

  lemma WithLength(length: uint16, field: uint16, e: bytes, s: bytes, t: bytes, guard: bool)
    requires PullUint16(s).Ok? && PullUint16(s).value == length
    requires Exactly(e, t, PullUint16(s).rest, guard)
    ensures Exactly(U16(field) + e, t, s, length == field && guard)
  {
    hide Exactly;
    var u := PullUint16(s).rest;
    Word(s);
    if length == field {
      Behind(U16(length), e, s, u, t, guard);
    } else {
      U16RoundTrip(length, []);
      U16RoundTrip(field, []);
      assert s[..2] == U16(length);
      Unlike(U16(field), e, s, u, t, guard);
    }
  }

  lemma {:induction false} DataExact(kind: ActionKind, length: uint16, s: bytes)
    requires DecData(kind, length, s).Ok?
    ensures var r := DecData(kind, length, s);
            Exactly(EncData(r.value), r.rest, s, FaithfulData(kind, s))
    decreases |s|, 1
  {
    hide U32, PullUint32, PullBytes, Exactly, DecForward, FaithfulForward, EncRecipients;
    hide EncTagged, DecTagged, FaithfulTagged, EncBinary, DecBinary, EncGuid, DecGuid;
    var r := DecData(kind, length, s);
    match kind
    case AMoveCopy =>
      var store := DecBinary(s);
      BinaryBack(s);
      BinaryBack(store.rest);
      Whole(EncBinary(r.value.folderEid), r.rest, store.rest);
      Behind(EncBinary(store.value), EncBinary(r.value.folderEid), s, store.rest, r.rest, true);
    case AReply =>
      var eid := DecBinary(s);
      BinaryBack(s);
      GuidBack(eid.rest);
      Whole(EncGuid(r.value.templateGuid), r.rest, eid.rest);
      Behind(EncBinary(eid.value), EncGuid(r.value.templateGuid), s, eid.rest, r.rest, true);
    case ADefer =>
      Blob(DeferSize(length), s);
      Whole(r.value.payload, r.rest, s);
    case ABounce =>
      Long(s);
      Whole(U32(r.value.code), r.rest, s);
    case AForward => ForwardExact(s);
    case ATag => TaggedExact(s);
    case ANoData =>
      assert [] + s == s;
      Whole([], s, s);
    case ANone =>
  }

  lemma {:induction false} ForwardExact(s: bytes)
    requires DecForward(s).Ok?
    ensures Exactly(EncData(DecForward(s).value), DecForward(s).rest, s, FaithfulForward(s))
    decreases |s|, 0
  {
    hide U16, PullUint16, Exactly, EncRecipients, DecRecipients, FaithfulRecipients;
    var n := PullUint16(s);
    var rs := DecRecipients(n.value, n.rest);
    Word(s);
    FittingCount(rs.value);
    RecipientsExact(n.value, n.rest);
    Behind(U16(n.value), EncRecipients(rs.value), s, n.rest, rs.rest, FaithfulRecipients(n.value, n.rest));
  }

  lemma {:induction false} RecipientsExact(n: nat, s: bytes)
    requires DecRecipients(n, s).Ok?
    ensures var r := DecRecipients(n, s);
            Exactly(EncRecipients(r.value), r.rest, s, FaithfulRecipients(n, s))
    decreases |s|, 1
  {
    hide EncRecipient, DecRecipient, FaithfulRecipient;
    if n == 0 {
      assert [] + s == s;
    } else {
      hide Exactly;
      var x := DecRecipient(s);
      var xs := DecRecipients(n - 1, x.rest);
      RecipientExact(s);
      RecipientsExact(n - 1, x.rest);
      Both(EncRecipient(x.value), EncRecipients(xs.value), s, x.rest, xs.rest,
           FaithfulRecipient(s), FaithfulRecipients(n - 1, x.rest));
      assert ([x.value] + xs.value)[1..] == xs.value;
    }
  }

  lemma {:induction false} RecipientExact(s: bytes)
    requires DecRecipient(s).Ok?
    ensures var r := DecRecipient(s);
            Exactly(EncRecipient(r.value), r.rest, s, FaithfulRecipient(s))
    decreases |s|, 0
  {
    hide U16, PullUint8, PullUint16, Exactly, EncTaggeds, DecTaggeds, FaithfulTaggeds;
    var reserved := PullUint8(s);
    var n := PullUint16(reserved.rest);
    var pvs := DecTaggeds(n.value, n.rest);
    var guard := FaithfulTaggeds(n.value, n.rest);
    Byte(s);
    Word(reserved.rest);
    FittingCount(pvs.value);
    TaggedsExact(n.value, n.rest);
    Behind(U16(n.value), EncTaggeds(pvs.value), reserved.rest, n.rest, pvs.rest, guard);
    Behind([reserved.value], U16(n.value) + EncTaggeds(pvs.value), s, reserved.rest, pvs.rest, guard);
  }
}
