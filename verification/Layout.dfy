/** The bytes written out: which first byte belongs to which kind of restriction, and
    where every field of every entry stands. */
module Layout {
  import opened Bytes
  import opened MapiTypes
  import opened Options
  import opened Wire
  import opened PropNames

  /** The little-endian number at position i. */
  function Le16(s: bytes, i: nat): uint16
    requires i + 2 <= |s|
  {
    var lo: int, hi: int := s[i], s[i + 1];
    lo + 0x100 * hi
  }

  function Le32(s: bytes, i: nat): uint32
    requires i + 4 <= |s|
  {
    var lo: int, hi: int := Le16(s, i), Le16(s, i + 2);
    lo + 0x1_0000 * hi
  }

  function Le64(s: bytes, i: nat): uint64
    requires i + 8 <= |s|
  {
    var lo: int, hi: int := Le32(s, i), Le32(s, i + 4);
    lo + 0x1_0000_0000 * hi
  }

  /** The lowest byte comes first in every number. */
  lemma LittleEndian(a: uint16, b: uint32, c: uint64)
    ensures var e: seq<int> := U16(a); e[0] + 0x100 * e[1] == a
    ensures var e: seq<int> := U32(b);
            e[0] + 0x100 * e[1] + 0x1_0000 * e[2] + 0x100_0000 * e[3] == b
    ensures var e: seq<int> := U64(c);
            && e[0] + 0x100 * e[1] + 0x1_0000 * e[2] + 0x100_0000 * e[3] == c % 0x1_0000_0000
            && e[4] + 0x100 * e[5] + 0x1_0000 * e[6] + 0x100_0000 * e[7] == c / 0x1_0000_0000
  {
    Sum32(b);
    var lo, hi := c % 0x1_0000_0000, c / 0x1_0000_0000;
    Sum32(lo);
    Sum32(hi);
    assert forall i | 0 <= i < 4 :: U64(c)[i] == U32(lo)[i] && U64(c)[4 + i] == U32(hi)[i];
  }

  lemma Sum32(v: uint32)
    ensures var e: seq<int> := U32(v);
            e[0] + 0x100 * e[1] + 0x1_0000 * e[2] + 0x100_0000 * e[3] == v
  {
  }

  // ----- a number in front of something, and behind something -----

  lemma At16(v: uint16, x: bytes)
    ensures var e := U16(v) + x;
            |e| == 2 + |x| && Le16(e, 0) == v && e[2..] == x
  {
  }

  lemma At32(v: uint32, x: bytes)
    ensures var e := U32(v) + x;
            |e| == 4 + |x| && Le32(e, 0) == v && e[4..] == x
  {
    Sum32(v);
    assert forall i | 0 <= i < 4 :: (U32(v) + x)[i] == U32(v)[i];
  }

  lemma At64(v: uint64, x: bytes)
    ensures var e := U64(v) + x;
            |e| == 8 + |x| && Le64(e, 0) == v && e[8..] == x
  {
    LittleEndian(0, 0, v);
    assert forall i | 0 <= i < 8 :: (U64(v) + x)[i] == U64(v)[i];
  }

  /** A number keeps its value k positions further on. */
  lemma Behind(s: bytes, k: nat)
    requires k <= |s|
    ensures forall i: nat | k + i + 2 <= |s| :: Le16(s[k..], i) == Le16(s, k + i)
    ensures forall i: nat | k + i + 4 <= |s| :: Le32(s[k..], i) == Le32(s, k + i)
    ensures forall i: nat | k + i + 8 <= |s| :: Le64(s[k..], i) == Le64(s, k + i)
  {
  }

  // ----- restrictions -----

  /** The first byte names the kind. */
  lemma FirstByte(r: Restriction)
    requires !r.Unknown?
    ensures EncRestriction(r) != []
    ensures var b := EncRestriction(r)[0];
            && (b == 0x00 <==> r.And?) && (b == 0x01 <==> r.Or?) && (b == 0x02 <==> r.Not?)
            && (b == 0x03 <==> r.Content?) && (b == 0x04 <==> r.Property?) && (b == 0x05 <==> r.PropCompare?)
            && (b == 0x06 <==> r.BitMask?) && (b == 0x07 <==> r.Size?) && (b == 0x08 <==> r.Exist?)
            && (b == 0x09 <==> r.SubObj?) && (b == 0x0a <==> r.Comment?) && (b == 0x0b <==> r.Count?)
            && (b == 0xff <==> r.NullRes?)
  {
    hide EncBody;
  }

  lemma BodyFollows(r: Restriction)
    ensures |EncRestriction(r)| == 1 + |EncBody(r)| && EncRestriction(r)[1..] == EncBody(r)
  {
    hide EncBody;
  }

  lemma AndOrLayout(r: Restriction)
    requires r.And? || r.Or?
    ensures var e := EncRestriction(r);
            |e| >= 5 && Le32(e, 1) == |r.children| % 0x1_0000_0000 && e[5..] == EncRestrictions(r.children)
  {
    hide U32, EncRestrictions;
    var e := EncRestriction(r);
    BodyFollows(r);
    At32(|r.children| % 0x1_0000_0000, EncRestrictions(r.children));
    Behind(e, 1);
    assert e[5..] == e[1..][4..];
  }

  lemma NotLayout(r: Restriction)
    requires r.Not?
    ensures EncRestriction(r)[1..] == EncRestriction(r.res)
  {
    BodyFollows(r);
  }

  lemma ContentLayout(r: Restriction)
    requires r.Content?
    ensures var e := EncRestriction(r);
            |e| >= 9 && Le32(e, 1) == r.fuzzyLevel && Le32(e, 5) == r.proptag && e[9..] == EncTagged(r.propval)
  {
    hide U32, EncTagged;
    var e := EncRestriction(r);
    BodyFollows(r);
    At32(r.fuzzyLevel, U32(r.proptag) + EncTagged(r.propval));
    At32(r.proptag, EncTagged(r.propval));
    Behind(e, 1);
    Behind(e, 5);
    assert e[5..] == e[1..][4..] && e[9..] == e[5..][4..];
  }

  lemma PropertyLayout(r: Restriction)
    requires r.Property?
    ensures var e := EncRestriction(r);
            |e| >= 6 && e[1] == r.relop && Le32(e, 2) == r.proptag && e[6..] == EncTagged(r.propval)
  {
    hide U32, EncTagged;
    var e := EncRestriction(r);
    BodyFollows(r);
    At32(r.proptag, EncTagged(r.propval));
    Behind(e, 2);
    assert e[2..] == e[1..][1..] == U32(r.proptag) + EncTagged(r.propval) && e[6..] == e[2..][4..];
  }

  lemma FlatLayout(r: Restriction)
    requires r.PropCompare? || r.BitMask? || r.Size?
    ensures var e := EncRestriction(r);
            && |e| == 10
            && (r.PropCompare? ==> e[1] == r.relop && Le32(e, 2) == r.proptag1 && Le32(e, 6) == r.proptag2)
            && (r.BitMask? ==> e[1] == r.relop && Le32(e, 2) == r.proptag && Le32(e, 6) == r.mask)
            && (r.Size? ==> e[1] == r.relop && Le32(e, 2) == r.proptag && Le32(e, 6) == r.size)
  {
    hide U32;
    var e := EncRestriction(r);
    var a, b := if r.PropCompare? then r.proptag1 else r.proptag,
                if r.PropCompare? then r.proptag2 else if r.BitMask? then r.mask else r.size;
    BodyFollows(r);
    assert EncBody(r) == [r.relop] + (U32(a) + U32(b));
    At32(a, U32(b));
    At32(b, []);
    assert U32(b) + [] == U32(b);
    Behind(e, 2);
    Behind(e, 6);
    assert e[2..] == e[1..][1..] == U32(a) + U32(b) && e[6..] == e[2..][4..];
  }

  lemma ExistLayout(r: Restriction)
    requires r.Exist?
    ensures var e := EncRestriction(r);
            |e| == 5 && Le32(e, 1) == r.proptag
  {
    hide U32;
    BodyFollows(r);
    At32(r.proptag, []);
    assert U32(r.proptag) + [] == U32(r.proptag) == EncRestriction(r)[1..];
    Behind(EncRestriction(r), 1);
  }

  lemma NumberedLayout(r: Restriction)
    requires r.SubObj? || r.Count?
    ensures var e := EncRestriction(r);
            && |e| >= 5
            && Le32(e, 1) == (if r.SubObj? then r.subobject else r.count) && e[5..] == EncRestriction(r.res)
  {
    hide U32;
    var e, n := EncRestriction(r), if r.SubObj? then r.subobject else r.count;
    BodyFollows(r);
    assert EncBody(r) == U32(n) + EncRestriction(r.res);
    At32(n, EncRestriction(r.res));
    Behind(e, 1);
    assert e[5..] == e[1..][4..];
  }

  /** A one-byte count, the values, and a byte that says whether a restriction follows. */
  lemma CommentLayout(r: Restriction)
    requires r.Comment?
    ensures var e, v := EncRestriction(r), EncTaggeds(r.propvals);
            && |e| >= 3 + |v| && e[1] == |r.propvals| % 0x100 && e[2..2 + |v|] == v
            && (r.optional.None? ==> |e| == 3 + |v| && e[2 + |v|] == 0)
            && (r.optional.Some? ==> e[2 + |v|] == 1 && e[3 + |v|..] == EncRestriction(r.optional.value))
  {
    hide EncTaggeds;
    var e, v, opt := EncRestriction(r), EncTaggeds(r.propvals), EncOptional(r.optional);
    BodyFollows(r);
    assert EncBody(r) == [|r.propvals| % 0x100] + (v + opt);
    assert e[2..] == e[1..][1..] == v + opt && e[2 + |v|..] == opt;
  }

  lemma NullResLayout()
    ensures EncRestriction(NullRes) == [0xff]
  {
  }

  // ----- lists -----

  /** Element i stands behind the elements before it and in front of those after it. */
  lemma {:induction false} ElementsInOrder<T>(enc: T -> bytes, xs: seq<T>, i: nat)
    requires i < |xs|
    ensures EncSeq(enc, xs) == EncSeq(enc, xs[..i]) + enc(xs[i]) + EncSeq(enc, xs[i + 1..])
    ensures EncSeq(enc, []) == []
  {
    if i > 0 {
      assert xs[..i][1..] == xs[1..][..i - 1] && xs[1..][i..] == xs[i + 1..];
      ElementsInOrder(enc, xs[1..], i - 1);
    }
  }

  lemma {:induction false} RestrictionsInOrder(rs: seq<Restriction>, i: nat)
    requires i < |rs|
    ensures EncRestrictions(rs) == EncRestrictions(rs[..i]) + EncRestriction(rs[i]) + EncRestrictions(rs[i + 1..])
    ensures EncRestrictions([]) == []
  {
    hide EncRestriction;
    if i > 0 {
      assert rs[..i][1..] == rs[1..][..i - 1] && rs[1..][i..] == rs[i + 1..];
      RestrictionsInOrder(rs[1..], i - 1);
    }
  }

  lemma {:induction false} TaggedsInOrder(pvs: seq<TaggedPropval>, i: nat)
    requires i < |pvs|
    ensures EncTaggeds(pvs) == EncTaggeds(pvs[..i]) + EncTagged(pvs[i]) + EncTaggeds(pvs[i + 1..])
    ensures EncTaggeds([]) == []
  {
    hide EncTagged;
    if i > 0 {
      assert pvs[..i][1..] == pvs[1..][..i - 1] && pvs[1..][i..] == pvs[i + 1..];
      TaggedsInOrder(pvs[1..], i - 1);
    }
  }

  lemma {:induction false} ActionsInOrder(bs: seq<ActionBlock>, i: nat)
    requires i < |bs|
    ensures EncActions(bs) == EncActions(bs[..i]) + EncAction(bs[i]) + EncActions(bs[i + 1..])
    ensures EncActions([]) == []
  {
    hide EncAction;
    if i > 0 {
      assert bs[..i][1..] == bs[1..][..i - 1] && bs[1..][i..] == bs[i + 1..];
      ActionsInOrder(bs[1..], i - 1);
    }
  }

  lemma {:induction false} RecipientsInOrder(rs: seq<RecipientBlock>, i: nat)
    requires i < |rs|
    ensures EncRecipients(rs) == EncRecipients(rs[..i]) + EncRecipient(rs[i]) + EncRecipients(rs[i + 1..])
    ensures EncRecipients([]) == []
  {
    hide EncRecipient;
    if i > 0 {
      assert rs[..i][1..] == rs[1..][..i - 1] && rs[1..][i..] == rs[i + 1..];
      RecipientsInOrder(rs[1..], i - 1);
    }
  }

  lemma {:induction false} NamesInOrder(ps: seq<PropName>, i: nat)
    requires i < |ps|
    ensures EncNames(ps) == EncNames(ps[..i]) + EncName(ps[i]) + EncNames(ps[i + 1..])
    ensures EncNames([]) == []
  {
    hide EncName;
    if i > 0 {
      assert ps[..i][1..] == ps[1..][..i - 1] && ps[1..][i..] == ps[i + 1..];
      NamesInOrder(ps[1..], i - 1);
    }
  }

  /** Elements of k bytes each: element i stands at position k * i. */
  lemma FixedElements<T>(enc: T -> bytes, k: nat, xs: seq<T>, i: nat)
    requires (forall x :: |enc(x)| == k) && i < |xs|
    ensures 0 <= k * i && k * i + k <= |EncSeq(enc, xs)| == k * |xs|
    ensures EncSeq(enc, xs)[k * i..k * i + k] == enc(xs[i])
  {
    FixedSize(enc, k, xs);
    FixedSize(enc, k, xs[..i]);
    FixedSize(enc, k, xs[i + 1..]);
    ElementsInOrder(enc, xs, i);
  }

  lemma {:induction false} FixedSize<T>(enc: T -> bytes, k: nat, xs: seq<T>)
    requires forall x :: |enc(x)| == k
    ensures |EncSeq(enc, xs)| == k * |xs|
  {
    if xs != [] { FixedSize(enc, k, xs[1..]); }
  }

  // ----- values -----

  lemma GuidLayout(g: Guid)
    ensures var e: seq<int> := EncGuid(g);
            && |e| == 16
            && e[0] + 0x100 * e[1] + 0x1_0000 * e[2] + 0x100_0000 * e[3] == g.timeLow
            && e[4] + 0x100 * e[5] == g.timeMid && e[6] + 0x100 * e[7] == g.timeHi
            && e[8..10] == g.clockSeq && e[10..] == g.node
  {
    hide U32, U16;
    var e, last := EncGuid(g), g.clockSeq + g.node;
    At32(g.timeLow, U16(g.timeMid) + (U16(g.timeHi) + last));
    At16(g.timeMid, U16(g.timeHi) + last);
    At16(g.timeHi, last);
    assert e[6..] == e[4..][2..] && e[8..] == e[6..][2..];
    assert e[8..][..2] == g.clockSeq && e[8..][2..] == g.node;
  }

  lemma StringLayout(b: bytes)
    ensures var e := EncString(b);
            |e| == |b| + 1 && e[..|b|] == b && e[|b|] == 0
  {
  }

  lemma BinaryLayout(b: bytes)
    ensures var e := EncBinary(b);
            |e| == 4 + |b| && Le32(e, 0) == |b| % 0x1_0000_0000 && e[4..] == b
  {
    At32(|b| % 0x1_0000_0000, b);
  }

  lemma TaggedLayout(pv: TaggedPropval)
    ensures var e := EncTagged(pv);
            |e| >= 4 && Le32(e, 0) == pv.proptag && e[4..] == EncValue(pv.value)
  {
    hide U32, EncValue;
    At32(pv.proptag, EncValue(pv.value));
  }

  lemma ScalarLayout(v: PropValue)
    ensures var e := EncValue(v);
            && (v.Short? ==> |e| == 2 && Le16(e, 0) == v.s)
            && (v.Long? ==> |e| == 4 && Le32(e, 0) == v.l)
            && (v.Float? ==> e == v.f)
            && (v.Double? ==> e == v.d)
            && (v.Byte? ==> e == [v.b])
            && (v.LongLong? ==> |e| == 8 && Le64(e, 0) == v.ll)
            && (v.String? ==> e == v.chars + [0])
            && (v.GuidValue? ==> e == EncGuid(v.guid))
            && (v.Res? ==> e == EncRestriction(v.res))
            && (v.Binary? ==> e == EncBinary(v.bin))
  {
    hide U16, U32, U64;
    match v
    case Short(s) =>
      At16(s, []);
      assert U16(s) + [] == EncValue(v);
    case Long(l) =>
      At32(l, []);
      assert U32(l) + [] == EncValue(v);
    case LongLong(ll) =>
      At64(ll, []);
      assert U64(ll) + [] == EncValue(v);
    case _ =>
  }

  /** Every array starts with the 32-bit number of its elements. */
  lemma ArrayLayout<T>(enc: T -> bytes, xs: seq<T>)
    ensures var e := EncArray(enc, xs);
            |e| >= 4 && Le32(e, 0) == |xs| % 0x1_0000_0000 && e[4..] == EncSeq(enc, xs)
  {
    hide U32;
    At32(|xs| % 0x1_0000_0000, EncSeq(enc, xs));
  }

  lemma ArraysOfEach(v: PropValue)
    ensures v.ShortArray? ==> EncValue(v) == EncArray(U16, v.shorts)
    ensures v.LongArray? ==> EncValue(v) == EncArray(U32, v.longs)
    ensures v.LongLongArray? ==> EncValue(v) == EncArray(U64, v.longlongs)
    ensures v.StringArray? ==> EncValue(v) == EncArray(EncString, v.strings)
    ensures v.GuidArray? ==> EncValue(v) == EncArray(EncGuid, v.guids)
    ensures v.BinaryArray? ==> EncValue(v) == EncArray(EncBinary, v.bins)
  {
  }

  /** Element i of an array of numbers, by its position. */
  lemma NumberArrayLayout(v: PropValue, i: nat)
    ensures var e := EncValue(v);
            && (v.ShortArray? ==>
                  |e| == 4 + 2 * |v.shorts| && Le32(e, 0) == |v.shorts| % 0x1_0000_0000
                  && (i < |v.shorts| ==> Le16(e, 4 + 2 * i) == v.shorts[i]))
            && (v.LongArray? ==>
                  |e| == 4 + 4 * |v.longs| && Le32(e, 0) == |v.longs| % 0x1_0000_0000
                  && (i < |v.longs| ==> Le32(e, 4 + 4 * i) == v.longs[i]))
            && (v.LongLongArray? ==>
                  |e| == 4 + 8 * |v.longlongs| && Le32(e, 0) == |v.longlongs| % 0x1_0000_0000
                  && (i < |v.longlongs| ==> Le64(e, 4 + 8 * i) == v.longlongs[i]))
  {
    hide EncArray, U16, U32, U64, EncValue;
    ArraysOfEach(v);
    match v
    case ShortArray(xs) =>
      ArrayLayout(U16, xs);
      FixedSize(U16, 2, xs);
      if i < |xs| { ShortAt(xs, i); Behind(EncValue(v), 4); }
    case LongArray(xs) =>
      ArrayLayout(U32, xs);
      FixedSize(U32, 4, xs);
      if i < |xs| { LongAt(xs, i); Behind(EncValue(v), 4); }
    case LongLongArray(xs) =>
      ArrayLayout(U64, xs);
      FixedSize(U64, 8, xs);
      if i < |xs| { LongLongAt(xs, i); Behind(EncValue(v), 4); }
    case _ =>
  }

  /** Arrays of larger elements: each is laid out by itself, in order. */
  lemma BlobArrayLayout(v: PropValue)
    requires v.StringArray? || v.GuidArray? || v.BinaryArray?
    ensures var e := EncValue(v);
            && |e| >= 4
            && (v.StringArray? ==>
                  Le32(e, 0) == |v.strings| % 0x1_0000_0000 && e[4..] == EncSeq(EncString, v.strings))
            && (v.GuidArray? ==> Le32(e, 0) == |v.guids| % 0x1_0000_0000 && e[4..] == EncSeq(EncGuid, v.guids))
            && (v.BinaryArray? ==> Le32(e, 0) == |v.bins| % 0x1_0000_0000 && e[4..] == EncSeq(EncBinary, v.bins))
  {
    hide EncArray, EncSeq, EncValue;
    ArraysOfEach(v);
    match v
    case StringArray(xs) => ArrayLayout(EncString, xs);
    case GuidArray(xs) => ArrayLayout(EncGuid, xs);
    case BinaryArray(xs) => ArrayLayout(EncBinary, xs);
    case _ =>
  }

  lemma ShortAt(xs: seq<uint16>, i: nat)
    requires i < |xs|
    ensures var e := EncSeq(U16, xs);
            |e| == 2 * |xs| && Le16(e, 2 * i) == xs[i]
  {
    hide U16;
    FixedElements(U16, 2, xs, i);
    At16(xs[i], []);
    var e := EncSeq(U16, xs);
    assert U16(xs[i]) + [] == U16(xs[i]) == e[2 * i..2 * i + 2];
  }

  lemma LongAt(xs: seq<uint32>, i: nat)
    requires i < |xs|
    ensures var e := EncSeq(U32, xs);
            |e| == 4 * |xs| && Le32(e, 4 * i) == xs[i]
  {
    hide U32;
    FixedElements(U32, 4, xs, i);
    At32(xs[i], []);
    var e := EncSeq(U32, xs);
    assert U32(xs[i]) + [] == U32(xs[i]) == e[4 * i..4 * i + 4];
  }

  lemma LongLongAt(xs: seq<uint64>, i: nat)
    requires i < |xs|
    ensures var e := EncSeq(U64, xs);
            |e| == 8 * |xs| && Le64(e, 8 * i) == xs[i]
  {
    hide U64;
    FixedElements(U64, 8, xs, i);
    At64(xs[i], []);
    var e := EncSeq(U64, xs);
    assert U64(xs[i]) + [] == U64(xs[i]) == e[8 * i..8 * i + 8];
  }

  // ----- rule actions -----

  lemma RuleLayout(v: PropValue)
    requires v.Rule?
    ensures var e := EncValue(v);
            |e| >= 2 && Le16(e, 0) == |v.blocks| % 0x1_0000 && e[2..] == EncActions(v.blocks)
  {
    hide U16, EncActions;
    At16(|v.blocks| % 0x1_0000, EncActions(v.blocks));
  }

  /** The first field is the number of bytes behind it. */
  lemma ActionLayout(a: ActionBlock)
    ensures var e := EncAction(a);
            && |e| >= 11 && Le16(e, 0) == (|e| - 2) % 0x1_0000 && e[2] == a.opcode
            && Le32(e, 3) == a.flavor && Le32(e, 7) == a.flags && e[11..] == EncData(a.data)
  {
    hide U16, U32, EncData;
    var e, tail := EncAction(a), U32(a.flavor) + (U32(a.flags) + EncData(a.data));
    At16(LengthField(a), EncAfterLength(a));
    At32(a.flavor, U32(a.flags) + EncData(a.data));
    At32(a.flags, EncData(a.data));
    assert e[2..] == [a.opcode] + tail && e[3..] == e[2..][1..] == tail;
    assert e[7..] == e[3..][4..] && e[11..] == e[7..][4..];
    Behind(e, 3);
    Behind(e, 7);
  }

  lemma MoveCopyLayout(d: ActionData)
    requires d.MoveCopy?
    ensures var e, n := EncData(d), |d.storeEid|;
            && |e| == 8 + n + |d.folderEid|
            && Le32(e, 0) == n % 0x1_0000_0000 && e[4..4 + n] == d.storeEid
            && Le32(e, 4 + n) == |d.folderEid| % 0x1_0000_0000 && e[8 + n..] == d.folderEid
  {
    hide U32, EncBinary;
    var e, n := EncData(d), |d.storeEid|;
    BinaryLayout(d.storeEid);
    BinaryLayout(d.folderEid);
    assert e[..4 + n] == EncBinary(d.storeEid) && e[4 + n..] == EncBinary(d.folderEid);
    Behind(e, 4 + n);
    assert e[8 + n..] == e[4 + n..][4..] && e[4..4 + n] == e[..4 + n][4..];
  }

  lemma ReplyLayout(d: ActionData)
    requires d.Reply?
    ensures var e, n := EncData(d), |d.messageEid|;
            && |e| == 20 + n
            && Le32(e, 0) == n % 0x1_0000_0000 && e[4..4 + n] == d.messageEid
            && e[4 + n..] == EncGuid(d.templateGuid)
  {
    hide U32, EncBinary, EncGuid;
    var e, n := EncData(d), |d.messageEid|;
    BinaryLayout(d.messageEid);
    GuidLayout(d.templateGuid);
    assert e[..4 + n] == EncBinary(d.messageEid) && e[4 + n..] == EncGuid(d.templateGuid);
    assert e[4..4 + n] == e[..4 + n][4..];
  }

  lemma DataLayout(d: ActionData)
    ensures var e := EncData(d);
            && (d.Defer? ==> e == d.payload)
            && (d.Bounce? ==> |e| == 4 && Le32(e, 0) == d.code)
            && (d.ForwardDelegate? ==>
                  |e| >= 2 && Le16(e, 0) == |d.recipients| % 0x1_0000 && e[2..] == EncRecipients(d.recipients))
            && (d.Tag? ==> e == EncTagged(d.tagged))
            && (d.NoData? ==> e == [])
  {
    hide U16, U32, EncBinary, EncGuid, EncTagged, EncRecipients;
    match d
    case Bounce(code) =>
      At32(code, []);
      assert U32(code) + [] == EncData(d);
    case ForwardDelegate(rs) => At16(|rs| % 0x1_0000, EncRecipients(rs));
    case _ =>
  }

  lemma RecipientLayout(r: RecipientBlock)
    ensures var e := EncRecipient(r);
            && |e| >= 3 && e[0] == r.reserved && Le16(e, 1) == |r.propvals| % 0x1_0000
            && e[3..] == EncTaggeds(r.propvals)
  {
    hide U16, EncTaggeds;
    var e := EncRecipient(r);
    At16(|r.propvals| % 0x1_0000, EncTaggeds(r.propvals));
    assert e[1..] == U16(|r.propvals| % 0x1_0000) + EncTaggeds(r.propvals) && e[3..] == e[1..][2..];
    Behind(e, 1);
  }

  // ----- named properties -----

  lemma NameLayout(p: PropName)
    ensures var e := EncName(p);
            && |e| >= 17 && e[1..17] == EncGuid(p.guid)
            && (p.Lid? ==> |e| == 21 && e[0] == 0x00 && Le32(e, 17) == p.lid)
            && (p.Bare? ==> |e| == 17 && e[0] == p.kind)
            && (p.Named? ==>
                  && |e| == 19 + |p.name| && e[0] == 0x01 && e[17] == (|p.name| + 1) % 0x100
                  && e[18..18 + |p.name|] == p.name && e[18 + |p.name|] == 0)
  {
    hide U32, EncGuid, EncPayload;
    var e := EncName(p);
    GuidLayout(p.guid);
    assert e[1..17] == EncGuid(p.guid) && e[17..] == EncPayload(p);
    PayloadLayout(p);
    Behind(e, 17);
    if p.Named? { assert e[18..18 + |p.name|] == e[17..][1..1 + |p.name|]; }
  }

  lemma PayloadLayout(p: PropName)
    ensures var e := EncPayload(p);
            && (p.Lid? ==> |e| == 4 && Le32(e, 0) == p.lid)
            && (p.Bare? ==> e == [])
            && (p.Named? ==>
                  && |e| == 2 + |p.name| && e[0] == (|p.name| + 1) % 0x100
                  && e[1..1 + |p.name|] == p.name && e[1 + |p.name|] == 0)
  {
    hide U32;
    if p.Lid? {
      At32(p.lid, []);
      assert U32(p.lid) + [] == EncPayload(p);
    }
  }

  lemma NameArrayLayout(ps: seq<PropName>)
    ensures var e := EncNameArray(ps);
            |e| >= 2 && Le16(e, 0) == |ps| % 0x1_0000 && e[2..] == EncNames(ps)
  {
    hide U16, EncNames;
    At16(|ps| % 0x1_0000, EncNames(ps));
  }
}
