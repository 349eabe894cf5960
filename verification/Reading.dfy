/** What arbitrary bytes are read as: the type byte, type or opcode decides the kind,
    and every field comes from its own positions. */
module Reading {
  import opened Bytes
  import opened MapiTypes
  import opened Options
  import opened Wire
  import opened Parse
  import opened PropNames
  import opened Layout

  // ----- numbers, strings, binaries and GUIDs -----

  lemma Read16(s: bytes, i: nat)
    requires i <= |s|
    ensures PullUint16(s[i..]) == if |s| < i + 2 then Fail else Ok(Le16(s, i), s[i + 2..])
  {
  }

  lemma Read32(s: bytes, i: nat)
    requires i <= |s|
    ensures PullUint32(s[i..]) == if |s| < i + 4 then Fail else Ok(Le32(s, i), s[i + 4..])
  {
  }

  lemma Read64(s: bytes, i: nat)
    requires i <= |s|
    ensures PullUint64(s[i..]) == if |s| < i + 8 then Fail else Ok(Le64(s, i), s[i + 8..])
  {
    if |s| >= i + 8 {
      var t := s[i..];
      Read32(s, i);
      Read32(s, i + 4);
      assert t[4..] == s[i + 4..] && t[8..] == s[i + 8..];
    }
  }

  lemma Read8(s: bytes, i: nat)
    requires i <= |s|
    ensures PullUint8(s[i..]) == if |s| < i + 1 then Fail else Ok(s[i], s[i + 1..])
  {
  }

  lemma BinaryIsRead(s: bytes)
    ensures DecBinary(s) ==
            if |s| < 4 || |s| < 4 + Le32(s, 0) then Fail else Ok(s[4..4 + Le32(s, 0)], s[4 + Le32(s, 0)..])
  {
    hide PullUint32, Le32;
    Read32(s, 0);
    assert s[0..] == s;
    if |s| >= 4 && |s| >= 4 + Le32(s, 0) {
      var n: nat := Le32(s, 0);
      assert s[4..][..n] == s[4..4 + n] && s[4..][n..] == s[4 + n..];
    }
  }

  /** Up to the first NUL, which is read too; without one the pull fails. */
  lemma StringIsRead(s: bytes)
    ensures DecString(s).Ok? <==> 0 in s
    ensures DecString(s).Ok? ==> 0 !in DecString(s).value && DecString(s).value + [0] + DecString(s).rest == s
  {
    var n := StrLen(s);
    if n < |s| {
      assert s[n] == 0;
      assert s[..n] + [0] + s[n + 1..] == s;
    } else {
      assert s[..n] == s;
    }
  }

  lemma GuidIsRead(s: bytes)
    ensures DecGuid(s).Ok? <==> |s| >= 16
    ensures |s| >= 16 ==>
              var g, t: seq<int> := DecGuid(s).value, s;
              && g.timeLow == t[0] + 0x100 * t[1] + 0x1_0000 * t[2] + 0x100_0000 * t[3]
              && g.timeMid == t[4] + 0x100 * t[5] && g.timeHi == t[6] + 0x100 * t[7]
              && g.clockSeq == t[8..10] && g.node == t[10..16] && DecGuid(s).rest == s[16..]
  {
    hide PullUint32, PullUint16;
    Read32(s, 0);
    assert s[0..] == s;
    if |s| >= 4 {
      Read16(s, 4);
      if |s| >= 6 {
        Read16(s, 6);
        if |s| >= 16 { assert s[8..][2..][6..] == s[16..]; }
      }
    }
  }

  // ----- restrictions -----

  lemma Dispatched(s: bytes)
    requires s != []
    ensures s[0] <= 0x01 ==> DecRestriction(s) == DecAndOr(s[0], s[1..])
    ensures 0x03 <= s[0] <= 0x04 ==> DecRestriction(s) == DecTest(s[0], s[1..])
    ensures 0x05 <= s[0] <= 0x07 ==> DecRestriction(s) == DecFlat(s[0], s[1..])
    ensures s[0] == 0x09 || s[0] == 0x0b ==> DecRestriction(s) == DecNumbered(s[0], s[1..])
    ensures s[0] == 0x0a ==> DecRestriction(s) == DecComment(s[1..])
    ensures s[0] == 0x08 ==>
              var tag := PullUint32(s[1..]);
              DecRestriction(s) == if tag.Fail? then Fail else Ok(Exist(tag.value), tag.rest)
    ensures s[0] == 0x02 ==>
              var r := DecRestriction(s[1..]);
              DecRestriction(s) == if r.Fail? then Fail else Ok(Not(r.value), r.rest)
    ensures s[0] == 0xff ==> DecRestriction(s) == Ok(NullRes, s[1..])
    ensures 0x0c <= s[0] < 0xff ==> DecRestriction(s).Fail?
  {
    hide DecAndOr, DecTest, DecFlat, DecNumbered, DecComment, PullUint32, EncRestriction, OkRestriction;
  }

  lemma AndOrIsRead(s: bytes)
    requires s != [] && (s[0] == 0x00 || s[0] == 0x01)
    ensures |s| < 5 ==> DecRestriction(s).Fail?
    ensures |s| >= 5 ==>
              var rs := DecRestrictions(Le32(s, 1), s[5..]);
              DecRestriction(s) == if rs.Fail? then Fail
                                   else Ok(if s[0] == 0x00 then And(rs.value) else Or(rs.value), rs.rest)
  {
    hide DecRestriction, PullUint32, DecRestrictions, Le32, EncRestriction, OkRestriction, EncRestrictions,
         OkRestrictions;
    Dispatched(s);
    Read32(s, 1);
  }

  lemma NotIsRead(s: bytes)
    requires s != [] && s[0] == 0x02
    ensures var r := DecRestriction(s[1..]);
            DecRestriction(s) == if r.Fail? then Fail else Ok(Not(r.value), r.rest)
  {
    hide *;
    Dispatched(s);
  }

  lemma ContentIsRead(s: bytes)
    requires s != [] && s[0] == 0x03
    ensures |s| < 9 ==> DecRestriction(s).Fail?
    ensures |s| >= 9 ==>
              var pv := DecTagged(s[9..]);
              DecRestriction(s) == if pv.Fail? then Fail else Ok(Content(Le32(s, 1), Le32(s, 5), pv.value), pv.rest)
  {
    hide DecRestriction, PullUint32, DecTagged, Le32, EncRestriction, OkRestriction, EncTagged, OkTagged;
    Dispatched(s);
    Read32(s, 1);
    if |s| >= 5 { Read32(s, 5); }
  }

  lemma PropertyIsRead(s: bytes)
    requires s != [] && s[0] == 0x04
    ensures |s| < 6 ==> DecRestriction(s).Fail?
    ensures |s| >= 6 ==>
              var pv := DecTagged(s[6..]);
              DecRestriction(s) == if pv.Fail? then Fail else Ok(Property(s[1], Le32(s, 2), pv.value), pv.rest)
  {
    hide DecRestriction, PullUint32, DecTagged, PullUint8, Le32, EncRestriction, OkRestriction, EncTagged, OkTagged;
    Dispatched(s);
    Read8(s, 1);
    if |s| >= 2 { Read32(s, 2); }
  }

  lemma FlatIsRead(s: bytes)
    requires s != [] && 0x05 <= s[0] <= 0x07
    ensures |s| < 10 ==> DecRestriction(s).Fail?
    ensures |s| >= 10 ==>
              DecRestriction(s) == Ok(if s[0] == 0x05 then PropCompare(s[1], Le32(s, 2), Le32(s, 6))
                                      else if s[0] == 0x06 then BitMask(s[1], Le32(s, 2), Le32(s, 6))
                                      else Size(s[1], Le32(s, 2), Le32(s, 6)), s[10..])
  {
    hide DecRestriction, PullUint32, PullUint8, Le32, EncRestriction, OkRestriction;
    Dispatched(s);
    Read8(s, 1);
    if |s| >= 2 { Read32(s, 2); }
    if |s| >= 6 { Read32(s, 6); }
  }

  lemma ExistIsRead(s: bytes)
    requires s != [] && s[0] == 0x08
    ensures DecRestriction(s) == if |s| < 5 then Fail else Ok(Exist(Le32(s, 1)), s[5..])
  {
    hide DecRestriction, PullUint32, Le32, EncRestriction, OkRestriction;
    Dispatched(s);
    Read32(s, 1);
  }

  lemma NumberedIsRead(s: bytes)
    requires s != [] && (s[0] == 0x09 || s[0] == 0x0b)
    ensures |s| < 5 ==> DecRestriction(s).Fail?
    ensures |s| >= 5 ==>
              var r := DecRestriction(s[5..]);
              DecRestriction(s) == if r.Fail? then Fail
                                   else Ok(if s[0] == 0x09 then SubObj(Le32(s, 1), r.value)
                                           else Count(Le32(s, 1), r.value), r.rest)
  {
    hide DecRestriction, PullUint32, Le32, EncRestriction, OkRestriction;
    Dispatched(s);
    Read32(s, 1);
  }

  /** No values, or no byte behind them, is an error; any byte but 0 announces a restriction. */
  lemma CommentIsRead(s: bytes)
    requires s != [] && s[0] == 0x0a
    ensures |s| < 2 || s[1] == 0 ==> DecRestriction(s).Fail?
    ensures |s| >= 2 && s[1] != 0 ==>
              var pvs := DecTaggeds(s[1], s[2..]);
              if pvs.Fail? || pvs.rest == [] then DecRestriction(s).Fail?
              else if pvs.rest[0] == 0 then DecRestriction(s) == Ok(Comment(pvs.value, None), pvs.rest[1..])
              else
                var r := DecRestriction(pvs.rest[1..]);
                DecRestriction(s) == if r.Fail? then Fail else Ok(Comment(pvs.value, Some(r.value)), r.rest)
  {
    hide DecRestriction, DecTaggeds, EncRestriction, OkRestriction, EncTaggeds, OkTaggeds;
    Dispatched(s);
    if |s| >= 2 { assert s[1..][0] == s[1] && s[1..][1..] == s[2..]; }
  }

  lemma NullResIsRead(s: bytes)
    requires s != [] && s[0] == 0xff
    ensures DecRestriction(s) == Ok(NullRes, s[1..])
  {
    hide *;
    Dispatched(s);
  }

  /** The type byte alone decides the kind; other bytes than these thirteen are refused. */
  lemma KindIsTheFirstByte(s: bytes)
    ensures s == [] ==> DecRestriction(s).Fail?
    ensures DecRestriction(s).Ok? ==>
              var r, b := DecRestriction(s).value, s[0];
              && (b == 0x00 <==> r.And?) && (b == 0x01 <==> r.Or?) && (b == 0x02 <==> r.Not?)
              && (b == 0x03 <==> r.Content?) && (b == 0x04 <==> r.Property?) && (b == 0x05 <==> r.PropCompare?)
              && (b == 0x06 <==> r.BitMask?) && (b == 0x07 <==> r.Size?) && (b == 0x08 <==> r.Exist?)
              && (b == 0x09 <==> r.SubObj?) && (b == 0x0a <==> r.Comment?) && (b == 0x0b <==> r.Count?)
              && (b == 0xff <==> r.NullRes?)
    ensures s != [] && 0x0c <= s[0] < 0xff ==> DecRestriction(s).Fail?
  {
    hide *;
    if s == [] {
      NothingIsRead();
    } else {
      Dispatched(s);
      if s[0] <= 0x01 {
        AndOrIsRead(s);
      } else if s[0] == 0x03 {
        ContentIsRead(s);
      } else if s[0] == 0x04 {
        PropertyIsRead(s);
      } else if 0x05 <= s[0] <= 0x07 {
        FlatIsRead(s);
      } else if s[0] == 0x08 {
        ExistIsRead(s);
      } else if s[0] == 0x09 || s[0] == 0x0b {
        NumberedIsRead(s);
      } else if s[0] == 0x0a {
        CommentIsRead(s);
      }
    }
  }

  lemma NothingIsRead()
    ensures DecRestriction([]).Fail?
  {
  }

  // ----- tagged values: the type is the low half of the tag -----

  lemma TagIsRead(s: bytes)
    ensures |s| < 4 ==> DecTagged(s).Fail?
    ensures |s| >= 4 ==>
              var v := DecValue(KindOf(SingleType(Le16(s, 0))), s[4..]);
              DecTagged(s) == if v.Fail? then Fail else Ok(TaggedPropval(Le32(s, 0), v.value), v.rest)
  {
    hide DecValue, KindOf, SingleType, PullUint32, EncTagged, OkTagged, EncValue, OkValue;
    Read32(s, 0);
    assert s[0..] == s;
  }

  lemma KindsOfTypes(t: uint16)
    ensures t == 0x0002 || t == 0x3002 ==> KindOf(SingleType(t)) == KShort
    ensures t == 0x0003 || t == 0x3003 || t == 0x000a || t == 0x300a ==> KindOf(SingleType(t)) == KLong
    ensures t == 0x0004 || t == 0x3004 ==> KindOf(SingleType(t)) == KFloat
    ensures t == 0x0005 || t == 0x3005 || t == 0x0007 || t == 0x3007 ==> KindOf(SingleType(t)) == KDouble
    ensures t == 0x000b || t == 0x300b ==> KindOf(SingleType(t)) == KByte
    ensures t == 0x0014 || t == 0x3014 || t == 0x0040 || t == 0x3040 ==> KindOf(SingleType(t)) == KLongLong
    ensures t == 0x001e || t == 0x301e || t == 0x001f || t == 0x301f ==> KindOf(SingleType(t)) == KString
    ensures t == 0x0048 || t == 0x3048 ==> KindOf(SingleType(t)) == KGuid
    ensures t == 0x00fd || t == 0x30fd ==> KindOf(SingleType(t)) == KRes
    ensures t == 0x00fe || t == 0x30fe ==> KindOf(SingleType(t)) == KRule
    ensures t == 0x0102 || t == 0x3102 ==> KindOf(SingleType(t)) == KBinary
    ensures t == 0x1002 ==> KindOf(SingleType(t)) == KShortArray
    ensures t == 0x1003 ==> KindOf(SingleType(t)) == KLongArray
    ensures t == 0x1014 ==> KindOf(SingleType(t)) == KLongLongArray
    ensures t == 0x101e || t == 0x101f ==> KindOf(SingleType(t)) == KStringArray
    ensures t == 0x1048 ==> KindOf(SingleType(t)) == KGuidArray
    ensures t == 0x1102 ==> KindOf(SingleType(t)) == KBinaryArray
  {
  }

  lemma NumbersOfKinds(s: bytes, i: nat)
    requires i <= |s|
    ensures DecValue(KShort, s[i..]) == if |s| < i + 2 then Fail else Ok(Short(Le16(s, i)), s[i + 2..])
    ensures DecValue(KLong, s[i..]) == if |s| < i + 4 then Fail else Ok(Long(Le32(s, i)), s[i + 4..])
    ensures DecValue(KFloat, s[i..]) == if |s| < i + 4 then Fail else Ok(Float(s[i..i + 4]), s[i + 4..])
    ensures DecValue(KDouble, s[i..]) == if |s| < i + 8 then Fail else Ok(Double(s[i..i + 8]), s[i + 8..])
    ensures DecValue(KByte, s[i..]) == if |s| < i + 1 then Fail else Ok(Byte(s[i]), s[i + 1..])
    ensures DecValue(KLongLong, s[i..]) == if |s| < i + 8 then Fail else Ok(LongLong(Le64(s, i)), s[i + 8..])
  {
    hide PullUint8, PullUint16, PullUint32, PullUint64, Le16, Le32, Le64, DecString, DecGuid, DecRestriction,
         DecRuleActions, DecBinary, DecArrayValue, EncValue, OkValue, EncString, OkString, EncGuid, EncRestriction,
         OkRestriction, EncBinary, OkBinary;
    Read8(s, i);
    Read16(s, i);
    Read32(s, i);
    Read64(s, i);
    assert |s| >= i + 4 ==> s[i..][..4] == s[i..i + 4];
    assert |s| >= i + 8 ==> s[i..][..8] == s[i..i + 8];
  }

  lemma ValuesOfKinds(s: bytes)
    ensures var v := DecString(s); DecValue(KString, s) == if v.Fail? then Fail else Ok(String(v.value), v.rest)
    ensures var v := DecGuid(s); DecValue(KGuid, s) == if v.Fail? then Fail else Ok(GuidValue(v.value), v.rest)
    ensures var v := DecRestriction(s); DecValue(KRes, s) == if v.Fail? then Fail else Ok(Res(v.value), v.rest)
    ensures var v := DecRuleActions(s); DecValue(KRule, s) == if v.Fail? then Fail else Ok(Rule(v.value), v.rest)
    ensures var v := DecBinary(s); DecValue(KBinary, s) == if v.Fail? then Fail else Ok(Binary(v.value), v.rest)
  {
    hide DecString, DecGuid, DecRestriction, DecRuleActions, DecBinary, DecArrayValue, EncValue, OkValue, EncString,
         OkString, EncGuid, EncRestriction, OkRestriction, EncBinary, OkBinary;
  }

  lemma NumberArraysOfKinds(s: bytes)
    ensures var v := DecCounted(PullUint16, s);
            DecArrayValue(KShortArray, s) == if v.Fail? then Fail else Ok(ShortArray(v.value), v.rest)
    ensures var v := DecCounted(PullUint32, s);
            DecArrayValue(KLongArray, s) == if v.Fail? then Fail else Ok(LongArray(v.value), v.rest)
    ensures var v := DecCounted(PullUint64, s);
            DecArrayValue(KLongLongArray, s) == if v.Fail? then Fail else Ok(LongLongArray(v.value), v.rest)
  {
    hide DecString, DecGuid, DecBinary, DecCounted, DecBlobArray, PullUint16, PullUint32, PullUint64, EncValue,
         OkValue, EncString, OkString, EncGuid, EncBinary, OkBinary;
  }

  lemma BlobArraysOfKinds(s: bytes)
    ensures var v := DecCounted(DecString, s);
            DecArrayValue(KStringArray, s) == if v.Fail? then Fail else Ok(StringArray(v.value), v.rest)
    ensures var v := DecCounted(DecGuid, s);
            DecArrayValue(KGuidArray, s) == if v.Fail? then Fail else Ok(GuidArray(v.value), v.rest)
    ensures var v := DecCounted(DecBinary, s);
            DecArrayValue(KBinaryArray, s) == if v.Fail? then Fail else Ok(BinaryArray(v.value), v.rest)
  {
    hide DecString, DecGuid, DecBinary, DecCounted, EncValue, OkValue, EncString, OkString, EncGuid, EncBinary,
         OkBinary;
  }

  lemma ArrayKinds(kind: ValueKind, s: bytes)
    requires kind in [KShortArray, KLongArray, KLongLongArray, KStringArray, KGuidArray, KBinaryArray]
    ensures DecValue(kind, s) == DecArrayValue(kind, s)
  {
    hide DecArrayValue, EncValue, OkValue;
  }

  /** Which types are numbers, and how many bytes each takes. */
  lemma NumbersAreRead(s: bytes)
    requires |s| >= 4
    ensures Le16(s, 0) == 0x0002 || Le16(s, 0) == 0x3002 ==>
              DecTagged(s) == if |s| < 6 then Fail else Ok(TaggedPropval(Le32(s, 0), Short(Le16(s, 4))), s[6..])
    ensures Le16(s, 0) == 0x0003 || Le16(s, 0) == 0x3003 || Le16(s, 0) == 0x000a || Le16(s, 0) == 0x300a ==>
              DecTagged(s) == if |s| < 8 then Fail else Ok(TaggedPropval(Le32(s, 0), Long(Le32(s, 4))), s[8..])
    ensures Le16(s, 0) == 0x0004 || Le16(s, 0) == 0x3004 ==>
              DecTagged(s) == if |s| < 8 then Fail else Ok(TaggedPropval(Le32(s, 0), Float(s[4..8])), s[8..])
    ensures Le16(s, 0) == 0x0005 || Le16(s, 0) == 0x3005 || Le16(s, 0) == 0x0007 || Le16(s, 0) == 0x3007 ==>
              DecTagged(s) == if |s| < 12 then Fail else Ok(TaggedPropval(Le32(s, 0), Double(s[4..12])), s[12..])
    ensures Le16(s, 0) == 0x000b || Le16(s, 0) == 0x300b ==>
              DecTagged(s) == if |s| < 5 then Fail else Ok(TaggedPropval(Le32(s, 0), Byte(s[4])), s[5..])
    ensures Le16(s, 0) == 0x0014 || Le16(s, 0) == 0x3014 || Le16(s, 0) == 0x0040 || Le16(s, 0) == 0x3040 ==>
              DecTagged(s) == if |s| < 12 then Fail else Ok(TaggedPropval(Le32(s, 0), LongLong(Le64(s, 4))), s[12..])
  {
    hide *;
    TagIsRead(s);
    KindsOfTypes(Le16(s, 0));
    NumbersOfKinds(s, 4);
  }

  /** Which types are strings, GUIDs, restrictions, rule actions and binaries. */
  lemma ValuesAreRead(s: bytes)
    requires |s| >= 4
    ensures Le16(s, 0) == 0x001e || Le16(s, 0) == 0x301e || Le16(s, 0) == 0x001f || Le16(s, 0) == 0x301f ==>
              var v := DecString(s[4..]);
              DecTagged(s) == if v.Fail? then Fail else Ok(TaggedPropval(Le32(s, 0), String(v.value)), v.rest)
    ensures Le16(s, 0) == 0x0048 || Le16(s, 0) == 0x3048 ==>
              var v := DecGuid(s[4..]);
              DecTagged(s) == if v.Fail? then Fail else Ok(TaggedPropval(Le32(s, 0), GuidValue(v.value)), v.rest)
    ensures Le16(s, 0) == 0x00fd || Le16(s, 0) == 0x30fd ==>
              var v := DecRestriction(s[4..]);
              DecTagged(s) == if v.Fail? then Fail else Ok(TaggedPropval(Le32(s, 0), Res(v.value)), v.rest)
    ensures Le16(s, 0) == 0x00fe || Le16(s, 0) == 0x30fe ==>
              var v := DecRuleActions(s[4..]);
              DecTagged(s) == if v.Fail? then Fail else Ok(TaggedPropval(Le32(s, 0), Rule(v.value)), v.rest)
    ensures Le16(s, 0) == 0x0102 || Le16(s, 0) == 0x3102 ==>
              var v := DecBinary(s[4..]);
              DecTagged(s) == if v.Fail? then Fail else Ok(TaggedPropval(Le32(s, 0), Binary(v.value)), v.rest)
  {
    hide *;
    TagIsRead(s);
    KindsOfTypes(Le16(s, 0));
    ValuesOfKinds(s[4..]);
  }

  /** Which types are arrays, and of what. */
  lemma ArraysAreRead(s: bytes)
    requires |s| >= 4
    ensures Le16(s, 0) == 0x1002 ==>
              var v := DecCounted(PullUint16, s[4..]);
              DecTagged(s) == if v.Fail? then Fail else Ok(TaggedPropval(Le32(s, 0), ShortArray(v.value)), v.rest)
    ensures Le16(s, 0) == 0x1003 ==>
              var v := DecCounted(PullUint32, s[4..]);
              DecTagged(s) == if v.Fail? then Fail else Ok(TaggedPropval(Le32(s, 0), LongArray(v.value)), v.rest)
    ensures Le16(s, 0) == 0x1014 ==>
              var v := DecCounted(PullUint64, s[4..]);
              DecTagged(s) == if v.Fail? then Fail else Ok(TaggedPropval(Le32(s, 0), LongLongArray(v.value)), v.rest)
    ensures Le16(s, 0) == 0x101e || Le16(s, 0) == 0x101f ==>
              var v := DecCounted(DecString, s[4..]);
              DecTagged(s) == if v.Fail? then Fail else Ok(TaggedPropval(Le32(s, 0), StringArray(v.value)), v.rest)
    ensures Le16(s, 0) == 0x1048 ==>
              var v := DecCounted(DecGuid, s[4..]);
              DecTagged(s) == if v.Fail? then Fail else Ok(TaggedPropval(Le32(s, 0), GuidArray(v.value)), v.rest)
    ensures Le16(s, 0) == 0x1102 ==>
              var v := DecCounted(DecBinary, s[4..]);
              DecTagged(s) == if v.Fail? then Fail else Ok(TaggedPropval(Le32(s, 0), BinaryArray(v.value)), v.rest)
  {
    hide *;
    TagIsRead(s);
    KindsOfTypes(Le16(s, 0));
    forall kind | kind in [KShortArray, KLongArray, KLongLongArray, KStringArray, KGuidArray, KBinaryArray]
      ensures DecValue(kind, s[4..]) == DecArrayValue(kind, s[4..])
    {
      ArrayKinds(kind, s[4..]);
    }
    NumberArraysOfKinds(s[4..]);
    BlobArraysOfKinds(s[4..]);
  }

  /** There are no other types, and no multi-value instances of an array type. */
  lemma OtherTypesFail(s: bytes)
    requires |s| >= 4
    requires var t := Le16(s, 0) - (if 0x3000 <= Le16(s, 0) < 0x4000 then 0x3000 else 0);
             t !in [0x0002, 0x0003, 0x0004, 0x0005, 0x0007, 0x000a, 0x000b, 0x0014, 0x001e, 0x001f, 0x0040, 0x0048,
                    0x00fd, 0x00fe, 0x0102]
    requires Le16(s, 0) !in [0x1002, 0x1003, 0x1014, 0x101e, 0x101f, 0x1048, 0x1102]
    ensures DecTagged(s).Fail?
  {
    hide *;
    TagIsRead(s);
    NoSuchType(Le16(s, 0));
    NoValue(s[4..]);
  }

  lemma NoSuchType(t: uint16)
    requires var u := t - (if 0x3000 <= t < 0x4000 then 0x3000 else 0);
             u !in [0x0002, 0x0003, 0x0004, 0x0005, 0x0007, 0x000a, 0x000b, 0x0014, 0x001e, 0x001f, 0x0040, 0x0048,
                    0x00fd, 0x00fe, 0x0102]
    requires t !in [0x1002, 0x1003, 0x1014, 0x101e, 0x101f, 0x1048, 0x1102]
    ensures KindOf(SingleType(t)) == KNone
  {
  }

  lemma NoValue(s: bytes)
    ensures DecValue(KNone, s).Fail?
  {
  }

  /** The same table for what a push takes: the type has to be one for the value. */
  lemma TypesForValues(pv: TaggedPropval)
    ensures var t, v := pv.proptag % 0x1_0000, pv.value;
            OkTagged(pv) <==>
              && OkValue(v)
              && (v.Short? ==> t == 0x0002 || t == 0x3002)
              && (v.Long? ==> t == 0x0003 || t == 0x3003 || t == 0x000a || t == 0x300a)
              && (v.Float? ==> t == 0x0004 || t == 0x3004)
              && (v.Double? ==> t == 0x0005 || t == 0x3005 || t == 0x0007 || t == 0x3007)
              && (v.Byte? ==> t == 0x000b || t == 0x300b)
              && (v.LongLong? ==> t == 0x0014 || t == 0x3014 || t == 0x0040 || t == 0x3040)
              && (v.String? ==> t == 0x001e || t == 0x301e || t == 0x001f || t == 0x301f)
              && (v.GuidValue? ==> t == 0x0048 || t == 0x3048)
              && (v.Res? ==> t == 0x00fd || t == 0x30fd)
              && (v.Rule? ==> t == 0x00fe || t == 0x30fe)
              && (v.Binary? ==> t == 0x0102 || t == 0x3102)
              && (v.ShortArray? ==> t == 0x1002)
              && (v.LongArray? ==> t == 0x1003)
              && (v.LongLongArray? ==> t == 0x1014)
              && (v.StringArray? ==> t == 0x101e || t == 0x101f)
              && (v.GuidArray? ==> t == 0x1048)
              && (v.BinaryArray? ==> t == 0x1102)
  {
    hide OkValue;
  }

  // ----- rule actions: the opcode is the third byte of a block -----

  lemma RuleIsRead(s: bytes)
    ensures |s| < 2 || Le16(s, 0) == 0 ==> DecRuleActions(s).Fail?
    ensures |s| >= 2 && Le16(s, 0) != 0 ==> DecRuleActions(s) == DecActions(Le16(s, 0), s[2..])
  {
    hide PullUint16, DecActions, EncValue, OkValue, Le16, EncActions, OkActions;
    Read16(s, 0);
    assert s[0..] == s;
  }

  /** A block of 11 header bytes and data d. */
  function Block(s: bytes, d: ActionData): ActionBlock
    requires |s| >= 11
  {
    ActionBlock(Le16(s, 0), s[2], Le32(s, 3), Le32(s, 7), d)
  }

  lemma BlockIsRead(s: bytes)
    ensures |s| < 11 ==> DecAction(s).Fail?
    ensures |s| >= 11 ==>
              var d := DecData(KindOfAction(s[2]), Le16(s, 0), s[11..]);
              DecAction(s) == if d.Fail? then Fail else Ok(Block(s, d.value), d.rest)
  {
    hide *;
    if |s| >= 11 { LongBlock(s); } else { ShortBlock(s); }
  }

  lemma LongBlock(s: bytes)
    requires |s| >= 11
    ensures var d := DecData(KindOfAction(s[2]), Le16(s, 0), s[11..]);
            DecAction(s) == if d.Fail? then Fail else Ok(Block(s, d.value), d.rest)
  {
    hide PullUint8, PullUint16, PullUint32, DecData, KindOfAction, KindOfData, DeferSize, EncAction, OkAction, Le16,
         Le32, EncData, OkData;
    assert PullUint16(s) == Ok(Le16(s, 0), s[2..]) by {
      Read16(s, 0);
      assert s[0..] == s;
    }
    Read8(s, 2);
    Read32(s, 3);
    Read32(s, 7);
    var d := DecData(KindOfAction(s[2]), Le16(s, 0), s[11..]);
    if d.Fail? {
      assert DecAction(s).Fail?;
    } else {
      assert DecAction(s) == Ok(ActionBlock(Le16(s, 0), s[2], Le32(s, 3), Le32(s, 7), d.value), d.rest);
    }
  }

  lemma ShortBlock(s: bytes)
    requires |s| < 11
    ensures DecAction(s).Fail?
  {
    hide PullUint8, PullUint16, PullUint32, DecData, KindOfAction, EncAction, OkAction, Le16, Le32, EncData, OkData;
    Read16(s, 0);
    assert s[0..] == s;
    if |s| >= 2 { Read8(s, 2); }
    if |s| >= 3 { Read32(s, 3); }
    if |s| >= 7 { Read32(s, 7); }
  }

  lemma KindsOfOpcodes(op: uint8)
    ensures op == 1 || op == 2 ==> KindOfAction(op) == AMoveCopy
    ensures op == 3 || op == 4 ==> KindOfAction(op) == AReply
    ensures op == 5 ==> KindOfAction(op) == ADefer
    ensures op == 6 ==> KindOfAction(op) == ABounce
    ensures op == 7 || op == 8 ==> KindOfAction(op) == AForward
    ensures op == 9 ==> KindOfAction(op) == ATag
    ensures op == 10 || op == 11 ==> KindOfAction(op) == ANoData
    ensures op == 0 || op > 11 ==> KindOfAction(op) == ANone
  {
  }

  lemma DataOfKinds(length: uint16, s: bytes, i: nat)
    requires i <= |s|
    ensures DecData(ANone, length, s[i..]).Fail?
    ensures DecData(ANoData, length, s[i..]) == Ok(NoData, s[i..])
    ensures DecData(AForward, length, s[i..]) == DecForward(s[i..])
    ensures var pv := DecTagged(s[i..]);
            DecData(ATag, length, s[i..]) == if pv.Fail? then Fail else Ok(Tag(pv.value), pv.rest)
    ensures DecData(ABounce, length, s[i..]) == if |s| < i + 4 then Fail else Ok(Bounce(Le32(s, i)), s[i + 4..])
  {
    hide DecBinary, DecGuid, DecForward, DecTagged, EncData, OkData, PullUint32, PullBytes, DeferSize, Le32, EncBinary,
         OkBinary, EncGuid, EncTagged, OkTagged;
    Read32(s, i);
  }

  lemma BinariesOfKinds(length: uint16, s: bytes)
    ensures var store := DecBinary(s);
            if store.Fail? then DecData(AMoveCopy, length, s).Fail?
            else
              var folder := DecBinary(store.rest);
              DecData(AMoveCopy, length, s)
              == if folder.Fail? then Fail else Ok(MoveCopy(store.value, folder.value), folder.rest)
    ensures var eid := DecBinary(s);
            if eid.Fail? then DecData(AReply, length, s).Fail?
            else
              var guid := DecGuid(eid.rest);
              DecData(AReply, length, s) == if guid.Fail? then Fail else Ok(Reply(eid.value, guid.value), guid.rest)
  {
    hide DecBinary, DecGuid, DecForward, DecTagged, EncData, OkData, PullUint32, PullBytes, DeferSize, EncBinary,
         OkBinary, EncGuid, EncTagged, OkTagged;
  }

  lemma DeferOfKinds(length: uint16, s: bytes, i: nat, n: nat)
    requires i <= |s| && n == i + if length >= 9 then length - 9 else length + 65527
    ensures DecData(ADefer, length, s[i..]) == if |s| < n then Fail else Ok(Defer(s[i..n]), s[n..])
  {
    hide DecBinary, DecGuid, DecForward, DecTagged, EncData, OkData, PullUint32, EncBinary, OkBinary, EncGuid,
         EncTagged, OkTagged;
    assert DeferSize(length) == n - i;
    if |s| >= n { assert s[i..][..n - i] == s[i..n] && s[i..][n - i..] == s[n..]; }
  }

  lemma RecipientsOfKinds(s: bytes, i: nat)
    requires i <= |s|
    ensures |s| < i + 2 || Le16(s, i) == 0 ==> DecForward(s[i..]).Fail?
    ensures |s| >= i + 2 && Le16(s, i) != 0 ==>
              var rs := DecRecipients(Le16(s, i), s[i + 2..]);
              DecForward(s[i..]) == if rs.Fail? then Fail else Ok(ForwardDelegate(rs.value), rs.rest)
  {
    hide DecRecipients, EncData, OkData, PullUint16, Le16, EncRecipients, OkRecipients;
    Read16(s, i);
  }

  /** Move and copy take two binaries, a reply or an out-of-office reply a binary and a GUID. */
  lemma BinaryActionsAreRead(s: bytes)
    requires |s| >= 11
    ensures s[2] == 1 || s[2] == 2 ==>
              var store := DecBinary(s[11..]);
              if store.Fail? then DecAction(s).Fail?
              else
                var folder := DecBinary(store.rest);
                DecAction(s) == if folder.Fail? then Fail
                                else Ok(Block(s, MoveCopy(store.value, folder.value)), folder.rest)
    ensures s[2] == 3 || s[2] == 4 ==>
              var eid := DecBinary(s[11..]);
              if eid.Fail? then DecAction(s).Fail?
              else
                var guid := DecGuid(eid.rest);
                DecAction(s) == if guid.Fail? then Fail else Ok(Block(s, Reply(eid.value, guid.value)), guid.rest)
  {
    hide *;
    BlockIsRead(s);
    KindsOfOpcodes(s[2]);
    BinariesOfKinds(Le16(s, 0), s[11..]);
  }

  /** A deferred action takes nine bytes less than its length field says, in 16 bits. */
  lemma DeferIsRead(s: bytes)
    requires |s| >= 11 && s[2] == 5
    ensures var length: int := Le16(s, 0);
            var n := 11 + if length >= 9 then length - 9 else length + 65527;
            DecAction(s) == if |s| < n then Fail else Ok(Block(s, Defer(s[11..n])), s[n..])
  {
    hide *;
    var length: int := Le16(s, 0);
    var n := 11 + if length >= 9 then length - 9 else length + 65527;
    DeferOfKinds(length, s, 11, n);
    KindsOfOpcodes(s[2]);
    BlockIsRead(s);
  }

  /** A bounce has a code, forward and delegate a number of recipients which must not be 0, a
      tag action a tagged value; delete and mark as read have nothing; there are no others. */
  lemma OtherActionsAreRead(s: bytes)
    ensures |s| < 11 || s[2] == 0 || s[2] > 11 ==> DecAction(s).Fail?
    ensures |s| >= 11 && s[2] == 6 ==>
              DecAction(s) == if |s| < 15 then Fail else Ok(Block(s, Bounce(Le32(s, 11))), s[15..])
    ensures |s| >= 11 && (s[2] == 7 || s[2] == 8) && (|s| < 13 || Le16(s, 11) == 0) ==> DecAction(s).Fail?
    ensures |s| >= 13 && (s[2] == 7 || s[2] == 8) && Le16(s, 11) != 0 ==>
              var rs := DecRecipients(Le16(s, 11), s[13..]);
              DecAction(s) == if rs.Fail? then Fail else Ok(Block(s, ForwardDelegate(rs.value)), rs.rest)
    ensures |s| >= 11 && s[2] == 9 ==>
              var pv := DecTagged(s[11..]);
              DecAction(s) == if pv.Fail? then Fail else Ok(Block(s, Tag(pv.value)), pv.rest)
    ensures |s| >= 11 && (s[2] == 10 || s[2] == 11) ==> DecAction(s) == Ok(Block(s, NoData), s[11..])
  {
    hide *;
    BlockIsRead(s);
    if |s| >= 11 {
      KindsOfOpcodes(s[2]);
      DataOfKinds(Le16(s, 0), s, 11);
      RecipientsOfKinds(s, 11);
    }
  }

  /** The same table for what a push takes. */
  lemma OpcodesForData(a: ActionBlock)
    ensures OkAction(a) <==>
              && OkData(a.data)
              && (a.data.MoveCopy? ==> a.opcode == 1 || a.opcode == 2)
              && (a.data.Reply? ==> a.opcode == 3 || a.opcode == 4)
              && (a.data.Defer? ==>
                    && a.opcode == 5
                    && |a.data.payload| == if a.length >= 9 then a.length - 9 else a.length + 65527)
              && (a.data.Bounce? ==> a.opcode == 6)
              && (a.data.ForwardDelegate? ==> a.opcode == 7 || a.opcode == 8)
              && (a.data.Tag? ==> a.opcode == 9)
              && (a.data.NoData? ==> a.opcode == 10 || a.opcode == 11)
  {
    hide OkData;
  }

  /** A reserved byte, a 16-bit number of values, which must not be 0, and the values. */
  lemma RecipientIsRead(s: bytes)
    ensures |s| < 3 || Le16(s, 1) == 0 ==> DecRecipient(s).Fail?
    ensures |s| >= 3 && Le16(s, 1) != 0 ==>
              var pvs := DecTaggeds(Le16(s, 1), s[3..]);
              DecRecipient(s) == if pvs.Fail? then Fail else Ok(RecipientBlock(s[0], pvs.value), pvs.rest)
  {
    hide PullUint8, PullUint16, DecTaggeds, EncRecipient, OkRecipient, Le16, EncTaggeds, OkTaggeds;
    Read8(s, 0);
    assert s[0..] == s;
    if s != [] { Read16(s, 1); }
  }

  // ----- named properties -----

  /** Kind 0 is followed by a 32-bit id; kind 1 by a size of at least 2 and a name that with
      its NUL fits that size; any other kind by nothing. */
  lemma NameIsRead(s: bytes)
    ensures |s| < 17 ==> DecName(s) == BadName
    ensures |s| >= 17 ==>
              var guid := DecGuid(s[1..]).value;
              && (s[0] == 0 ==> DecName(s) == if |s| < 21 then BadName else GoodName(Lid(guid, Le32(s, 17)), 21))
              && (s[0] > 1 ==> DecName(s) == GoodName(Bare(s[0], guid), 17))
              && (s[0] == 1 ==>
                    if |s| < 18 || s[17] < 2 || 0 !in s[18..] then DecName(s) == BadName
                    else
                      var name := DecString(s[18..]).value;
                      DecName(s) == if |name| + 1 > s[17] then BadName
                          else GoodName(Named(guid, name), 18 + s[17] as int))
  {
    hide PullUint8, PullUint32, DecGuid, DecString, Le32, EncGuid, EncString, OkString;
    Read8(s, 0);
    assert s[0..] == s;
    if s != [] {
      GuidIsRead(s[1..]);
      if |s| >= 17 {
        assert s[1..][16..] == s[17..];
        Read32(s, 17);
        Read8(s, 17);
        if |s| >= 18 { StringIsRead(s[18..]); }
      }
    }
  }

  lemma NamesAreCounted(s: bytes)
    ensures |s| < 2 ==> DecNameArray(s) == BadNames
    ensures |s| >= 2 ==>
              var ps := DecNames(Le16(s, 0), s[2..]);
              DecNameArray(s) == if ps.BadNames? then BadNames else GoodNames(ps.names, 2 + ps.used)
  {
    hide PullUint16, DecNames, Le16;
    Read16(s, 0);
    assert s[0..] == s;
  }
}
