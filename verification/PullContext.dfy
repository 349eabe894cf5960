/** PULL_CTX: a read cursor over received bytes, and the pull functions over it. */
module PullContext {
  import opened Bytes
  import opened MapiTypes
  import opened Options
  import opened Wire
  import opened Parse
  import opened PropNames

  class PullCtx {
    const data: array<uint8>
    const dataSize: nat
    var offset: nat

    ghost predicate Valid()
      reads this
    {
      offset <= dataSize == data.Length < 0x8000_0000
    }

    ghost function Remaining(): bytes
      reads this, data
      requires Valid()
    {
      data[offset..]
    }

    /** The effect of a pull: it succeeds exactly when the parse of the unread
        bytes does, with that value, and then the cursor stands where the parse ends. */
    ghost predicate Took<T>(r: Option<T>, parse: Pulled<T>)
      reads this, data
    {
      && Valid()
      && (r.Some? <==> parse.Ok?)
      && (r.Some? ==> r.value == parse.value && Remaining() == parse.rest)
    }

    constructor (d: array<uint8>)
      requires d.Length < 0x8000_0000
      ensures Valid() && data == d && Remaining() == d[..]
    {
      data, dataSize, offset := d, d.Length, 0;
    }

    method PullUint8() returns (r: Option<uint8>)
      requires Valid()
      modifies this`offset
      ensures Took(r, Bytes.PullUint8(old(Remaining())))
    {
      if dataSize < 1 || offset + 1 > dataSize { return None; }
      r := Some(data[offset]);
      offset := offset + 1;
    }

    method PullUint16() returns (r: Option<uint16>)
      requires Valid()
      modifies this`offset
      ensures Took(r, Bytes.PullUint16(old(Remaining())))
    {
      if dataSize < 2 || offset + 2 > dataSize { return None; }
      r := Some(FromU16(data[offset..offset + 2]));
      offset := offset + 2;
    }

    method PullUint32() returns (r: Option<uint32>)
      requires Valid()
      modifies this`offset
      ensures Took(r, Bytes.PullUint32(old(Remaining())))
    {
      if dataSize < 4 || offset + 4 > dataSize { return None; }
      r := Some(FromU32(data[offset..offset + 4]));
      offset := offset + 4;
    }

    method PullUint64() returns (r: Option<uint64>)
      requires Valid()
      modifies this`offset
      ensures Took(r, Bytes.PullUint64(old(Remaining())))
    {
      if dataSize < 8 || offset + 8 > dataSize { return None; }
      var low: int, high: int := FromU32(data[offset..offset + 4]), FromU32(data[offset + 4..offset + 8]);
      assert low == FromU32(Remaining()) && high == FromU32(Remaining()[4..]);
      r := Some(low + 0x1_0000_0000 * high);
      offset := offset + 8;
    }

    method PullBytes(n: nat) returns (r: Option<bytes>)
      requires Valid()
      modifies this`offset
      ensures Took(r, Bytes.PullBytes(n, old(Remaining())))
    {
      if dataSize < n || offset + n > dataSize { return None; }
      assert data[offset..offset + n] == Remaining()[..n];
      r := Some(data[offset..offset + n]);
      offset := offset + n;
    }

    method PullGuid() returns (r: Option<Guid>)
      requires Valid()
      modifies this`offset
      ensures Took(r, DecGuid(old(Remaining())))
    {
      hide Valid, Remaining, Bytes.PullUint16, Bytes.PullUint32;
      var low :- PullUint32();
      var mid :- PullUint16();
      var high :- PullUint16();
      var clock :- PullBytes(2);
      var node :- PullBytes(6);
      return Some(Guid(low, mid, high, clock, node));
    }

    /** strnlen by index, then the bytes up to the NUL. */
    method PullString() returns (r: Option<bytes>)
      requires Valid()
      modifies this`offset
      ensures Took(r, DecString(old(Remaining())))
    {
      if offset >= dataSize { return None; }
      ghost var s := Remaining();
      var len := 0;
      while len < dataSize - offset && data[offset + len] != 0
        invariant len <= dataSize - offset
        invariant forall i | 0 <= i < len :: s[i] != 0
      {
        len := len + 1;
      }
      StrLenUnique(s, len);
      if len + 1 > dataSize - offset { return None; }
      assert data[offset..offset + len] == s[..len];
      r := Some(data[offset..offset + len]);
      offset := offset + len + 1;
    }

    method PullBinary() returns (r: Option<bytes>)
      requires Valid()
      modifies this`offset
      ensures Took(r, DecBinary(old(Remaining())))
    {
      hide Valid, Remaining, Bytes.PullUint32;
      var cb :- PullUint32();
      if cb == 0 { return Some([]); }
      r := PullBytes(cb);
    }

    method PullShortArray() returns (r: Option<seq<uint16>>)
      requires Valid()
      modifies this`offset
      ensures Took(r, DecCounted(Bytes.PullUint16, old(Remaining())))
    {
      hide Valid, Remaining, Bytes.PullUint32, Bytes.PullUint64, Bytes.PullUint16, DecString, DecGuid, DecBinary;
      var n :- PullUint32();
      ghost var whole := DecSeq(Bytes.PullUint16, n, Remaining());
      var xs: seq<uint16> := [];
      for i := 0 to n
        invariant Valid() && Extends(xs, DecSeq(Bytes.PullUint16, n - i, Remaining()), whole)
      {
        ghost var todo := DecSeq(Bytes.PullUint16, n - i, Remaining());
        var x :- PullUint16();
        ExtendsStep(xs, x, todo, DecSeq(Bytes.PullUint16, n - i - 1, Remaining()), whole);
        xs := xs + [x];
      }
      assert xs + [] == xs;
      return Some(xs);
    }

    method PullLongArray() returns (r: Option<seq<uint32>>)
      requires Valid()
      modifies this`offset
      ensures Took(r, DecCounted(Bytes.PullUint32, old(Remaining())))
    {
      hide Valid, Remaining, Bytes.PullUint32, Bytes.PullUint64, Bytes.PullUint16, DecString, DecGuid, DecBinary;
      var n :- PullUint32();
      ghost var whole := DecSeq(Bytes.PullUint32, n, Remaining());
      var xs: seq<uint32> := [];
      for i := 0 to n
        invariant Valid() && Extends(xs, DecSeq(Bytes.PullUint32, n - i, Remaining()), whole)
      {
        ghost var todo := DecSeq(Bytes.PullUint32, n - i, Remaining());
        var x :- PullUint32();
        ExtendsStep(xs, x, todo, DecSeq(Bytes.PullUint32, n - i - 1, Remaining()), whole);
        xs := xs + [x];
      }
      assert xs + [] == xs;
      return Some(xs);
    }

    method PullLongLongArray() returns (r: Option<seq<uint64>>)
      requires Valid()
      modifies this`offset
      ensures Took(r, DecCounted(Bytes.PullUint64, old(Remaining())))
    {
      hide Valid, Remaining, Bytes.PullUint32, Bytes.PullUint64, Bytes.PullUint16, DecString, DecGuid, DecBinary;
      var n :- PullUint32();
      ghost var whole := DecSeq(Bytes.PullUint64, n, Remaining());
      var xs: seq<uint64> := [];
      for i := 0 to n
        invariant Valid() && Extends(xs, DecSeq(Bytes.PullUint64, n - i, Remaining()), whole)
      {
        ghost var todo := DecSeq(Bytes.PullUint64, n - i, Remaining());
        var x :- PullUint64();
        ExtendsStep(xs, x, todo, DecSeq(Bytes.PullUint64, n - i - 1, Remaining()), whole);
        xs := xs + [x];
      }
      assert xs + [] == xs;
      return Some(xs);
    }

    method PullStringArray() returns (r: Option<seq<bytes>>)
      requires Valid()
      modifies this`offset
      ensures Took(r, DecCounted(DecString, old(Remaining())))
    {
      hide Valid, Remaining, Bytes.PullUint32, Bytes.PullUint64, Bytes.PullUint16, DecString, DecGuid, DecBinary;
      var n :- PullUint32();
      ghost var whole := DecSeq(DecString, n, Remaining());
      var xs: seq<bytes> := [];
      for i := 0 to n
        invariant Valid() && Extends(xs, DecSeq(DecString, n - i, Remaining()), whole)
      {
        ghost var todo := DecSeq(DecString, n - i, Remaining());
        var x :- PullString();
        ExtendsStep(xs, x, todo, DecSeq(DecString, n - i - 1, Remaining()), whole);
        xs := xs + [x];
      }
      assert xs + [] == xs;
      return Some(xs);
    }

    method PullGuidArray() returns (r: Option<seq<Guid>>)
      requires Valid()
      modifies this`offset
      ensures Took(r, DecCounted(DecGuid, old(Remaining())))
    {
      hide Valid, Remaining, Bytes.PullUint32, Bytes.PullUint64, Bytes.PullUint16, DecString, DecGuid, DecBinary;
      var n :- PullUint32();
      ghost var whole := DecSeq(DecGuid, n, Remaining());
      var xs: seq<Guid> := [];
      for i := 0 to n
        invariant Valid() && Extends(xs, DecSeq(DecGuid, n - i, Remaining()), whole)
      {
        ghost var todo := DecSeq(DecGuid, n - i, Remaining());
        var x :- PullGuid();
        ExtendsStep(xs, x, todo, DecSeq(DecGuid, n - i - 1, Remaining()), whole);
        xs := xs + [x];
      }
      assert xs + [] == xs;
      return Some(xs);
    }

    method PullBinaryArray() returns (r: Option<seq<bytes>>)
      requires Valid()
      modifies this`offset
      ensures Took(r, DecCounted(DecBinary, old(Remaining())))
    {
      hide Valid, Remaining, Bytes.PullUint32, Bytes.PullUint64, Bytes.PullUint16, DecString, DecGuid, DecBinary;
      var n :- PullUint32();
      ghost var whole := DecSeq(DecBinary, n, Remaining());
      var xs: seq<bytes> := [];
      for i := 0 to n
        invariant Valid() && Extends(xs, DecSeq(DecBinary, n - i, Remaining()), whole)
      {
        ghost var todo := DecSeq(DecBinary, n - i, Remaining());
        var x :- PullBinary();
        ExtendsStep(xs, x, todo, DecSeq(DecBinary, n - i - 1, Remaining()), whole);
        xs := xs + [x];
      }
      assert xs + [] == xs;
      return Some(xs);
    }

    method PullRestrictions(n: nat) returns (r: Option<seq<Restriction>>)
      requires Valid()
      modifies this`offset
      ensures Took(r, DecRestrictions(n, old(Remaining())))
      decreases |Remaining()|, 1
    {
      hide Valid, Remaining, DecRestriction, OkRestriction, OkRestrictions, EncRestriction, EncRestrictions;
      ghost var s := Remaining();
      ghost var whole := DecRestrictions(n, s);
      var xs: seq<Restriction> := [];
      for i := 0 to n
        invariant Valid() && |Remaining()| <= |s| && Extends(xs, DecRestrictions(n - i, Remaining()), whole)
      {
        ghost var todo := DecRestrictions(n - i, Remaining());
        var x :- PullRestriction();
        ExtendsStep(xs, x, todo, DecRestrictions(n - i - 1, Remaining()), whole);
        xs := xs + [x];
      }
      assert xs + [] == xs;
      return Some(xs);
    }

    method PullTaggeds(n: nat) returns (r: Option<seq<TaggedPropval>>)
      requires Valid()
      modifies this`offset
      ensures Took(r, DecTaggeds(n, old(Remaining())))
      decreases |Remaining()|, 1
    {
      hide Valid, Remaining, DecTagged, OkTagged, OkTaggeds, EncTagged, EncTaggeds;
      ghost var s := Remaining();
      ghost var whole := DecTaggeds(n, s);
      var xs: seq<TaggedPropval> := [];
      for i := 0 to n
        invariant Valid() && |Remaining()| <= |s| && Extends(xs, DecTaggeds(n - i, Remaining()), whole)
      {
        ghost var todo := DecTaggeds(n - i, Remaining());
        var x :- PullTagged();
        ExtendsStep(xs, x, todo, DecTaggeds(n - i - 1, Remaining()), whole);
        xs := xs + [x];
      }
      assert xs + [] == xs;
      return Some(xs);
    }

    method PullActions(n: nat) returns (r: Option<seq<ActionBlock>>)
      requires Valid()
      modifies this`offset
      ensures Took(r, DecActions(n, old(Remaining())))
      decreases |Remaining()|, 1
    {
      hide Valid, Remaining, DecAction, OkAction, OkActions, EncAction, EncActions;
      ghost var s := Remaining();
      ghost var whole := DecActions(n, s);
      var xs: seq<ActionBlock> := [];
      for i := 0 to n
        invariant Valid() && |Remaining()| <= |s| && Extends(xs, DecActions(n - i, Remaining()), whole)
      {
        ghost var todo := DecActions(n - i, Remaining());
        var x :- PullAction();
        ExtendsStep(xs, x, todo, DecActions(n - i - 1, Remaining()), whole);
        xs := xs + [x];
      }
      assert xs + [] == xs;
      return Some(xs);
    }

    method PullRecipients(n: nat) returns (r: Option<seq<RecipientBlock>>)
      requires Valid()
      modifies this`offset
      ensures Took(r, DecRecipients(n, old(Remaining())))
      decreases |Remaining()|, 1
    {
      hide Valid, Remaining, DecRecipient, OkRecipient, OkRecipients, EncRecipient, EncRecipients;
      ghost var s := Remaining();
      ghost var whole := DecRecipients(n, s);
      var xs: seq<RecipientBlock> := [];
      for i := 0 to n
        invariant Valid() && |Remaining()| <= |s| && Extends(xs, DecRecipients(n - i, Remaining()), whole)
      {
        ghost var todo := DecRecipients(n - i, Remaining());
        var x :- PullRecipient();
        ExtendsStep(xs, x, todo, DecRecipients(n - i - 1, Remaining()), whole);
        xs := xs + [x];
      }
      assert xs + [] == xs;
      return Some(xs);
    }

    method PullRestriction() returns (r: Option<Restriction>)
      requires Valid()
      modifies this`offset
      ensures Took(r, DecRestriction(old(Remaining())))
      decreases |Remaining()|, 0
    {
      hide Valid, Remaining, Bytes.PullUint8, Bytes.PullUint16, Bytes.PullUint32, Bytes.PullUint64, Bytes.PullBytes;
      var rt :- PullUint8();
      if rt == 0x00 || rt == 0x01 {
        r := PullAndOr(rt);
      } else if rt == 0x02 {
        var res :- PullRestriction();
        return Some(Not(res));
      } else if rt == 0x03 || rt == 0x04 {
        r := PullTest(rt);
      } else if rt == 0x05 || rt == 0x06 || rt == 0x07 {
        r := PullFlat(rt);
      } else if rt == 0x08 {
        var tag :- PullUint32();
        return Some(Exist(tag));
      } else if rt == 0x09 || rt == 0x0b {
        r := PullNumbered(rt);
      } else if rt == 0x0a {
        r := PullComment();
      } else if rt == 0xff {
        return Some(NullRes);
      } else {
        return None;
      }
    }

    method PullAndOr(rt: uint8) returns (r: Option<Restriction>)
      requires Valid()
      modifies this`offset
      ensures Took(r, DecAndOr(rt, old(Remaining())))
      decreases |Remaining()|, 2
    {
      hide Valid, Remaining, Bytes.PullUint8, Bytes.PullUint16, Bytes.PullUint32, Bytes.PullUint64, Bytes.PullBytes;
      var n :- PullUint32();
      var rs :- PullRestrictions(n);
      return Some(if rt == 0x00 then And(rs) else Or(rs));
    }

    method PullNumbered(rt: uint8) returns (r: Option<Restriction>)
      requires Valid()
      modifies this`offset
      ensures Took(r, DecNumbered(rt, old(Remaining())))
      decreases |Remaining()|, 2
    {
      hide Valid, Remaining, Bytes.PullUint8, Bytes.PullUint16, Bytes.PullUint32, Bytes.PullUint64, Bytes.PullBytes;
      var n :- PullUint32();
      var res :- PullRestriction();
      return Some(if rt == 0x09 then SubObj(n, res) else Count(n, res));
    }

    method PullTest(rt: uint8) returns (r: Option<Restriction>)
      requires Valid()
      modifies this`offset
      ensures Took(r, DecTest(rt, old(Remaining())))
      decreases |Remaining()|, 2
    {
      hide Valid, Remaining, Bytes.PullUint8, Bytes.PullUint16, Bytes.PullUint32, Bytes.PullUint64, Bytes.PullBytes;
      if rt == 0x03 {
        var fuzzy :- PullUint32();
        var tag :- PullUint32();
        var pv :- PullTagged();
        return Some(Content(fuzzy, tag, pv));
      } else {
        var relop :- PullUint8();
        var tag :- PullUint32();
        var pv :- PullTagged();
        return Some(Property(relop, tag, pv));
      }
    }

    method PullFlat(rt: uint8) returns (r: Option<Restriction>)
      requires Valid()
      modifies this`offset
      ensures Took(r, DecFlat(rt, old(Remaining())))
    {
      hide Valid, Remaining, Bytes.PullUint8, Bytes.PullUint16, Bytes.PullUint32, Bytes.PullUint64, Bytes.PullBytes;
      var relop :- PullUint8();
      var a :- PullUint32();
      var b :- PullUint32();
      if rt == 0x05 { return Some(PropCompare(relop, a, b)); }
      if rt == 0x06 { return Some(BitMask(relop, a, b)); }
      return Some(Size(relop, a, b));
    }

    method PullComment() returns (r: Option<Restriction>)
      requires Valid()
      modifies this`offset
      ensures Took(r, DecComment(old(Remaining())))
      decreases |Remaining()|, 2
    {
      hide Valid, Remaining, Bytes.PullUint8, Bytes.PullUint16, Bytes.PullUint32, Bytes.PullUint64, Bytes.PullBytes;
      var n :- PullUint8();
      if n == 0 { return None; }
      var pvs :- PullTaggeds(n);
      var opt :- PullOptional();
      return Some(Comment(pvs, opt));
    }

    method PullOptional() returns (r: Option<Option<Restriction>>)
      requires Valid()
      modifies this`offset
      ensures Took(r, DecOptional(old(Remaining())))
      decreases |Remaining()|, 0
    {
      hide Valid, Remaining, Bytes.PullUint8, Bytes.PullUint16, Bytes.PullUint32, Bytes.PullUint64, Bytes.PullBytes;
      var present :- PullUint8();
      if present == 0 { return Some(None); }
      var res :- PullRestriction();
      return Some(Some(res));
    }

    method PullTagged() returns (r: Option<TaggedPropval>)
      requires Valid()
      modifies this`offset
      ensures Took(r, DecTagged(old(Remaining())))
      decreases |Remaining()|, 0
    {
      hide Valid, Remaining, Bytes.PullUint8, Bytes.PullUint16, Bytes.PullUint32, Bytes.PullUint64, Bytes.PullBytes;
      var tag :- PullUint32();
      var v :- PullValue(KindOfTag(tag));
      return Some(TaggedPropval(tag, v));
    }

    /** ext_pack_pull_propval after the type has been reduced to its kind. */
    method PullValue(kind: ValueKind) returns (r: Option<PropValue>)
      requires Valid()
      modifies this`offset
      ensures Took(r, DecValue(kind, old(Remaining())))
      decreases |Remaining()|, 1
    {
      hide Valid, Remaining, Bytes.PullUint8, Bytes.PullUint16, Bytes.PullUint32, Bytes.PullUint64, Bytes.PullBytes;
      hide DecGuid, DecBinary, DecString, DecArrayValue, DecRestriction, DecRuleActions;
      match kind
      case KShort => var x :- PullUint16(); return Some(Short(x));
      case KLong => var x :- PullUint32(); return Some(Long(x));
      case KFloat => var x :- PullBytes(4); return Some(Float(x));
      case KDouble => var x :- PullBytes(8); return Some(Double(x));
      case KByte => var x :- PullUint8(); return Some(Byte(x));
      case KLongLong => var x :- PullUint64(); return Some(LongLong(x));
      case KString => var x :- PullString(); return Some(String(x));
      case KGuid => var x :- PullGuid(); return Some(GuidValue(x));
      case KRes => var x :- PullRestriction(); return Some(Res(x));
      case KRule => var x :- PullRuleActions(); return Some(Rule(x));
      case KBinary => var x :- PullBinary(); return Some(Binary(x));
      case KNone => return None;
      case _ => r := PullArrayValue(kind);
    }

    method PullArrayValue(kind: ValueKind) returns (r: Option<PropValue>)
      requires Valid()
      modifies this`offset
      ensures Took(r, DecArrayValue(kind, old(Remaining())))
    {
      hide Valid, Remaining, Bytes.PullUint32, DecSeq;
      match kind
      case KShortArray => var xs :- PullShortArray(); return Some(ShortArray(xs));
      case KLongArray => var xs :- PullLongArray(); return Some(LongArray(xs));
      case KLongLongArray => var xs :- PullLongLongArray(); return Some(LongLongArray(xs));
      case KStringArray => var xs :- PullStringArray(); return Some(StringArray(xs));
      case KGuidArray => var xs :- PullGuidArray(); return Some(GuidArray(xs));
      case KBinaryArray => var xs :- PullBinaryArray(); return Some(BinaryArray(xs));
      case _ => return None;
    }

    method PullRuleActions() returns (r: Option<seq<ActionBlock>>)
      requires Valid()
      modifies this`offset
      ensures Took(r, DecRuleActions(old(Remaining())))
      decreases |Remaining()|, 0
    {
      hide Valid, Remaining, Bytes.PullUint8, Bytes.PullUint16, Bytes.PullUint32, Bytes.PullUint64, Bytes.PullBytes;
      var n :- PullUint16();
      if n == 0 { return None; }
      r := PullActions(n);
    }

    method PullAction() returns (r: Option<ActionBlock>)
      requires Valid()
      modifies this`offset
      ensures Took(r, DecAction(old(Remaining())))
      decreases |Remaining()|, 0
    {
      hide Valid, Remaining, Bytes.PullUint8, Bytes.PullUint16, Bytes.PullUint32, Bytes.PullUint64, Bytes.PullBytes;
      var length :- PullUint16();
      var op :- PullUint8();
      var flavor :- PullUint32();
      var flags :- PullUint32();
      var d :- PullData(KindOfAction(op), length);
      return Some(ActionBlock(length, op, flavor, flags, d));
    }

    method PullData(kind: ActionKind, length: uint16) returns (r: Option<ActionData>)
      requires Valid()
      modifies this`offset
      ensures Took(r, DecData(kind, length, old(Remaining())))
      decreases |Remaining()|, 1
    {
      hide Valid, Remaining, Bytes.PullUint8, Bytes.PullUint16, Bytes.PullUint32, Bytes.PullUint64, Bytes.PullBytes;
      hide DecGuid, DecBinary;
      match kind
      case AMoveCopy =>
        var store :- PullBinary();
        var folder :- PullBinary();
        return Some(MoveCopy(store, folder));
      case AReply =>
        var eid :- PullBinary();
        var guid :- PullGuid();
        return Some(Reply(eid, guid));
      case ADefer =>
        var payload :- PullBytes(DeferSize(length));
        return Some(Defer(payload));
      case ABounce =>
        var code :- PullUint32();
        return Some(Bounce(code));
      case AForward => r := PullForward();
      case ATag =>
        var pv :- PullTagged();
        return Some(Tag(pv));
      case ANoData => return Some(NoData);
      case ANone => return None;
    }

    method PullForward() returns (r: Option<ActionData>)
      requires Valid()
      modifies this`offset
      ensures Took(r, DecForward(old(Remaining())))
      decreases |Remaining()|, 0
    {
      hide Valid, Remaining, Bytes.PullUint8, Bytes.PullUint16, Bytes.PullUint32, Bytes.PullUint64, Bytes.PullBytes;
      var n :- PullUint16();
      if n == 0 { return None; }
      var rs :- PullRecipients(n);
      return Some(ForwardDelegate(rs));
    }

    method PullRecipient() returns (r: Option<RecipientBlock>)
      requires Valid()
      modifies this`offset
      ensures Took(r, DecRecipient(old(Remaining())))
      decreases |Remaining()|, 0
    {
      hide Valid, Remaining, Bytes.PullUint8, Bytes.PullUint16, Bytes.PullUint32, Bytes.PullUint64, Bytes.PullBytes;
      var reserved :- PullUint8();
      var n :- PullUint16();
      if n == 0 { return None; }
      var pvs :- PullTaggeds(n);
      return Some(RecipientBlock(reserved, pvs));
    }

    /** The cursor jumps to the declared end of the name without a bounds check. */
    method PullPropertyName() returns (r: Option<PropName>)
      requires Valid()
      modifies this`offset
      ensures var d := DecName(old(Remaining()));
              && (r.Some? <==> d.GoodName?)
              && (r.Some? ==> r.value == d.name && offset == old(offset) + d.used)
    {
      hide Bytes.PullUint8, Bytes.PullUint32, DecGuid, DecString;
      var kind :- PullUint8();
      var guid :- PullGuid();
      if kind == 0x00 {
        var lid :- PullUint32();
        return Some(Lid(guid, lid));
      } else if kind == 0x01 {
        var size :- PullUint8();
        if size < 2 { return None; }
        var end := offset + size;
        assert end == old(offset) + 18 + size;
        var name :- PullString();
        if offset > end { return None; }
        offset := end;
        return Some(Named(guid, name));
      }
      return Some(Bare(kind, guid));
    }

    method PullPropNames() returns (r: Option<seq<PropName>>)
      requires Valid()
      modifies this`offset
      ensures var d := DecNameArray(old(Remaining()));
              && (r.Some? <==> d.GoodNames?)
              && (r.Some? ==> r.value == d.names && offset == old(offset) + d.used)
    {
      hide DecNames, Bytes.PullUint16;
      ghost var s := Remaining();
      CountTaken(s);
      var n :- PullUint16();
      r := PullNames(n);
    }

    lemma CountTaken(s: bytes)
      ensures Bytes.PullUint16(s).Ok? ==> |Bytes.PullUint16(s).rest| == |s| - 2
    {
    }

    method PullNames(n: nat) returns (r: Option<seq<PropName>>)
      requires Valid()
      modifies this`offset
      ensures var d := DecNames(n, old(Remaining()));
              && (r.Some? <==> d.GoodNames?)
              && (r.Some? ==> r.value == d.names && offset == old(offset) + d.used)
    {
      hide DecName, DecNames, NamesProgress;
      ghost var s := Remaining();
      var xs: seq<PropName> := [];
      NoneRead(n, s);
      for i := 0 to n
        invariant offset - old(offset) <= |s| ==> Valid()
        invariant |s| == dataSize - old(offset)
        invariant offset >= old(offset)
        invariant NamesProgress(xs, n - i, offset - old(offset), s, DecNames(n, s))
      {
        ghost var used := offset - old(offset);
        OneRead(xs, n - i, used, s, DecNames(n, s));
        if offset > dataSize { return None; }  // the first read of the next entry fails
        assert Remaining() == s[used..];
        var x :- PullPropertyName();
        xs := xs + [x];
      }
      AllRead(xs, offset - old(offset), s, DecNames(n, s));
      return Some(xs);
    }
  }

  /** Loop progress: the elements read so far, then what is still to be parsed,
      make up what the whole array parses to. */
  ghost predicate Extends<T>(xs: seq<T>, todo: Pulled<seq<T>>, whole: Pulled<seq<T>>) {
    && (whole.Ok? <==> todo.Ok?)
    && (todo.Ok? ==> whole.value == xs + todo.value && whole.rest == todo.rest)
  }

  /** The same for name entries, whose cursor may have left the data. */
  ghost predicate NamesProgress(xs: seq<PropName>, n: nat, used: nat, s: bytes, whole: NamesPulled) {
    if used > |s| then
      whole == if n == 0 then GoodNames(xs, used) else BadNames
    else
      var todo := DecNames(n, s[used..]);
      whole == if todo.BadNames? then BadNames else GoodNames(xs + todo.names, used + todo.used)
  }

  lemma NoneRead(n: nat, s: bytes)
    ensures NamesProgress([], n, 0, s, DecNames(n, s))
  {
    hide DecNames;
    assert s[0..] == s;
  }

  /** One more name, or none. */
  lemma OneRead(xs: seq<PropName>, n: nat, used: nat, s: bytes, whole: NamesPulled)
    requires n > 0 && NamesProgress(xs, n, used, s, whole)
    ensures if used > |s| then whole.BadNames?
            else match DecName(s[used..])
              case BadName => whole.BadNames?
              case GoodName(x, u) => NamesProgress(xs + [x], n - 1, used + u, s, whole)
  {
    hide DecName;
    if used <= |s| {
      var d, t := DecName(s[used..]), s[used..];
      if d.GoodName? && d.used <= |t| {
        FirstName(n, t, d.name, d.used);
        assert t[d.used..] == s[used + d.used..];
      }
    }
  }

  lemma AllRead(xs: seq<PropName>, used: nat, s: bytes, whole: NamesPulled)
    requires NamesProgress(xs, 0, used, s, whole)
    ensures whole == GoodNames(xs, used)
  {
  }

  lemma ExtendsStep<T>(xs: seq<T>, x: T, before: Pulled<seq<T>>, todo: Pulled<seq<T>>, whole: Pulled<seq<T>>)
    requires Extends(xs, before, whole)
    requires before == if todo.Ok? then Ok([x] + todo.value, todo.rest) else Fail
    ensures Extends(xs + [x], todo, whole)
  {
    if todo.Ok? { assert xs + ([x] + todo.value) == xs + [x] + todo.value; }
  }

  lemma StrLenUnique(s: bytes, n: nat)
    requires n <= |s| && forall i | 0 <= i < n :: s[i] != 0
    requires n < |s| ==> s[n] == 0
    ensures StrLen(s) == n
  {
    var m := StrLen(s);
    assert forall i | 0 <= i < m :: s[..m][i] == s[i];
  }
}
