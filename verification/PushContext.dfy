/** PUSH_CTX: a write buffer that grows in blocks, and the push functions over it. */
module PushContext {
  import opened Bytes
  import opened MapiTypes
  import opened Options
  import opened Wire
  import opened PropNames

  const GROWING_BLOCK_SIZE := 0x1000

  class PushCtx {
    var data: array<uint8>
    var allocSize: nat
    var offset: nat
    const limit: nat  // erealloc refuses to go beyond this size

    ghost predicate Valid()
      reads this
    {
      && offset <= allocSize == data.Length <= limit < 0x8000_0000
      && allocSize % GROWING_BLOCK_SIZE == 0 && limit % GROWING_BLOCK_SIZE == 0
    }

    ghost function Contents(): bytes
      reads this, data
      requires Valid()
    {
      data[..offset]
    }

    /** The effect of a push: it succeeds exactly on an acceptable value that
        fits, then appends the value's encoding; earlier bytes never change. */
    twostate predicate Pushed(ok: bool, good: bool, e: bytes)
      requires old(Valid())
      reads this, data
    {
      && Valid() && (data == old(data) || fresh(data))
      && (ok <==> good && |old(Contents())| + |e| <= limit)
      && (ok ==> Contents() == old(Contents()) + e)
      && (!ok ==> old(Contents()) <= Contents())
    }

    /** Part of a push done: what is written plus what is still to come. */
    twostate predicate Midway(todo: bytes, e: bytes)
      requires old(Valid())
      reads this, data
    {
      && Valid() && (data == old(data) || fresh(data))
      && old(Contents()) <= Contents() && |Contents()| <= limit
      && Contents() + todo == old(Contents()) + e
    }

    lemma WithinLimit()
      requires Valid()
      ensures |Contents()| <= limit
    {
    }

    constructor (blocks: nat)
      requires 0 < blocks < 0x8_0000
      ensures Valid() && fresh(data) && Contents() == [] && allocSize == 4096 && limit == blocks * 4096
    {
      limit := blocks * GROWING_BLOCK_SIZE;
      allocSize := GROWING_BLOCK_SIZE;
      data := new uint8[GROWING_BLOCK_SIZE];
      offset := 0;
    }

    method CheckOverflow(extra: nat) returns (ok: bool)
      requires Valid() && extra < 0x8000_0000
      modifies this`data, this`allocSize
      ensures Valid() && (data == old(data) || fresh(data))
      ensures ok <==> offset + extra <= limit
      ensures ok ==> offset + extra <= allocSize
      ensures offset + extra <= old(allocSize) ==> data == old(data)
      ensures old(allocSize) <= allocSize && data[..old(allocSize)] == old(data[..])
      ensures allocSize % 4096 == 0
      ensures allocSize > old(allocSize) ==> allocSize < offset + extra + 4096
    {
      var size := extra + offset;
      if allocSize >= size {
        return true;
      }
      var alloc := allocSize;
      while alloc < size
        invariant alloc % GROWING_BLOCK_SIZE == 0
        invariant allocSize <= alloc < size + GROWING_BLOCK_SIZE
      {
        alloc := alloc + GROWING_BLOCK_SIZE;
      }
      if alloc > limit {
        return false;
      }
      var grown := new uint8[alloc];
      forall i | 0 <= i < allocSize {
        grown[i] := data[i];
      }
      assert grown[..allocSize] == data[..];
      data := grown;
      allocSize := alloc;
      return true;
    }

    /** Reserves n bytes, whatever they hold. */
    method Advance(n: nat) returns (ok: bool)
      requires Valid() && n < 0x8000_0000
      modifies this`data, this`allocSize, this`offset
      ensures Valid() && (data == old(data) || fresh(data))
      ensures ok <==> old(offset) + n <= limit
      ensures offset == old(offset) + if ok then n else 0
      ensures data[..old(offset)] == old(Contents())
    {
      ok := CheckOverflow(n);
      assert data[..old(offset)] == data[..old(allocSize)][..old(offset)];
      if ok {
        offset := offset + n;
      }
    }

    method PushBytes(b: bytes) returns (ok: bool)
      requires Valid() && |b| < 0x8000_0000
      modifies this`data, this`allocSize, this`offset, data
      ensures Pushed(ok, true, b)
      ensures offset == old(offset) + if ok then |b| else 0
      ensures old(offset) + |b| <= old(allocSize) ==>
                data == old(data) && data[old(offset) + |b|..] == old(data[offset + |b|..])
    {
      ok := CheckOverflow(|b|);
      assert data[..offset] == data[..old(allocSize)][..offset];
      if ok {
        ghost var was := data[..];
        Copy(b);
        ghost var at := offset;
        offset := offset + |b|;
        Around(was[..at], b, was[offset..]);
        assert data[..offset] == data[..][..offset] && data[offset..] == data[..][offset..];
      }
    }

    /** memcpy to the end of the contents. */
    method Copy(b: bytes)
      requires Valid() && offset + |b| <= allocSize
      modifies data
      ensures data[..] == old(data[..offset] + b + data[offset + |b|..])
    {
      forall i | 0 <= i < |b| {
        data[offset + i] := b[i];
      }
    }

    lemma Around(front: bytes, b: bytes, back: bytes)
      ensures (front + b + back)[..|front| + |b|] == front + b
      ensures (front + b + back)[|front| + |b|..] == back
    {
    }

    method PushUint8(v: uint8) returns (ok: bool)
      requires Valid()
      modifies this`data, this`allocSize, this`offset, data
      ensures Pushed(ok, true, [v])
      ensures old(offset) + 1 <= old(allocSize) ==>
                data == old(data) && data[old(offset) + 1..] == old(data[offset + 1..])
    {
      ok := PushBytes([v]);
    }

    method PushUint16(v: uint16) returns (ok: bool)
      requires Valid()
      modifies this`data, this`allocSize, this`offset, data
      ensures Pushed(ok, true, U16(v))
      ensures old(offset) + 2 <= old(allocSize) ==>
                data == old(data) && data[old(offset) + 2..] == old(data[offset + 2..])
    {
      ok := PushBytes(U16(v));
    }

    method PushUint32(v: uint32) returns (ok: bool)
      requires Valid()
      modifies this`data, this`allocSize, this`offset, data
      ensures Pushed(ok, true, U32(v))
    {
      ok := PushBytes(U32(v));
    }

    method PushUint64(v: uint64) returns (ok: bool)
      requires Valid()
      modifies this`data, this`allocSize, this`offset, data
      ensures Pushed(ok, true, U64(v))
    {
      ok := PushBytes(U64(v));
    }

    method PushBinary(b: bytes) returns (ok: bool)
      requires Valid() && |b| < 0x8000_0000
      modifies this`data, this`allocSize, this`offset, data
      ensures Pushed(ok, true, EncBinary(b))
    {
      hide U32, Count32, Contents, Valid;
      FittingCount(b);
      ok := PushUint32(|b|);
      if !ok { return; }
      if |b| == 0 { return true; }
      ok := PushBytes(b);
    }

    method PushString(b: bytes) returns (ok: bool)
      requires Valid() && |b| < 0x7fff_ffff
      modifies this`data, this`allocSize, this`offset, data
      ensures Pushed(ok, OkString(b), EncString(b))
    {
      if 0 in b { return false; }
      ok := PushBytes(b + [0]);
    }

    method PushGuid(g: Guid) returns (ok: bool)
      requires Valid()
      modifies this`data, this`allocSize, this`offset, data
      ensures Pushed(ok, true, EncGuid(g))
    {
      hide U16, U32, Contents, Valid;
      ghost var nodes := g.clockSeq + g.node;
      GuidFields(Contents(), U32(g.timeLow), U16(g.timeMid), U16(g.timeHi), nodes);
      ok := PushTimes(g.timeLow, g.timeMid, g.timeHi);
      if !ok { return; }
      assert Midway(nodes, EncGuid(g));
      Assoc(Contents(), g.clockSeq, g.node);
      ok := PushBytes(g.clockSeq);
      if !ok { return; }
      ok := PushBytes(g.node);
    }

    /** The three time fields of a GUID. */
    method PushTimes(low: uint32, mid: uint16, hi: uint16) returns (ok: bool)
      requires Valid()
      modifies this`data, this`allocSize, this`offset, data
      ensures Pushed(ok, true, U32(low) + (U16(mid) + U16(hi)))
    {
      hide U16, U32, Contents, Valid;
      Assoc(Contents(), U32(low), U16(mid) + U16(hi));
      ok := PushUint32(low);
      if !ok { return; }
      Assoc(Contents(), U16(mid), U16(hi));
      ok := PushUint16(mid);
      if !ok { return; }
      ok := PushUint16(hi);
    }

    lemma GuidFields(c: bytes, low: bytes, mid: bytes, hi: bytes, nodes: bytes)
      ensures c + (low + (mid + (hi + nodes))) == c + (low + (mid + hi)) + nodes
    {
    }

    method PushShortArray(xs: seq<uint16>) returns (ok: bool)
      requires Valid() && |EncArray(U16, xs)| < 0x8000_0000
      modifies this`data, this`allocSize, this`offset, data
      ensures Pushed(ok, OkValue(ShortArray(xs)), EncArray(U16, xs))
    {
      hide U16, U32, U64, Contents, Valid, Count32, EncSeq, EncString, EncGuid, EncBinary;
      if |xs| >= 0x1_0000_0000 { return false; }
      FittingCount(xs);
      ghost var c, e := Contents(), EncArray(U16, xs);
      ok := PushUint32(|xs|);
      if !ok { return; }
      Assoc(c, U32(|xs|), EncSeq(U16, xs));
      for i := 0 to |xs|
        invariant Midway(EncSeq(U16, xs[i..]), e)
      {
        NextInSeq(U16, xs, i);
        Assoc(Contents(), U16(xs[i]), EncSeq(U16, xs[i + 1..]));
        ok := PushUint16(xs[i]);
        if !ok { return; }
      }
      NextInSeq(U16, xs, |xs|);
      assert Contents() + [] == Contents();
    }

    method PushLongArray(xs: seq<uint32>) returns (ok: bool)
      requires Valid() && |EncArray(U32, xs)| < 0x8000_0000
      modifies this`data, this`allocSize, this`offset, data
      ensures Pushed(ok, OkValue(LongArray(xs)), EncArray(U32, xs))
    {
      hide U16, U32, U64, Contents, Valid, Count32, EncSeq, EncString, EncGuid, EncBinary;
      if |xs| >= 0x1_0000_0000 { return false; }
      FittingCount(xs);
      ghost var c, e := Contents(), EncArray(U32, xs);
      ok := PushUint32(|xs|);
      if !ok { return; }
      Assoc(c, U32(|xs|), EncSeq(U32, xs));
      for i := 0 to |xs|
        invariant Midway(EncSeq(U32, xs[i..]), e)
      {
        NextInSeq(U32, xs, i);
        Assoc(Contents(), U32(xs[i]), EncSeq(U32, xs[i + 1..]));
        ok := PushUint32(xs[i]);
        if !ok { return; }
      }
      NextInSeq(U32, xs, |xs|);
      assert Contents() + [] == Contents();
    }

    method PushLongLongArray(xs: seq<uint64>) returns (ok: bool)
      requires Valid() && |EncArray(U64, xs)| < 0x8000_0000
      modifies this`data, this`allocSize, this`offset, data
      ensures Pushed(ok, OkValue(LongLongArray(xs)), EncArray(U64, xs))
    {
      hide U16, U32, U64, Contents, Valid, Count32, EncSeq, EncString, EncGuid, EncBinary;
      if |xs| >= 0x1_0000_0000 { return false; }
      FittingCount(xs);
      ghost var c, e := Contents(), EncArray(U64, xs);
      ok := PushUint32(|xs|);
      if !ok { return; }
      Assoc(c, U32(|xs|), EncSeq(U64, xs));
      for i := 0 to |xs|
        invariant Midway(EncSeq(U64, xs[i..]), e)
      {
        NextInSeq(U64, xs, i);
        Assoc(Contents(), U64(xs[i]), EncSeq(U64, xs[i + 1..]));
        ok := PushUint64(xs[i]);
        if !ok { return; }
      }
      NextInSeq(U64, xs, |xs|);
      assert Contents() + [] == Contents();
    }

    method PushStringArray(xs: seq<bytes>) returns (ok: bool)
      requires Valid() && |EncArray(EncString, xs)| < 0x8000_0000
      modifies this`data, this`allocSize, this`offset, data
      ensures Pushed(ok, OkValue(StringArray(xs)), EncArray(EncString, xs))
    {
      hide U16, U32, U64, Contents, Valid, Count32, EncSeq, EncString, EncGuid, EncBinary;
      if |xs| >= 0x1_0000_0000 { return false; }
      FittingCount(xs);
      ghost var c, e := Contents(), EncArray(EncString, xs);
      ok := PushUint32(|xs|);
      if !ok { return; }
      Assoc(c, U32(|xs|), EncSeq(EncString, xs));
      for i := 0 to |xs|
        invariant Midway(EncSeq(EncString, xs[i..]), e)
        invariant forall x | x in xs[..i] :: OkString(x)
      {
        NextInSeq(EncString, xs, i);
        Assoc(Contents(), EncString(xs[i]), EncSeq(EncString, xs[i + 1..]));
        StringSize(xs[i]);
        ok := PushString(xs[i]);
        if !ok { return; }
      }
      NextInSeq(EncString, xs, |xs|);
      assert Contents() + [] == Contents();
    }

    method PushGuidArray(xs: seq<Guid>) returns (ok: bool)
      requires Valid() && |EncArray(EncGuid, xs)| < 0x8000_0000
      modifies this`data, this`allocSize, this`offset, data
      ensures Pushed(ok, OkValue(GuidArray(xs)), EncArray(EncGuid, xs))
    {
      hide U16, U32, U64, Contents, Valid, Count32, EncSeq, EncString, EncGuid, EncBinary;
      if |xs| >= 0x1_0000_0000 { return false; }
      FittingCount(xs);
      ghost var c, e := Contents(), EncArray(EncGuid, xs);
      ok := PushUint32(|xs|);
      if !ok { return; }
      Assoc(c, U32(|xs|), EncSeq(EncGuid, xs));
      for i := 0 to |xs|
        invariant Midway(EncSeq(EncGuid, xs[i..]), e)
      {
        NextInSeq(EncGuid, xs, i);
        Assoc(Contents(), EncGuid(xs[i]), EncSeq(EncGuid, xs[i + 1..]));
        ok := PushGuid(xs[i]);
        if !ok { return; }
      }
      NextInSeq(EncGuid, xs, |xs|);
      assert Contents() + [] == Contents();
    }

    method PushBinaryArray(xs: seq<bytes>) returns (ok: bool)
      requires Valid() && |EncArray(EncBinary, xs)| < 0x8000_0000
      modifies this`data, this`allocSize, this`offset, data
      ensures Pushed(ok, OkValue(BinaryArray(xs)), EncArray(EncBinary, xs))
    {
      hide U16, U32, U64, Contents, Valid, Count32, EncSeq, EncString, EncGuid, EncBinary;
      if |xs| >= 0x1_0000_0000 { return false; }
      FittingCount(xs);
      ShortBinaries(xs);
      ghost var c, e := Contents(), EncArray(EncBinary, xs);
      ok := PushUint32(|xs|);
      if !ok { return; }
      Assoc(c, U32(|xs|), EncSeq(EncBinary, xs));
      for i := 0 to |xs|
        invariant Midway(EncSeq(EncBinary, xs[i..]), e)
      {
        NextInSeq(EncBinary, xs, i);
        Assoc(Contents(), EncBinary(xs[i]), EncSeq(EncBinary, xs[i + 1..]));
        BinarySize(xs[i]);
        ok := PushBinary(xs[i]);
        if !ok { return; }
      }
      NextInSeq(EncBinary, xs, |xs|);
      assert Contents() + [] == Contents();
    }

    /** A binary that fits its array's encoding fits its count. */
    lemma {:induction false} ShortBinaries(xs: seq<bytes>)
      requires |EncSeq(EncBinary, xs)| < 0x1_0000_0000
      ensures forall x | x in xs :: OkBinary(x)
    {
      hide U32;
      if xs != [] {
        assert OkBinary(xs[0]);
        ShortBinaries(xs[1..]);
        assert xs == [xs[0]] + xs[1..];
      }
    }

    /** The count and the operands of an and/or restriction. */
    method PushRestrictions(xs: seq<Restriction>) returns (ok: bool)
      requires Valid() && |Count32(xs) + EncRestrictions(xs)| < 0x8000_0000
      modifies this`data, this`allocSize, this`offset, data
      ensures Pushed(ok, |xs| < 0x1_0000_0000 && OkRestrictions(xs), Count32(xs) + EncRestrictions(xs))
      decreases xs, 0
    {
      hide U16, U32, Contents, Valid, Count16, Count32;
      hide EncRestriction, EncRestrictions, OkRestriction, OkRestrictions;
      if |xs| >= 0x1_0000_0000 { return false; }
      FittingCount(xs);
      ghost var c, e := Contents(), Count32(xs) + EncRestrictions(xs);
      ok := PushUint32(|xs|);
      if !ok { return; }
      Assoc(c, U32(|xs|), EncRestrictions(xs));
      for i := 0 to |xs|
        invariant Midway(EncRestrictions(xs[i..]), e)
        invariant OkRestrictions(xs) <==> OkRestrictions(xs[i..])
      {
        NextRestriction(xs, i);
        Assoc(Contents(), EncRestriction(xs[i]), EncRestrictions(xs[i + 1..]));
        ok := PushRestriction(xs[i]);
        if !ok { return; }
      }
      NextRestriction(xs, |xs|);
      assert xs[0..] == xs && Contents() + [] == Contents();
    }

    /** The property values of a comment restriction behind their one-byte count. */
    method PushCommentValues(xs: seq<TaggedPropval>) returns (ok: bool)
      requires Valid() && |[|xs| % 0x100] + EncTaggeds(xs)| < 0x8000_0000
      modifies this`data, this`allocSize, this`offset, data
      ensures Pushed(ok, 0 < |xs| < 0x100 && OkTaggeds(xs), [|xs| % 0x100] + EncTaggeds(xs))
      decreases xs, 0
    {
      hide U16, U32, Contents, Valid, Count16, Count32;
      hide EncTagged, EncTaggeds, OkTagged, OkTaggeds;
      if |xs| == 0 || |xs| >= 0x100 { return false; }
      FittingCount(xs);
      ghost var c, e := Contents(), [|xs| % 0x100] + EncTaggeds(xs);
      ok := PushUint8(|xs|);
      if !ok { return; }
      Assoc(c, [|xs|], EncTaggeds(xs));
      for i := 0 to |xs|
        invariant Midway(EncTaggeds(xs[i..]), e)
        invariant OkTaggeds(xs) <==> OkTaggeds(xs[i..])
      {
        NextTagged(xs, i);
        Assoc(Contents(), EncTagged(xs[i]), EncTaggeds(xs[i + 1..]));
        ok := PushTagged(xs[i]);
        if !ok { return; }
      }
      NextTagged(xs, |xs|);
      assert xs[0..] == xs && Contents() + [] == Contents();
    }

    /** The property values of a recipient block behind their two-byte count. */
    method PushRecipientValues(xs: seq<TaggedPropval>) returns (ok: bool)
      requires Valid() && |Count16(xs) + EncTaggeds(xs)| < 0x8000_0000
      modifies this`data, this`allocSize, this`offset, data
      ensures Pushed(ok, 0 < |xs| < 0x1_0000 && OkTaggeds(xs), Count16(xs) + EncTaggeds(xs))
      decreases xs, 0
    {
      hide U16, U32, Contents, Valid, Count16, Count32;
      hide EncTagged, EncTaggeds, OkTagged, OkTaggeds;
      if |xs| == 0 || |xs| >= 0x1_0000 { return false; }
      FittingCount(xs);
      ghost var c, e := Contents(), Count16(xs) + EncTaggeds(xs);
      ok := PushUint16(|xs|);
      if !ok { return; }
      Assoc(c, U16(|xs|), EncTaggeds(xs));
      for i := 0 to |xs|
        invariant Midway(EncTaggeds(xs[i..]), e)
        invariant OkTaggeds(xs) <==> OkTaggeds(xs[i..])
      {
        NextTagged(xs, i);
        Assoc(Contents(), EncTagged(xs[i]), EncTaggeds(xs[i + 1..]));
        ok := PushTagged(xs[i]);
        if !ok { return; }
      }
      NextTagged(xs, |xs|);
      assert xs[0..] == xs && Contents() + [] == Contents();
    }

    /** ext_pack_push_rule_actions */
    method PushRuleActions(xs: seq<ActionBlock>) returns (ok: bool)
      requires Valid() && |EncValue(Rule(xs))| < 0x8000_0000
      modifies this`data, this`allocSize, this`offset, data
      ensures Pushed(ok, OkValue(Rule(xs)), EncValue(Rule(xs)))
      decreases xs, 0
    {
      hide U16, U32, Contents, Valid, Count16, Count32;
      hide EncAction, EncActions, OkAction, OkActions;
      if |xs| == 0 || |xs| >= 0x1_0000 { return false; }
      FittingCount(xs);
      ghost var c, e := Contents(), EncValue(Rule(xs));
      ok := PushUint16(|xs|);
      if !ok { return; }
      Assoc(c, U16(|xs|), EncActions(xs));
      for i := 0 to |xs|
        invariant Midway(EncActions(xs[i..]), e)
        invariant OkActions(xs) <==> OkActions(xs[i..])
      {
        NextAction(xs, i);
        Assoc(Contents(), EncAction(xs[i]), EncActions(xs[i + 1..]));
        ok := PushAction(xs[i]);
        if !ok { return; }
      }
      NextAction(xs, |xs|);
      assert xs[0..] == xs && Contents() + [] == Contents();
    }

    /** ext_pack_push_forwarddelegate_action */
    method PushRecipients(xs: seq<RecipientBlock>) returns (ok: bool)
      requires Valid() && |EncData(ForwardDelegate(xs))| < 0x8000_0000
      modifies this`data, this`allocSize, this`offset, data
      ensures Pushed(ok, OkData(ForwardDelegate(xs)), EncData(ForwardDelegate(xs)))
      decreases xs, 0
    {
      hide U16, U32, Contents, Valid, Count16, Count32;
      hide EncRecipient, EncRecipients, OkRecipient, OkRecipients;
      if |xs| == 0 || |xs| >= 0x1_0000 { return false; }
      FittingCount(xs);
      ghost var c, e := Contents(), EncData(ForwardDelegate(xs));
      ok := PushUint16(|xs|);
      if !ok { return; }
      Assoc(c, U16(|xs|), EncRecipients(xs));
      for i := 0 to |xs|
        invariant Midway(EncRecipients(xs[i..]), e)
        invariant OkRecipients(xs) <==> OkRecipients(xs[i..])
      {
        NextRecipient(xs, i);
        Assoc(Contents(), EncRecipient(xs[i]), EncRecipients(xs[i + 1..]));
        ok := PushRecipient(xs[i]);
        if !ok { return; }
      }
      NextRecipient(xs, |xs|);
      assert xs[0..] == xs && Contents() + [] == Contents();
    }

    method PushRecipient(r: RecipientBlock) returns (ok: bool)
      requires Valid() && |EncRecipient(r)| < 0x8000_0000
      modifies this`data, this`allocSize, this`offset, data
      ensures Pushed(ok, OkRecipient(r), EncRecipient(r))
      decreases r, 0
    {
      hide Contents, Valid, Count16;
      if |r.propvals| == 0 { return false; }
      Assoc(Contents(), [r.reserved], Count16(r.propvals) + EncTaggeds(r.propvals));
      ok := PushUint8(r.reserved);
      if !ok { return; }
      ok := PushRecipientValues(r.propvals);
    }

    /** The type byte, then the body the type calls for. */
    method PushRestriction(r: Restriction) returns (ok: bool)
      requires Valid() && |EncRestriction(r)| < 0x8000_0000
      modifies this`data, this`allocSize, this`offset, data
      ensures Pushed(ok, OkRestriction(r), EncRestriction(r))
      decreases r, 2
    {
      hide U32, Contents, Valid, Count32;
      ghost var c := Contents();
      ok := PushUint8(TypeByte(r));
      if !ok { return; }
      Assoc(c, [TypeByte(r)], EncBody(r));
      ok := PushBody(r);
    }

    method PushBody(r: Restriction) returns (ok: bool)
      requires Valid() && |EncBody(r)| < 0x8000_0000
      modifies this`data, this`allocSize, this`offset, data
      ensures Pushed(ok, OkRestriction(r), EncBody(r))
      decreases r, 1
    {
      hide U32, Contents, Valid, Count32;
      match r
      case And(rs) => ok := PushRestrictions(rs);
      case Or(rs) => ok := PushRestrictions(rs);
      case Not(res) => ok := PushRestriction(res);
      case Content(fuzzy, tag, pv) => ok := PushContent(fuzzy, tag, pv);
      case Property(relop, tag, pv) => ok := PushProperty(relop, tag, pv);
      case PropCompare(relop, a, b) => ok := PushFlat(relop, a, b);
      case BitMask(relop, a, b) => ok := PushFlat(relop, a, b);
      case Size(relop, a, b) => ok := PushFlat(relop, a, b);
      case Exist(tag) => ok := PushUint32(tag);
      case SubObj(sub, res) => ok := PushNumbered(sub, res);
      case Comment(pvs, opt) => ok := PushComment(pvs, opt);
      case Count(n, res) => ok := PushNumbered(n, res);
      case NullRes =>
        WithinLimit();
        ok := true;
      case Unknown(_) => return false;
    }

    /** The body of a sub-object or count restriction. */
    method PushNumbered(n: uint32, res: Restriction) returns (ok: bool)
      requires Valid() && |U32(n) + EncRestriction(res)| < 0x8000_0000
      modifies this`data, this`allocSize, this`offset, data
      ensures Pushed(ok, OkRestriction(res), U32(n) + EncRestriction(res))
      decreases res, 3
    {
      hide U32, Contents, Valid;
      Assoc(Contents(), U32(n), EncRestriction(res));
      ok := PushUint32(n);
      if !ok { return; }
      ok := PushRestriction(res);
    }

    method PushContent(fuzzy: uint32, tag: uint32, pv: TaggedPropval) returns (ok: bool)
      requires Valid() && |U32(fuzzy) + (U32(tag) + EncTagged(pv))| < 0x8000_0000
      modifies this`data, this`allocSize, this`offset, data
      ensures Pushed(ok, OkTagged(pv), U32(fuzzy) + (U32(tag) + EncTagged(pv)))
      decreases pv, 1
    {
      hide U32, Contents, Valid, EncTagged, OkTagged;
      Assoc(Contents(), U32(fuzzy), U32(tag) + EncTagged(pv));
      ok := PushUint32(fuzzy);
      if !ok { return; }
      Assoc(Contents(), U32(tag), EncTagged(pv));
      ok := PushUint32(tag);
      if !ok { return; }
      ok := PushTagged(pv);
    }

    method PushProperty(relop: uint8, tag: uint32, pv: TaggedPropval) returns (ok: bool)
      requires Valid() && |[relop] + (U32(tag) + EncTagged(pv))| < 0x8000_0000
      modifies this`data, this`allocSize, this`offset, data
      ensures Pushed(ok, OkTagged(pv), [relop] + (U32(tag) + EncTagged(pv)))
      decreases pv, 1
    {
      hide U32, Contents, Valid, EncTagged, OkTagged;
      Assoc(Contents(), [relop], U32(tag) + EncTagged(pv));
      ok := PushUint8(relop);
      if !ok { return; }
      Assoc(Contents(), U32(tag), EncTagged(pv));
      ok := PushUint32(tag);
      if !ok { return; }
      ok := PushTagged(pv);
    }

    method PushFlat(relop: uint8, a: uint32, b: uint32) returns (ok: bool)
      requires Valid()
      modifies this`data, this`allocSize, this`offset, data
      ensures Pushed(ok, true, [relop] + (U32(a) + U32(b)))
    {
      hide U32, Contents, Valid;
      ok := PushUint8(relop);
      if !ok { return; }
      ok := PushUint32(a);
      if !ok { return; }
      ok := PushUint32(b);
    }

    method PushComment(pvs: seq<TaggedPropval>, opt: Option<Restriction>) returns (ok: bool)
      requires Valid() && |[|pvs| % 0x100] + (EncTaggeds(pvs) + EncOptional(opt))| < 0x8000_0000
      modifies this`data, this`allocSize, this`offset, data
      ensures Pushed(ok, OkRestriction(Comment(pvs, opt)), [|pvs| % 0x100] + (EncTaggeds(pvs) + EncOptional(opt)))
      decreases Comment(pvs, opt), 0
    {
      hide Contents, Valid;
      ghost var c, n: bytes := Contents(), [|pvs| % 0x100];
      ok := PushCommentValues(pvs);
      if !ok { return; }
      Assoc(n, EncTaggeds(pvs), EncOptional(opt));
      Assoc(c, n + EncTaggeds(pvs), EncOptional(opt));
      match opt
      case None => ok := PushUint8(0);
      case Some(res) =>
        Assoc(Contents(), [1], EncRestriction(res));
        ok := PushUint8(1);
        if !ok { return; }
        ok := PushRestriction(res);
    }

    method PushTagged(pv: TaggedPropval) returns (ok: bool)
      requires Valid() && |EncTagged(pv)| < 0x8000_0000
      modifies this`data, this`allocSize, this`offset, data
      ensures Pushed(ok, OkTagged(pv), EncTagged(pv))
      decreases pv, 0
    {
      hide U32, Contents, Valid;
      Assoc(Contents(), U32(pv.proptag), EncValue(pv.value));
      ok := PushUint32(pv.proptag);
      if !ok { return; }
      ok := PushValue(KindOfTag(pv.proptag), pv.value);
    }

    /** ext_pack_push_propval: the tag's type decides how the pointer is read. */
    method PushValue(kind: ValueKind, v: PropValue) returns (ok: bool)
      requires Valid() && |EncValue(v)| < 0x8000_0000
      modifies this`data, this`allocSize, this`offset, data
      ensures Pushed(ok, kind == KindOfValue(v) && OkValue(v), EncValue(v))
      decreases v, 0
    {
      hide U16, U32, U64, Contents, Valid, EncArray, EncGuid, EncActions;
      if kind != KindOfValue(v) { return false; }
      match v
      case Short(x) => ok := PushUint16(x);
      case Long(x) => ok := PushUint32(x);
      case Float(x) => ok := PushBytes(x);
      case Double(x) => ok := PushBytes(x);
      case Byte(x) => ok := PushUint8(x);
      case LongLong(x) => ok := PushUint64(x);
      case String(x) => ok := PushString(x);
      case GuidValue(x) => ok := PushGuid(x);
      case Res(res) => ok := PushRestriction(res);
      case Rule(bs) => ok := PushRuleActions(bs);
      case Binary(x) => ok := PushBinary(x);
      case ShortArray(xs) => ok := PushShortArray(xs);
      case LongArray(xs) => ok := PushLongArray(xs);
      case LongLongArray(xs) => ok := PushLongLongArray(xs);
      case StringArray(xs) => ok := PushStringArray(xs);
      case GuidArray(xs) => ok := PushGuidArray(xs);
      case BinaryArray(xs) => ok := PushBinaryArray(xs);
    }

    /** Reserves the length field, writes the block, then rewinds the offset to
        patch in how many bytes follow the field. */
    method PushAction(a: ActionBlock) returns (ok: bool)
      requires Valid() && |EncAction(a)| < 0x8000_0000
      modifies this`data, this`allocSize, this`offset, data
      ensures Pushed(ok, OkAction(a), EncAction(a))
      decreases a, 1
    {
      hide U16, U32, EncAfterLength, OkAction;
      ghost var c, tail := Contents(), EncAfterLength(a);
      var start := offset;
      ok := Advance(2);
      if !ok { return; }
      ghost var hole := Contents()[start..];
      assert Contents() == c + hole;
      ok := PushAfterLength(a);
      if !ok { return; }
      var end := offset;
      Patch16(start, (end - (start + 2)) % 0x1_0000);
      PatchedContents(c, hole, U16(LengthField(a)), tail);
    }

    /** Writes a field at an earlier offset, and puts the offset back. */
    method Patch16(at: nat, v: uint16)
      requires Valid() && at + 2 <= offset
      modifies this`data, this`allocSize, this`offset, data
      ensures Valid() && data == old(data) && offset == old(offset)
      ensures Contents() == Patched(old(Contents()), at, U16(v))
    {
      hide U16;
      var end := offset;
      ghost var c, was := Contents(), data[..];
      offset := at;
      var ok := PushUint16(v);
      offset := end;
      assert c == was[..end] && data[..at + 2] == was[..at] + U16(v);
      SplitAt(data[..], was, at + 2, end);
    }

    method Patch8(at: nat, v: uint8)
      requires Valid() && at + 1 <= offset
      modifies this`data, this`allocSize, this`offset, data
      ensures Valid() && data == old(data) && offset == old(offset)
      ensures Contents() == Patched(old(Contents()), at, [v])
    {
      var end := offset;
      ghost var c, was := Contents(), data[..];
      offset := at;
      var ok := PushUint8(v);
      offset := end;
      assert c == was[..end] && data[..at + 1] == was[..at] + [v];
      SplitAt(data[..], was, at + 1, end);
    }

    method PushAfterLength(a: ActionBlock) returns (ok: bool)
      requires Valid() && |EncAfterLength(a)| < 0x8000_0000
      modifies this`data, this`allocSize, this`offset, data
      ensures Pushed(ok, OkAction(a), EncAfterLength(a))
      decreases a, 0
    {
      hide U32, Contents, Valid;
      Assoc(Contents(), [a.opcode], U32(a.flavor) + (U32(a.flags) + EncData(a.data)));
      ok := PushUint8(a.opcode);
      if !ok { return; }
      Assoc(Contents(), U32(a.flavor), U32(a.flags) + EncData(a.data));
      ok := PushUint32(a.flavor);
      if !ok { return; }
      Assoc(Contents(), U32(a.flags), EncData(a.data));
      ok := PushUint32(a.flags);
      if !ok { return; }
      ok := PushData(KindOfAction(a.opcode), a.length, a.data);
    }

    method PushData(kind: ActionKind, length: uint16, d: ActionData) returns (ok: bool)
      requires Valid() && |EncData(d)| < 0x8000_0000
      modifies this`data, this`allocSize, this`offset, data
      ensures Pushed(ok, kind == KindOfData(d) && OkData(d) &&
                         (d.Defer? ==> |d.payload| == DeferSize(length)), EncData(d))
      decreases d, 0
    {
      hide U32, Contents, Valid, EncBinary, EncGuid, Count16;
      if kind != KindOfData(d) { return false; }
      if d.MoveCopy? { BinarySize(d.storeEid); BinarySize(d.folderEid); }
      if d.Reply? { BinarySize(d.messageEid); }
      match d
      case MoveCopy(store, folder) =>
        Assoc(Contents(), EncBinary(store), EncBinary(folder));
        ok := PushBinary(store);
        if !ok { return; }
        ok := PushBinary(folder);
      case Reply(eid, guid) =>
        Assoc(Contents(), EncBinary(eid), EncGuid(guid));
        ok := PushBinary(eid);
        if !ok { return; }
        ok := PushGuid(guid);
      case Defer(payload) =>
        if |payload| != DeferSize(length) { return false; }
        ok := PushBytes(payload);
      case Bounce(code) => ok := PushUint32(code);
      case ForwardDelegate(rs) => ok := PushRecipients(rs);
      case Tag(pv) => ok := PushTagged(pv);
      case NoData =>
        WithinLimit();
        ok := true;
    }

    method PushPropertyName(p: PropName) returns (ok: bool)
      requires Valid() && |EncName(p)| < 0x8000_0000
      modifies this`data, this`allocSize, this`offset, data
      ensures Pushed(ok, Representable(p), EncName(p))
    {
      hide Contents, Valid, EncGuid, EncPayload;
      if p.Bare? && p.kind <= 1 { return false; }
      ghost var c := Contents();
      ok := PushUint8(KindByte(p));
      if !ok { return; }
      Assoc(c, [KindByte(p)], EncGuid(p.guid) + EncPayload(p));
      Assoc(Contents(), EncGuid(p.guid), EncPayload(p));
      ok := PushGuid(p.guid);
      if !ok { return; }
      ok := PushPayload(p);
    }

    /** What follows the GUID. */
    method PushPayload(p: PropName) returns (ok: bool)
      requires Valid() && |EncPayload(p)| < 0x8000_0000 && (p.Bare? ==> p.kind > 1)
      modifies this`data, this`allocSize, this`offset, data
      ensures Pushed(ok, Representable(p), EncPayload(p))
    {
      hide U32, Contents, Valid, EncString;
      match p
      case Lid(_, lid) => ok := PushUint32(lid);
      case Named(_, name) =>
        StringSize(name);
        ok := PushSizedName(name);
      case Bare(_, _) =>
        WithinLimit();
        ok := true;
    }

    /** Reserves the size byte, writes the name, then patches the size in. */
    method PushSizedName(name: bytes) returns (ok: bool)
      requires Valid() && |name| < 0x7fff_fffe
      modifies this`data, this`allocSize, this`offset, data
      ensures Pushed(ok, 0 !in name, [(|name| + 1) % 0x100] + EncString(name))
    {
      hide EncString;
      StringSize(name);
      ghost var c, tail := Contents(), EncString(name);
      var start := offset;
      ok := Advance(1);
      if !ok { return; }
      ghost var hole := Contents()[start..];
      assert Contents() == c + hole;
      ok := PushString(name);
      if !ok { return; }
      var end := offset;
      Patch8(start, (end - (start + 1)) % 0x100);
      PatchedContents(c, hole, [(|name| + 1) % 0x100], tail);
    }

    method PushPropNames(xs: seq<PropName>) returns (ok: bool)
      requires Valid() && |EncNameArray(xs)| < 0x8000_0000
      modifies this`data, this`allocSize, this`offset, data
      ensures Pushed(ok, |xs| < 0x1_0000 && forall p | p in xs :: Representable(p), EncNameArray(xs))
    {
      hide U16, Contents, Valid, Count16, EncName, Representable;
      if |xs| >= 0x1_0000 { return false; }
      FittingCount(xs);
      ghost var c, e := Contents(), Count16(xs) + EncNames(xs);
      ok := PushUint16(|xs|);
      if !ok { return; }
      Assoc(c, U16(|xs|), EncNames(xs));
      for i := 0 to |xs|
        invariant Midway(EncNames(xs[i..]), e)
        invariant forall p | p in xs[..i] :: Representable(p)
      {
        assert xs[i..][0] == xs[i] && xs[i..][1..] == xs[i + 1..];
        Assoc(Contents(), EncName(xs[i]), EncNames(xs[i + 1..]));
        ok := PushPropertyName(xs[i]);
        if !ok { return; }
      }
      assert xs[|xs|..] == [] && Contents() + [] == Contents();
    }
  }

  /** The bytes c with those from at on overwritten. */
  function Patched(c: bytes, at: nat, field: bytes): bytes
    requires at + |field| <= |c|
  {
    c[..at] + field + c[at + |field|..]
  }

  /** Overwriting the reserved bytes of a finished encoding with a field of the same size. */
  lemma PatchedContents(c: bytes, hole: bytes, field: bytes, tail: bytes)
    requires |hole| == |field|
    ensures Patched(c + hole + tail, |c|, field) == c + (field + tail)
  {
    assert (c + hole + tail)[..|c|] == c && (c + hole + tail)[|c| + |hole|..] == tail;
  }

  /** Two buffers that agree from k on. */
  lemma SplitAt(a: bytes, b: bytes, k: nat, end: nat)
    requires k <= end <= |a| == |b| && a[k..] == b[k..]
    ensures a[..end] == a[..k] + b[..end][k..]
  {
    assert a[..end] == a[..k] + a[k..][..end - k] && b[..end][k..] == b[k..][..end - k];
  }
}
