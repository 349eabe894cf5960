/** What the round trips and the pull contracts imply about whole encodings. */
module CodecLaws {
  import opened Bytes
  import opened MapiTypes
  import opened Options
  import opened Wire
  import opened Parse
  import opened RoundTrip
  import opened Exact

  /** No encoding is a proper prefix of another: whatever follows, the reader
      can tell where a value ends and which value it was. */
  lemma PropvalsArePrefixFree(a: TaggedPropval, b: TaggedPropval, t: bytes, u: bytes)
    requires OkTagged(a) && OkTagged(b)
    requires EncTagged(a) + t == EncTagged(b) + u
    ensures NormTagged(a) == NormTagged(b) && EncTagged(a) == EncTagged(b) && t == u
  {
    TaggedRoundTrip(a, t);
    TaggedRoundTrip(b, u);
  }

  lemma RestrictionsArePrefixFree(a: Restriction, b: Restriction, t: bytes, u: bytes)
    requires OkRestriction(a) && OkRestriction(b)
    requires EncRestriction(a) + t == EncRestriction(b) + u
    ensures NormRestriction(a) == NormRestriction(b) && EncRestriction(a) == EncRestriction(b) && t == u
  {
    RestrictionRoundTrip(a, t);
    RestrictionRoundTrip(b, u);
  }

  lemma RuleActionsArePrefixFree(a: seq<ActionBlock>, b: seq<ActionBlock>, t: bytes, u: bytes)
    requires OkValue(Rule(a)) && OkValue(Rule(b))
    requires EncValue(Rule(a)) + t == EncValue(Rule(b)) + u
    ensures NormActions(a) == NormActions(b) && EncValue(Rule(a)) == EncValue(Rule(b)) && t == u
  {
    RuleRoundTrip(a, t);
    RuleRoundTrip(b, u);
    assert EncValue(Rule(a)) == Count16(NormActions(a)) + EncActions(NormActions(a));
    assert EncValue(Rule(b)) == Count16(NormActions(b)) + EncActions(NormActions(b));
  }

  /** Re-encoding what was pulled from arbitrary bytes: the push succeeds, writes
      as many bytes as the pull consumed, and pulling them gives the same value up
      to the action blocks' length fields; a second round changes nothing. */
  lemma ReencodingIsStable(s: bytes, t: bytes)
    requires DecTagged(s).Ok?
    ensures var r := DecTagged(s);
            && OkTagged(r.value)
            && |EncTagged(r.value)| == |s| - |r.rest|
            && DecTagged(EncTagged(r.value) + t) == Ok(NormTagged(r.value), t)
            && EncTagged(NormTagged(r.value)) == EncTagged(r.value)
            && NormTagged(NormTagged(r.value)) == NormTagged(r.value)
  {
    var v := DecTagged(s).value;
    TaggedRoundTrip(v, t);
    TaggedRoundTrip(NormTagged(v), t);
  }

  /** The bytes themselves come back exactly when two things that pull does not look at are
      as push writes them: every presence byte is 0 or 1, and every length field of an action
      block, but for deferred actions, counts the bytes behind it. */
  lemma ReencodingIsExact(s: bytes)
    requires DecTagged(s).Ok?
    ensures var r := DecTagged(s);
            EncTagged(r.value) + r.rest == s <==> FaithfulTagged(s)
  {
    TaggedExact(s);
  }

  lemma RestrictionReencodingIsExact(s: bytes)
    requires DecRestriction(s).Ok?
    ensures var r := DecRestriction(s);
            EncRestriction(r.value) + r.rest == s <==> FaithfulRestriction(s)
  {
    RestrictionExact(s);
  }

  lemma RuleReencodingIsExact(s: bytes)
    requires DecRuleActions(s).Ok?
    ensures var r := DecRuleActions(s);
            EncValue(Rule(r.value)) + r.rest == s <==> FaithfulRuleActions(s)
  {
    RuleActionsExact(s);
  }

  /** Whatever the presence byte of a comment restriction, unless it is 0, pull takes the
      restriction behind it, and push writes it back behind a 1. */
  lemma PresentFlagIsRewritten(pvs: seq<TaggedPropval>, res: Restriction, flag: uint8, t: bytes)
    requires OkRestriction(Comment(pvs, Some(res))) && flag != 0
    ensures var s := Flagged(pvs, res, flag) + t;
            var r := DecRestriction(s);
            && r == Ok(NormRestriction(Comment(pvs, Some(res))), t)
            && EncRestriction(r.value) == Flagged(pvs, res, 1)
            && (EncRestriction(r.value) + t == s <==> flag == 1)
  {
    hide EncRestriction, DecRestriction, NormRestriction, Flagged, OkRestriction;
    FlaggedIsPulled(pvs, res, flag, t);
    WithOne(pvs, res);
    FlagShows(pvs, res, flag, 1, t);
  }

  lemma FlaggedIsPulled(pvs: seq<TaggedPropval>, res: Restriction, flag: uint8, t: bytes)
    requires OkRestriction(Comment(pvs, Some(res))) && flag != 0
    ensures DecRestriction(Flagged(pvs, res, flag) + t) == Ok(NormRestriction(Comment(pvs, Some(res))), t)
  {
    hide PullUint8, EncTaggeds, EncRestriction, DecRestriction, NormTaggeds, NormOptional, DecComment;
    var e := [|pvs| as uint8] + (EncTaggeds(pvs) + ([flag] + EncRestriction(res)));
    Field8(0x0a, e, t);
    TypeFirst(Flagged(pvs, res, flag) + t);
    FlaggedComment(pvs, res, flag, t);
    NormSome(res);
  }

  lemma FlaggedComment(pvs: seq<TaggedPropval>, res: Restriction, flag: uint8, t: bytes)
    requires OkRestriction(Comment(pvs, Some(res))) && flag != 0
    ensures DecComment([|pvs| as uint8] + (EncTaggeds(pvs) + ([flag] + EncRestriction(res))) + t) ==
            Ok(Comment(NormTaggeds(pvs), Some(NormRestriction(res))), t)
  {
    hide PullUint8, EncTaggeds, DecTaggeds, DecOptional, NormTaggeds, EncRestriction, NormRestriction;
    var n, e := |pvs| as uint8, [flag] + EncRestriction(res);
    Field8(n, EncTaggeds(pvs) + e, t);
    Assoc(EncTaggeds(pvs), e, t);
    TaggedsRoundTrip(pvs, e + t);
    AnyFlag(res, flag, t);
  }

  /** A comment restriction's encoding with any byte for presence. */
  function Flagged(pvs: seq<TaggedPropval>, res: Restriction, flag: uint8): bytes {
    [0x0a] + ([|pvs| % 0x100] + (EncTaggeds(pvs) + ([flag] + EncRestriction(res))))
  }

  lemma WithOne(pvs: seq<TaggedPropval>, res: Restriction)
    ensures EncRestriction(Comment(pvs, Some(res))) == Flagged(pvs, res, 1)
  {
    hide EncTaggeds;
    assert EncOptional(Some(res)) == [1] + EncRestriction(res);
  }

  lemma NormSome(res: Restriction)
    ensures NormOptional(Some(res)) == Some(NormRestriction(res))
  {
    hide NormRestriction;
  }

  lemma AnyFlag(res: Restriction, flag: uint8, t: bytes)
    requires OkRestriction(res) && flag != 0
    ensures DecOptional([flag] + EncRestriction(res) + t) == Ok(Some(NormRestriction(res)), t)
  {
    hide PullUint8, EncRestriction, OkRestriction, NormRestriction, DecRestriction;
    Field8(flag, EncRestriction(res), t);
    RestrictionRoundTrip(res, t);
  }

  lemma FlagShows(pvs: seq<TaggedPropval>, res: Restriction, a: uint8, b: uint8, t: bytes)
    ensures Flagged(pvs, res, a) + t == Flagged(pvs, res, b) + t <==> a == b
  {
    hide EncTaggeds, EncRestriction;
    assert (Flagged(pvs, res, a) + t)[2 + |EncTaggeds(pvs)|] == a;
    assert (Flagged(pvs, res, b) + t)[2 + |EncTaggeds(pvs)|] == b;
  }

  /** For one: res_present 2 in front of a null restriction. */
  lemma OddFlagIsRewritten()
    ensures var s := [0x0a, 1, 0x0b, 0, 0, 0, 7, 2, 0xff];
            var r := DecRestriction(s);
            && r == Ok(Comment([TaggedPropval(0x000b, Byte(7))], Some(NullRes)), [])
            && EncRestriction(r.value) == s[..7] + [1, 0xff]
  {
    hide DecRestriction, EncTaggeds, OkTaggeds, NormTaggeds, EncOptional;
    var s: bytes := [0x0a, 1, 0x0b, 0, 0, 0, 7, 2, 0xff];
    var pvs := [TaggedPropval(0x000b, Byte(7))];
    OneByteValue();
    assert EncRestriction(NullRes) == [0xff] && NormOptional(Some(NullRes)) == Some(NullRes);
    assert Flagged(pvs, NullRes, 2) + [] == s;
    PresentFlagIsRewritten(pvs, NullRes, 2, []);
  }

  lemma OneByteValue()
    ensures var pvs := [TaggedPropval(0x000b, Byte(7))];
            OkTaggeds(pvs) && NormTaggeds(pvs) == pvs && EncTaggeds(pvs) == [0x0b, 0, 0, 0, 7]
  {
    var pv := TaggedPropval(0x000b, Byte(7));
    assert KindOfTag(0x000b) == KByte && [pv][1..] == [] && OkTagged(pv) && NormTagged(pv) == pv;
    assert EncTagged(pv) == [0x0b, 0, 0, 0, 7] && EncTaggeds([pv]) == EncTagged(pv) + [];
  }

  /** Whatever an action's length field says, unless the action is deferred, pull takes the
      action, and push writes it back with its own count. */
  lemma ActionLengthIsRewritten(a: ActionBlock, length: uint16, t: bytes)
    requires OkAction(a) && !a.data.Defer?
    ensures var s := U16(length) + EncAfterLength(a) + t;
            var r := DecAction(s);
            && r == Ok(NormAction(a).(length := length), t)
            && EncAction(r.value) == EncAction(a)
            && (EncAction(r.value) + t == s <==> length == LengthField(a))
  {
    hide U16, U32, PullUint8, PullUint16, PullUint32, EncData, DecData, OkData, NormData;
    var d := EncData(a.data);
    Field16(length, [a.opcode] + (U32(a.flavor) + (U32(a.flags) + d)), t);
    Field8(a.opcode, U32(a.flavor) + (U32(a.flags) + d), t);
    Field32(a.flavor, U32(a.flags) + d, t);
    Field32(a.flags, d, t);
    DataRoundTrip(a.data, length, t);
    Starts16(LengthField(a), length, EncAfterLength(a), t);
  }

  /** The same bytes behind two 16-bit fields are different bytes unless the fields are equal. */
  lemma Starts16(a: uint16, b: uint16, e: bytes, t: bytes)
    ensures U16(a) + e + t == U16(b) + e + t <==> a == b
  {
    hide U16;
    Field16(a, e, t);
    Field16(b, e, t);
  }

  /** An action without data whose length field says 5, not 9. */
  lemma ShortActionIsRewritten()
    ensures var s := [5, 0, 10, 0, 0, 0, 0, 0, 0, 0, 0];
            var r := DecAction(s);
            && r == Ok(ActionBlock(5, 10, 0, 0, NoData), [])
            && EncAction(r.value) == [9, 0] + s[2..]
  {
    hide DecAction, OkRestriction, OkTagged, OkRecipients;
    var s: bytes := [5, 0, 10, 0, 0, 0, 0, 0, 0, 0, 0];
    var a := ActionBlock(9, 10, 0, 0, NoData);
    assert OkAction(a) && U32(0) == [0, 0, 0, 0];
    assert EncAfterLength(a) == s[2..] && U16(5) + EncAfterLength(a) + [] == s;
    assert LengthField(a) == 9 && NormAction(a) == a;
    ActionLengthIsRewritten(a, 5, []);
  }
}
