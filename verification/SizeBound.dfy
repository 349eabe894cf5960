/** How much a pull builds: nodes, array elements and payload bytes together
    never outnumber the bytes it consumed, whatever the count fields claimed. */
module SizeBound {
  import opened Bytes
  import opened MapiTypes
  import opened Options
  import opened Wire
  import opened Parse

  function WeighSeq<T>(weigh: T -> nat, xs: seq<T>): nat {
    if xs == [] then 0 else weigh(xs[0]) + WeighSeq(weigh, xs[1..])
  }

  lemma {:induction false} WeighSeqFits<T>(weigh: T -> nat, enc: T -> bytes, xs: seq<T>)
    requires forall x :: weigh(x) <= |enc(x)|
    ensures WeighSeq(weigh, xs) <= |EncSeq(enc, xs)|
  {
    if xs != [] { WeighSeqFits(weigh, enc, xs[1..]); }
  }

  function WeighRestriction(r: Restriction): (w: nat)
    ensures 1 <= w <= |EncRestriction(r)|
    decreases r, 0
  {
    match r
    case And(rs) => 1 + WeighRestrictions(rs)
    case Or(rs) => 1 + WeighRestrictions(rs)
    case Not(res) => 1 + WeighRestriction(res)
    case Content(_, _, pv) => 1 + WeighTagged(pv)
    case Property(_, _, pv) => 1 + WeighTagged(pv)
    case SubObj(_, res) => 1 + WeighRestriction(res)
    case Comment(pvs, opt) => 1 + WeighTaggeds(pvs) + WeighOptional(opt)
    case Count(_, res) => 1 + WeighRestriction(res)
    case _ => 1
  }

  function WeighOptional(opt: Option<Restriction>): (w: nat)
    ensures w <= |EncOptional(opt)|
    decreases opt, 0
  {
    if opt.None? then 0 else WeighRestriction(opt.value)
  }

  function WeighRestrictions(rs: seq<Restriction>): (w: nat)
    ensures |rs| <= w <= |EncRestrictions(rs)|
    decreases rs, 0
  {
    if rs == [] then 0 else WeighRestriction(rs[0]) + WeighRestrictions(rs[1..])
  }

  function WeighTagged(pv: TaggedPropval): (w: nat)
    ensures 1 <= w <= |EncTagged(pv)|
    decreases pv, 0
  {
    1 + WeighValue(pv.value)
  }

  function WeighTaggeds(pvs: seq<TaggedPropval>): (w: nat)
    ensures |pvs| <= w <= |EncTaggeds(pvs)|
    decreases pvs, 0
  {
    if pvs == [] then 0 else WeighTagged(pvs[0]) + WeighTaggeds(pvs[1..])
  }

  function WeighString(b: bytes): nat { 1 + |b| }

  /** Beside the four type bytes of its tag a scalar costs nothing more. */
  function WeighValue(v: PropValue): (w: nat)
    ensures w <= |EncValue(v)|
    decreases v, 0
  {
    match v
    case String(chars) => WeighString(chars)
    case Res(res) => WeighRestriction(res)
    case Rule(blocks) => WeighActions(blocks)
    case Binary(bin) => WeighString(bin)
    case _ => WeighArray(v)
  }

  /** Scalars, and one for every array element besides its own payload. */
  function WeighArray(v: PropValue): (w: nat)
    ensures w <= |EncValue(v)|
  {
    match v
    case ShortArray(xs) => WeighSeqFits(x => 1, U16, xs); WeighSeq(x => 1, xs)
    case LongArray(xs) => WeighSeqFits(x => 1, U32, xs); WeighSeq(x => 1, xs)
    case LongLongArray(xs) => WeighSeqFits(x => 1, U64, xs); WeighSeq(x => 1, xs)
    case _ => WeighBlobArray(v)
  }

  function WeighBlobArray(v: PropValue): (w: nat)
    ensures w <= |EncValue(v)|
  {
    match v
    case GuidArray(xs) => WeighSeqFits(x => 1, EncGuid, xs); WeighSeq(x => 1, xs)
    case StringArray(xs) => WeighSeqFits(WeighString, EncString, xs); WeighSeq(WeighString, xs)
    case BinaryArray(xs) => WeighSeqFits(WeighString, EncBinary, xs); WeighSeq(WeighString, xs)
    case _ => 0
  }

  function WeighActions(bs: seq<ActionBlock>): (w: nat)
    ensures |bs| <= w <= |EncActions(bs)|
    decreases bs, 0
  {
    if bs == [] then 0 else WeighAction(bs[0]) + WeighActions(bs[1..])
  }

  function WeighAction(a: ActionBlock): (w: nat)
    ensures 1 <= w <= |EncAction(a)|
    decreases a, 0
  {
    1 + WeighData(a.data)
  }

  function WeighData(d: ActionData): (w: nat)
    ensures w <= |EncData(d)|
    decreases d, 0
  {
    match d
    case MoveCopy(store, folder) => WeighString(store) + WeighString(folder)
    case Reply(eid, _) => WeighString(eid)
    case Defer(payload) => |payload|
    case ForwardDelegate(rs) => WeighRecipients(rs)
    case Tag(pv) => WeighTagged(pv)
    case _ => 0
  }

  function WeighRecipients(rs: seq<RecipientBlock>): (w: nat)
    ensures |rs| <= w <= |EncRecipients(rs)|
    decreases rs, 0
  {
    if rs == [] then 0 else 1 + WeighTaggeds(rs[0].propvals) + WeighRecipients(rs[1..])
  }

  /** On arbitrary bytes: a successful pull consumed something, stayed inside the
      input, and built no more than it consumed. */
  lemma PullBuildsNoMoreThanItReads(s: bytes)
    ensures var r := DecRestriction(s); r.Ok? ==> |r.rest| < |s| && WeighRestriction(r.value) <= |s| - |r.rest|
    ensures var r := DecTagged(s); r.Ok? ==> |r.rest| < |s| && WeighTagged(r.value) <= |s| - |r.rest|
    ensures var r := DecRuleActions(s); r.Ok? ==> |r.rest| < |s| && WeighActions(r.value) <= |s| - |r.rest|
  {
    var r := DecRuleActions(s);
    if r.Ok? { assert WeighActions(r.value) <= |EncActions(r.value)| < |EncValue(Rule(r.value))|; }
  }

  // ----- every part has its weight -----

  /** A restriction is heavier than each of its parts, and a list weighs what its elements do. */
  lemma PartsWeigh(r: Restriction, i: nat)
    ensures (r.And? || r.Or?) && i < |r.children| ==>
              WeighRestriction(r) >= |r.children| + WeighRestriction(r.children[i])
    ensures r.Not? || r.SubObj? || r.Count? ==> WeighRestriction(r) == 1 + WeighRestriction(r.res)
    ensures r.Content? || r.Property? ==> WeighRestriction(r) == 2 + WeighValue(r.propval.value)
    ensures r.Comment? && i < |r.propvals| ==>
              WeighRestriction(r) >= |r.propvals| + 1 + WeighValue(r.propvals[i].value)
    ensures r.Comment? && r.optional.Some? ==>
              WeighRestriction(r) >= 1 + |r.propvals| + WeighRestriction(r.optional.value)
  {
    if (r.And? || r.Or?) && i < |r.children| { RestrictionsWeigh(r.children, i); }
    if r.Comment? && i < |r.propvals| { TaggedsWeigh(r.propvals, i); }
  }

  lemma {:induction false} RestrictionsWeigh(rs: seq<Restriction>, i: nat)
    requires i < |rs|
    ensures WeighRestrictions(rs) >= |rs| - 1 + WeighRestriction(rs[i])
  {
    hide EncRestriction, EncRestrictions, WeighRestriction;
    if i > 0 { RestrictionsWeigh(rs[1..], i - 1); }
  }

  lemma {:induction false} TaggedsWeigh(pvs: seq<TaggedPropval>, i: nat)
    requires i < |pvs|
    ensures WeighTaggeds(pvs) >= |pvs| - 1 + WeighTagged(pvs[i])
  {
    hide EncTagged, EncTaggeds, WeighTagged;
    if i > 0 { TaggedsWeigh(pvs[1..], i - 1); }
  }

  lemma ElementsWeigh(v: PropValue)
    ensures v.String? ==> WeighValue(v) == 1 + |v.chars|
    ensures v.Binary? ==> WeighValue(v) == 1 + |v.bin|
    ensures v.Res? ==> WeighValue(v) == WeighRestriction(v.res)
    ensures v.Rule? ==> WeighValue(v) >= |v.blocks|
    ensures v.ShortArray? ==> WeighValue(v) == |v.shorts|
    ensures v.LongArray? ==> WeighValue(v) == |v.longs|
    ensures v.LongLongArray? ==> WeighValue(v) == |v.longlongs|
    ensures v.GuidArray? ==> WeighValue(v) == |v.guids|
    ensures v.StringArray? ==> WeighValue(v) == |v.strings| + Total(v.strings)
    ensures v.BinaryArray? ==> WeighValue(v) == |v.bins| + Total(v.bins)
  {
    hide EncValue, WeighArray, EncRestriction, EncActions;
    ArraysWeigh(v);
  }

  lemma ArraysWeigh(v: PropValue)
    ensures v.ShortArray? ==> WeighArray(v) == |v.shorts|
    ensures v.LongArray? ==> WeighArray(v) == |v.longs|
    ensures v.LongLongArray? ==> WeighArray(v) == |v.longlongs|
    ensures v.GuidArray? ==> WeighArray(v) == |v.guids|
    ensures v.StringArray? ==> WeighArray(v) == |v.strings| + Total(v.strings)
    ensures v.BinaryArray? ==> WeighArray(v) == |v.bins| + Total(v.bins)
  {
    hide EncSeq, EncValue, WeighSeq, Total;
    match v
    case ShortArray(xs) => OnesWeigh(xs);
    case LongArray(xs) => OnesWeigh(xs);
    case LongLongArray(xs) => OnesWeigh(xs);
    case GuidArray(xs) => OnesWeigh(xs);
    case StringArray(xs) => StringsWeigh(xs);
    case BinaryArray(xs) => StringsWeigh(xs);
    case _ =>
  }

  /** The bytes of all strings together. */
  function Total(xs: seq<bytes>): nat { if xs == [] then 0 else |xs[0]| + Total(xs[1..]) }

  lemma {:induction false} OnesWeigh<T>(xs: seq<T>)
    ensures WeighSeq(x => 1, xs) == |xs|
  {
    if xs != [] { OnesWeigh(xs[1..]); }
  }

  lemma {:induction false} StringsWeigh(xs: seq<bytes>)
    ensures WeighSeq(WeighString, xs) == |xs| + Total(xs)
  {
    if xs != [] { StringsWeigh(xs[1..]); }
  }
}
