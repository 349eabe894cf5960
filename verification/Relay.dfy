/** transfer_response: a reply copied from a mail-index server to a client, however
    it is cut up on the way. */
module Relay {
  import opened Texts
  import opened LineReader

  const ROOM: nat := 257 * 1024
  const HEAD_LIMIT: nat := 36

  /** What the bytes read so far amount to. */
  datatype Verdict = Pending | Done | Fail

  /** The first line of a reply of many lines. */
  datatype Header = None | Bad | Refusal | Counted(lines: nat, at: nat)

  /** The CRLF pairs of t from a position on. */
  function Pairs(t: string, from: nat): nat
    decreases |t| - from
  {
    if from + 1 >= |t| then 0 else (if PairAt(t, from) then 1 else 0) + Pairs(t, from + 1)
  }

  /** The header search from position i on; atoi is the C library's. */
  function HeadFrom(atoi: string -> int, t: string, i: nat): (h: Header)
    ensures h.Counted? ==> 2 <= h.at <= |t| && h.at <= HEAD_LIMIT + 1 && t[h.at - 1] == '\n'
    decreases HEAD_LIMIT - i
  {
    if i + 1 >= |t| || i >= HEAD_LIMIT then None
    else if !PairAt(t, i) then HeadFrom(atoi, t, i + 1)
    else if Starts(t, "TRUE ") then
      assert forall j :: 0 <= j < 5 ==> t[j] == t[..5][j] && t[j] != '\r';
      var n := atoi(t[5..i]);
      if n < 0 then Bad else Counted(n, i + 2)
    else if Starts(t, "FALSE ") then Refusal
    else HeadFrom(atoi, t, i + 1)
  }

  function Judge(multi: bool, atoi: string -> int, t: string): Verdict {
    if multi then
      match HeadFrom(atoi, t, 0)
      case None => if |t| > 1024 then Fail else Pending
      case Bad => Fail
      case Refusal => Done
      case Counted(n, at) => if Pairs(t, at) >= n then Done else Pending
    else if EndsLine(t) then Done
    else if |t| >= ROOM then Fail
    else Pending
  }

  /** How much of the stream the first k reads have taken. */
  function Upto(cuts: seq<nat>, k: nat): nat
    requires k <= |cuts|
  {
    if k == 0 then 0 else cuts[k - 1]
  }

  function Last(cuts: seq<nat>): nat { Upto(cuts, |cuts|) }

  predicate PendsAt(multi: bool, atoi: string -> int, stream: string, n: nat) {
    n <= |stream| && Judge(multi, atoi, stream[..n]) == Pending
  }

  predicate StepAt(stream: string, sizes: seq<nat>, cuts: seq<nat>, k: nat)
    requires k < |cuts| <= |sizes|
  {
    Upto(cuts, k) < cuts[k] <= |stream| && cuts[k] - Upto(cuts, k) <= sizes[k]
  }

  /** Reads that get on, each taking at most what has arrived, and all but perhaps the
      last calling for more. */
  ghost predicate Reads(multi: bool, atoi: string -> int, stream: string, sizes: seq<nat>, cuts: seq<nat>) {
    && |cuts| <= |sizes| && Last(cuts) <= |stream|
    && (forall k :: 0 <= k < |cuts| ==> StepAt(stream, sizes, cuts, k))
    && (forall k :: 0 <= k < |cuts| - 1 ==> PendsAt(multi, atoi, stream, cuts[k]))
  }

  /** A transfer that read the stream in steps to the positions in cuts. It goes on as
      long as the bytes so far call for more and the socket delivers; with 0 it has
      written exactly what it has read, with -1 a part of it from the front. */
  ghost predicate Transferred(multi: bool, atoi: string -> int, stream: string, sizes: seq<nat>,
                              cuts: seq<nat>, r: int, written: string)
  {
    && Reads(multi, atoi, stream, sizes, cuts)
    && var t := stream[..Last(cuts)];
       if r == 0 then cuts != [] && Judge(multi, atoi, t) == Done && written == t
       else
         && r == -1 && written <= t
         && (cuts != [] ==> Judge(multi, atoi, t) != Done)
         && (|cuts| == |sizes| || sizes[|cuts|] == 0 || Last(cuts) == |stream|
             || (cuts != [] && Judge(multi, atoi, t) == Fail))
  }

  // ----- the code -----

  method TransferResponse(multi: bool, atoi: string -> int, stream: string, sizes: seq<nat>)
    returns (r: int, written: string, ghost cuts: seq<nat>)
    ensures Transferred(multi, atoi, stream, sizes, cuts, r, written)
    ensures (r == 0 || r == -1) && written <= stream
    ensures r == 0 ==> written != "" && Judge(multi, atoi, written) == Done
    ensures forall k :: 0 <= k < |cuts| ==>
              cuts[k] <= |stream| && (k < |cuts| - 1 ==> Judge(multi, atoi, stream[..cuts[k]]) == Pending)
  {
    hide Transferred, Judge;
    if multi {
      r, written, cuts := TransferLines(atoi, stream, sizes);
    } else {
      r, written, cuts := TransferLine(atoi, stream, sizes);
    }
    Outcome(multi, atoi, stream, sizes, cuts, r, written);
  }

  /** What the two results alone say. */
  lemma Outcome(multi: bool, atoi: string -> int, stream: string, sizes: seq<nat>, cuts: seq<nat>, r: int,
                written: string)
    requires Transferred(multi, atoi, stream, sizes, cuts, r, written)
    ensures (r == 0 || r == -1) && written <= stream
    ensures r == 0 ==> written != "" && Judge(multi, atoi, written) == Done
    ensures forall k :: 0 <= k < |cuts| ==>
              cuts[k] <= |stream| && (k < |cuts| - 1 ==> Judge(multi, atoi, stream[..cuts[k]]) == Pending)
  {
    hide Judge;
    forall k | 0 <= k < |cuts|
      ensures cuts[k] <= |stream| && (k < |cuts| - 1 ==> Judge(multi, atoi, stream[..cuts[k]]) == Pending)
    {
      assert StepAt(stream, sizes, cuts, k);
      assert k < |cuts| - 1 ==> PendsAt(multi, atoi, stream, cuts[k]);
    }
    if cuts != [] { assert StepAt(stream, sizes, cuts, |cuts| - 1); }
  }

  /** One read: n bytes from the stream go to the buffer at offset. */
  method Receive(buff: array<char>, offset: nat, stream: string, used: nat, size: nat) returns (n: nat)
    requires buff.Length == ROOM + 1 && offset <= ROOM && used <= |stream|
    modifies buff
    ensures n == Least(size, Least(ROOM - offset, |stream| - used))
    ensures buff[..offset + n] == old(buff[..offset]) + stream[used..used + n]
  {
    n := Least(size, Least(ROOM - offset, |stream| - used));
    var k := 0;
    while k < n
      invariant k <= n
      invariant forall j :: 0 <= j < offset ==> buff[j] == old(buff[j])
      invariant forall j :: offset <= j < offset + k ==> buff[j] == stream[used + j - offset]
    {
      buff[offset + k] := stream[used + k];
      k := k + 1;
    }
    assert buff[..offset] == old(buff[..offset]) && buff[offset..offset + n] == stream[used..used + n];
    assert buff[..offset + n] == buff[..offset] + buff[offset..offset + n];
  }

  /** Replies of one line are kept until they are whole. */
  method TransferLine(atoi: string -> int, stream: string, sizes: seq<nat>)
    returns (r: int, written: string, ghost cuts: seq<nat>)
    ensures Transferred(false, atoi, stream, sizes, cuts, r, written)
    ensures r == 0 ==> Judge(false, atoi, written) == Done
  {
    hide Reads, Judge, Transferred, Last, Underway, EndsLine;
    var buff := new char[ROOM + 1];
    var offset, i := 0, 0;
    cuts := [];
    NoCuts(false, atoi, stream, sizes);
    while i < |sizes|
      invariant i == |cuts| <= |sizes|
      invariant offset == Last(cuts) <= |stream| && offset < ROOM && buff[..offset] == stream[..offset]
      invariant Underway(false, atoi, stream, sizes, cuts)
    {
      var n := Receive(buff, offset, stream, offset, sizes[i]);
      if n == 0 { break; }
      OneCut(false, atoi, stream, sizes, cuts, offset + n);
      ghost var t := stream[..offset + n];
      Arrived(stream, offset, n, "", buff[..offset + n], stream[offset..offset + n]);
      assert "" + buff[..offset + n] == buff[..offset + n];
      offset, i, cuts := offset + n, i + 1, cuts + [offset + n];
      assert t == stream[..Last(cuts)];
      JudgeLine(atoi, t);
      LineEnd(buff, offset);
      if offset >= 2 && buff[offset - 2] == '\r' && buff[offset - 1] == '\n' {
        StopsDone(false, atoi, stream, sizes, cuts);
        return 0, buff[..offset], cuts;
      }
      if offset == ROOM { break; }
      Pends(false, atoi, stream, sizes, cuts);
    }
    StopsFailed(false, atoi, stream, sizes, cuts, "");
    return -1, "", cuts;
  }

  /** Replies of many lines are counted, and passed on whenever the buffer is full. */
  method TransferLines(atoi: string -> int, stream: string, sizes: seq<nat>)
    returns (r: int, written: string, ghost cuts: seq<nat>)
    ensures Transferred(true, atoi, stream, sizes, cuts, r, written)
    ensures r == 0 ==> Judge(true, atoi, written) == Done
  {
    hide Reads, Judge, Transferred, Last, Counting, Seam, Underway, Least;
    var buff := new char[ROOM + 1];
    var offset: nat, i: nat, count: nat, lastPos: nat, used: nat := 0, 0, 0, 0, 0;
    var lines := -1;
    ghost var t := "";
    written, cuts := "", [];
    NoCuts(true, atoi, stream, sizes);
    NoHead(atoi);
    while i < |sizes|
      invariant i == |cuts| <= |sizes| && used == Last(cuts) <= |stream| && offset < ROOM
      invariant t == stream[..used] == written + buff[..offset] && (lines == -1 ==> written == "")
      invariant Underway(true, atoi, stream, sizes, cuts) && Counting(atoi, t, lines, count, |written| + lastPos)
    {
      var n := ReceiveText(buff, offset, stream, used, sizes[i]);
      if n == 0 { break; }
      OneCut(true, atoi, stream, sizes, cuts, used + n);
      ghost var c := stream[used..used + n];
      Arrived(stream, used, n, written, buff[..offset + n], c);
      offset, used, i, cuts := offset + n, used + n, i + 1, cuts + [used + n];
      assert used == Last(cuts);
      var v;
      v, lines, count := Weigh(atoi, buff, offset, written, lines, lastPos, count, t, c);
      t := t + c;
      if v == Done {
        StopsDone(true, atoi, stream, sizes, cuts);
        return 0, written + buff[..offset], cuts;
      }
      if v == Fail { break; }
      Pends(true, atoi, stream, sizes, cuts);
      assert t == written + buff[..offset];
      if lines == -1 {
        StillSmall(atoi, t, count, |written| + lastPos);
      } else {
        ShiftedSeam(written, buff[..offset]);
        offset, lastPos, written := MakeRoom(buff, offset, written);
        assert t == written + buff[..offset] && |written| + lastPos == Seam(t);
      }
    }
    StopsFailed(true, atoi, stream, sizes, cuts, written);
    return -1, written, cuts;
  }

  lemma Arrived(stream: string, used: nat, n: nat, written: string, b: string, c: string)
    requires used + n <= |stream| && c == stream[used..used + n] && n <= |b|
    requires stream[..used] == written + b[..|b| - n] && b[|b| - n..] == c
    ensures stream[..used + n] == stream[..used] + c == written + b
  {
    assert written + b == written + (b[..|b| - n] + c);
  }

  method ReceiveText(buff: array<char>, offset: nat, stream: string, used: nat, size: nat) returns (n: nat)
    requires buff.Length == ROOM + 1 && offset <= ROOM && used <= |stream|
    modifies buff
    ensures n == Least(size, Least(ROOM - offset, |stream| - used)) <= size
    ensures used + n <= |stream| && offset + n <= ROOM && (n == 0 ==> size == 0 || offset == ROOM || used == |stream|)
    ensures buff[..offset + n] == old(buff[..offset]) + stream[used..used + n] && buff[offset + n] == '\0'
  {
    n := Receive(buff, offset, stream, used, size);
    ghost var text := buff[..offset + n];
    buff[offset + n] := '\0';
    assert buff[..offset + n] == text;
  }

  /** The header search and the count after a read: t was read before, c just now. */
  method Weigh(atoi: string -> int, buff: array<char>, offset: nat, written: string,
               lines0: int, lastPos: nat, count0: nat, ghost t: string, ghost c: string)
    returns (v: Verdict, lines: int, count: nat)
    requires buff.Length == ROOM + 1 && 0 < offset <= ROOM && buff[offset] == '\0'
    requires written + buff[..offset] == t + c && (lines0 == -1 ==> written == "")
    requires Counting(atoi, t, lines0, count0, |written| + lastPos) && |t| >= |written|
    ensures v == Judge(true, atoi, t + c) && (lines == -1 ==> lines0 == -1)
    ensures v.Pending? ==> Counting(atoi, t + c, lines, count, Seam(t + c))
  {
    hide Judge, HeadFrom, Pairs, Counting, Tallied;
    lines, count := lines0, count0;
    if lines == -1 {
      var h := FindHeader(atoi, buff, offset);
      assert buff[..offset] == t + c;
      JudgeHead(atoi, t + c);
      match h
      case None =>
        NoHeadYet(atoi, t + c);
        return if offset > 1024 then Fail else Pending, lines, count;
      case Bad => return Fail, lines, count;
      case Refusal => return Done, lines, count;
      case Counted(l, at) =>
        lines := l;
        count := CountPairs(buff, at, offset, 0);
        Found(atoi, t + c, l, at);
    } else {
      GoesOn(atoi, t, c, lines, count, |written| + lastPos);
      ShiftedPairs(written, buff[..offset], lastPos);
      count := CountPairs(buff, lastPos, offset, count);
    }
    JudgeCount(atoi, t + c, lines, count);
    if count >= lines { return Done, lines, count; }
    KeepsCounting(atoi, t + c, lines, count);
    return Pending, lines, count;
  }

  /** for (i=0; i<offset-1&&i<36; i++) */
  method FindHeader(atoi: string -> int, buff: array<char>, offset: nat) returns (h: Header)
    requires buff.Length == ROOM + 1 && offset <= ROOM
    ensures h == HeadFrom(atoi, buff[..offset], 0)
  {
    ghost var t := buff[..offset];
    var i := 0;
    while i + 1 < offset && i < HEAD_LIMIT
      invariant i <= HEAD_LIMIT && HeadFrom(atoi, t, i) == HeadFrom(atoi, t, 0)
    {
      if buff[i] == '\r' && buff[i + 1] == '\n' {
        Within(buff, offset);
        if offset >= 5 && buff[..5] == "TRUE " {
          TrueIsLong(t, i);
          var lines := atoi(buff[5..i]);
          return if lines < 0 then Bad else Counted(lines, i + 2);
        } else if offset >= 6 && buff[..6] == "FALSE " {
          return Refusal;
        }
      }
      i := i + 1;
    }
    return None;
  }

  lemma Within(buff: array<char>, offset: nat)
    requires offset <= buff.Length
    ensures forall a, b | 0 <= a <= b <= offset :: buff[..offset][a..b] == buff[a..b]
    ensures forall b | 0 <= b <= offset :: buff[..offset][..b] == buff[..b]
  {
  }

  lemma TrueIsLong(t: string, i: nat)
    requires PairAt(t, i) && Starts(t, "TRUE ")
    ensures 5 <= i
  {
    assert forall j :: 0 <= j < 5 ==> t[j] == t[..5][j] && t[j] != '\r';
  }

  /** The NUL behind the last byte keeps a trailing CR from being half of a pair. */
  method CountPairs(buff: array<char>, from: nat, offset: nat, sofar: nat) returns (count: nat)
    requires buff.Length == ROOM + 1 && from <= offset <= ROOM && buff[offset] == '\0'
    ensures count == sofar + Pairs(buff[..offset], from)
  {
    ghost var t := buff[..offset];
    count := sofar;
    var i := from;
    while i < offset
      invariant from <= i <= offset && count + Pairs(t, i) == sofar + Pairs(t, from)
    {
      if buff[i] == '\r' && buff[i + 1] == '\n' {
        assert i + 1 != offset;
        count := count + 1;
      }
      i := i + 1;
    }
  }

  /** Where to count from next; a full buffer is written out, but for a CR that may be
      the first half of a pair. */
  method MakeRoom(buff: array<char>, offset: nat, written: string) returns (kept: nat, lastPos: nat, longer: string)
    requires buff.Length == ROOM + 1 && 0 < offset <= ROOM
    modifies buff
    ensures kept < ROOM && longer + buff[..kept] == written + old(buff[..offset])
    ensures |longer| + lastPos == |written| + Seam(old(buff[..offset]))
  {
    lastPos := if buff[offset - 1] == '\r' then offset - 1 else offset;
    if offset < ROOM { return offset, lastPos, written; }
    if buff[offset - 1] != '\r' {
      return 0, 0, written + buff[..offset];
    }
    longer := written + buff[..offset - 1];
    assert buff[..offset] == buff[..offset - 1] + ['\r'];
    buff[0] := '\r';
    assert buff[..1] == ['\r'];
    return 1, 0, longer;
  }

  // ----- what the loop knows -----

  /** The position from which pairs are still to be counted. */
  function Seam(t: string): nat { if t != "" && t[|t| - 1] == '\r' then |t| - 1 else |t| }

  lemma ShiftedSeam(w: string, b: string)
    requires b != ""
    ensures Seam(w + b) == |w| + Seam(b)
  {
  }

  /** The header is found and count is the number of pairs behind it. */
  predicate Tallied(atoi: string -> int, t: string, lines: int, count: int) {
    var h := HeadFrom(atoi, t, 0);
    h.Counted? && h.lines == lines && count == Pairs(t, h.at)
  }

  predicate Counting(atoi: string -> int, t: string, lines: int, count: int, seam: nat) {
    if lines == -1 then HeadFrom(atoi, t, 0).None? && |t| <= 1024
    else Tallied(atoi, t, lines, count) && 0 <= count < lines && seam == Seam(t)
  }

  lemma NoHead(atoi: string -> int)
    ensures forall count, seam: nat :: Counting(atoi, "", -1, count, seam)
  {
  }

  lemma NoHeadYet(atoi: string -> int, t: string)
    requires HeadFrom(atoi, t, 0).None?
    ensures |t| <= 1024 ==> forall count, seam: nat :: Counting(atoi, t, -1, count, seam)
  {
  }

  lemma StillSmall(atoi: string -> int, t: string, count: nat, seam: nat)
    requires Counting(atoi, t, -1, count, Seam(t))
    ensures |t| <= 1024 && Counting(atoi, t, -1, count, seam)
  {
  }

  lemma Found(atoi: string -> int, t: string, lines: nat, at: nat)
    requires HeadFrom(atoi, t, 0) == Counted(lines, at)
    ensures Tallied(atoi, t, lines, Pairs(t, at))
  {
  }

  lemma KeepsCounting(atoi: string -> int, t: string, lines: int, count: int)
    requires Tallied(atoi, t, lines, count) && 0 <= count < lines
    ensures Counting(atoi, t, lines, count, Seam(t))
  {
  }

  lemma JudgeHead(atoi: string -> int, t: string)
    ensures var h := HeadFrom(atoi, t, 0);
            && (h.None? ==> Judge(true, atoi, t) == if |t| > 1024 then Fail else Pending)
            && (h.Bad? ==> Judge(true, atoi, t) == Fail)
            && (h.Refusal? ==> Judge(true, atoi, t) == Done)
  {
  }

  lemma JudgeCount(atoi: string -> int, t: string, lines: int, count: int)
    requires Tallied(atoi, t, lines, count)
    ensures Judge(true, atoi, t) == if count >= lines then Done else Pending
  {
  }

  /** More bytes: the header stays, and the count grows by the pairs from the seam on. */
  lemma GoesOn(atoi: string -> int, t: string, c: string, lines: int, count: int, seam: nat)
    requires Counting(atoi, t, lines, count, seam) && lines != -1
    ensures seam <= |t| && Tallied(atoi, t + c, lines, count + Pairs(t + c, seam))
  {
    hide Pairs;
    var h := HeadFrom(atoi, t, 0);
    HeadStays(atoi, t, c, 0);
    PairsGrow(t, c, h.at);
  }

  lemma {:induction false} HeadStays(atoi: string -> int, t: string, c: string, i: nat)
    requires HeadFrom(atoi, t, i).Counted?
    ensures HeadFrom(atoi, t + c, i) == HeadFrom(atoi, t, i)
    decreases HEAD_LIMIT - i
  {
    if !PairAt(t, i) || !Starts(t, "TRUE ") {
      HeadStays(atoi, t, c, i + 1);
      CountedIsTrue(atoi, t, i + 1);
    } else {
      TrueIsLong(t, i);
      assert (t + c)[..5] == t[..5] && (t + c)[5..i] == t[5..i];
    }
  }

  lemma {:induction false} CountedIsTrue(atoi: string -> int, t: string, i: nat)
    requires HeadFrom(atoi, t, i).Counted?
    ensures Starts(t, "TRUE ")
    decreases HEAD_LIMIT - i
  {
    if !PairAt(t, i) || !Starts(t, "TRUE ") { CountedIsTrue(atoi, t, i + 1); }
  }

  lemma {:induction false} PairsGrow(t: string, c: string, from: nat)
    requires from <= |t| && (from == |t| ==> Seam(t) == |t|)
    ensures Pairs(t + c, from) == Pairs(t, from) + Pairs(t + c, Seam(t))
    decreases |t| - from
  {
    if from + 1 < |t| {
      PairsGrow(t, c, from + 1);
    } else if from + 1 == |t| && t[from] != '\r' {
      assert !PairAt(t + c, from);
    }
  }

  lemma {:induction false} ShiftedPairs(w: string, b: string, j: nat)
    ensures Pairs(w + b, |w| + j) == Pairs(b, j)
    decreases |b| - j
  {
    if j + 1 < |b| { ShiftedPairs(w, b, j + 1); }
  }

  lemma LineEnd(buff: array<char>, offset: nat)
    requires offset <= buff.Length
    ensures EndsLine(buff[..offset]) <==> offset >= 2 && buff[offset - 2] == '\r' && buff[offset - 1] == '\n'
  {
  }

  lemma JudgeLine(atoi: string -> int, t: string)
    ensures Judge(false, atoi, t) == if EndsLine(t) then Done else if |t| >= ROOM then Fail else Pending
  {
  }

  lemma NoCuts(multi: bool, atoi: string -> int, stream: string, sizes: seq<nat>)
    ensures Underway(multi, atoi, stream, sizes, []) && Last([]) == 0
  {
  }

  lemma StopsDone(multi: bool, atoi: string -> int, stream: string, sizes: seq<nat>, cuts: seq<nat>)
    requires Reads(multi, atoi, stream, sizes, cuts) && cuts != [] && Last(cuts) <= |stream|
    requires Judge(multi, atoi, stream[..Last(cuts)]) == Done
    ensures Transferred(multi, atoi, stream, sizes, cuts, 0, stream[..Last(cuts)])
  {
    hide Reads, Judge, Last;
  }

  lemma Pends(multi: bool, atoi: string -> int, stream: string, sizes: seq<nat>, cuts: seq<nat>)
    requires Reads(multi, atoi, stream, sizes, cuts) && Last(cuts) <= |stream|
    requires Judge(multi, atoi, stream[..Last(cuts)]) == Pending
    ensures Underway(multi, atoi, stream, sizes, cuts)
  {
  }

  lemma StopsFailed(multi: bool, atoi: string -> int, stream: string, sizes: seq<nat>, cuts: seq<nat>, written: string)
    requires Last(cuts) <= |stream| && written <= stream[..Last(cuts)]
    requires || (Underway(multi, atoi, stream, sizes, cuts)
                 && (|cuts| >= |sizes| || sizes[|cuts|] == 0 || Last(cuts) == |stream|))
             || (Reads(multi, atoi, stream, sizes, cuts) && cuts != []
                 && Judge(multi, atoi, stream[..Last(cuts)]) == Fail)
    ensures Transferred(multi, atoi, stream, sizes, cuts, -1, written)
  {
    hide Judge, Last;
  }

  /** All reads so far call for more. */
  ghost predicate Underway(multi: bool, atoi: string -> int, stream: string, sizes: seq<nat>, cuts: seq<nat>) {
    && Reads(multi, atoi, stream, sizes, cuts)
    && (cuts != [] ==> PendsAt(multi, atoi, stream, Last(cuts)))
  }

  lemma OneCut(multi: bool, atoi: string -> int, stream: string, sizes: seq<nat>, cuts: seq<nat>, next: nat)
    requires Underway(multi, atoi, stream, sizes, cuts) && |cuts| < |sizes|
    requires Last(cuts) < next <= |stream| && next - Last(cuts) <= sizes[|cuts|]
    ensures Reads(multi, atoi, stream, sizes, cuts + [next]) && Last(cuts + [next]) == next
  {
    hide PendsAt;
    var longer := cuts + [next];
    forall k | 0 <= k < |longer|
      ensures StepAt(stream, sizes, longer, k)
    {
      if k < |cuts| { assert StepAt(stream, sizes, cuts, k); }
    }
  }

  // ----- what the relay promises -----

  /** A reply that asks for more until its last byte. */
  predicate Complete(multi: bool, atoi: string -> int, reply: string) {
    && Judge(multi, atoi, reply) == Done
    && forall k :: 0 < k < |reply| ==> Judge(multi, atoi, reply[..k]) == Pending
  }

  /** However a complete reply arrives, the client gets it byte for byte once all of it
      has come, and only then is the transfer a success. */
  lemma CompleteRepliesAreRelayed(multi: bool, atoi: string -> int, reply: string, sizes: seq<nat>,
                                  cuts: seq<nat>, r: int, written: string)
    requires reply != "" && Complete(multi, atoi, reply) && Transferred(multi, atoi, reply, sizes, cuts, r, written)
    ensures r == 0 <==> Last(cuts) == |reply|
    ensures r == 0 ==> written == reply
    ensures |sizes| >= |reply| && 0 !in sizes ==> r == 0
  {
    hide Judge;
    assert reply[..|reply|] == reply;
    Climb(multi, atoi, reply, sizes, cuts, |cuts|);
    if r != 0 && |cuts| < |sizes| && sizes[|cuts|] == 0 { assert 0 in sizes; }
  }

  /** Each read gets at least one byte. */
  lemma {:induction false} Climb(multi: bool, atoi: string -> int, stream: string, sizes: seq<nat>, cuts: seq<nat>,
                                 k: nat)
    requires Reads(multi, atoi, stream, sizes, cuts) && k <= |cuts|
    ensures k <= Upto(cuts, k)
  {
    hide PendsAt;
    if k > 0 {
      Climb(multi, atoi, stream, sizes, cuts, k - 1);
      assert StepAt(stream, sizes, cuts, k - 1);
    }
  }

  /** The well-formed replies are complete: one line, for the commands answered by one. */
  lemma OneLineIsComplete(atoi: string -> int, text: string)
    requires '\n' !in text && |text| + 2 < 263168
    ensures Complete(false, atoi, text + CRLF)
  {
    var t := text + CRLF;
    forall k | 0 < k < |t| ensures Judge(false, atoi, t[..k]) == Pending {
      assert t[..|t| - 1] == text + "\r";
      NotEnded("", t, k);
      assert "" + t == t;
    }
  }

  /** And a header TRUE n with exactly n CRLF pairs behind it, the last of them at the end. */
  lemma CountedIsComplete(atoi: string -> int, digits: string, body: string)
    requires '\n' !in digits && 5 + |digits| < 36 && atoi(digits) == Pairs(body, 0)
    requires body == "" || EndsLine(body)
    ensures Complete(true, atoi, "TRUE " + digits + CRLF + body)
  {
    hide Judge, HeadFrom, Pairs;
    var head := "TRUE " + digits + CRLF;
    var t := head + body;
    HeadIs(atoi, digits, body);
    ShiftedPairs(head, body, 0);
    JudgeCount(atoi, t, atoi(digits), Pairs(t, |head|)) by { Found(atoi, t, atoi(digits), |head|); }
    forall k | 0 < k < |t| ensures Judge(true, atoi, t[..k]) == Pending {
      if k < |head| {
        assert t[..k] == head[..k];
        HeadNotYet(atoi, digits, k, 0);
        JudgeHead(atoi, head[..k]);
      } else {
        var b := body[..k - |head|];
        assert t[..k] == head + b;
        HeadIs(atoi, digits, b);
        ShiftedPairs(head, b, 0);
        FewerPairs(body, k - |head|, 0);
        Found(atoi, head + b, atoi(digits), |head|);
        JudgeCount(atoi, head + b, atoi(digits), Pairs(b, 0));
      }
    }
  }

  lemma {:induction false} HeadIs(atoi: string -> int, digits: string, body: string)
    requires '\n' !in digits && 5 + |digits| < HEAD_LIMIT && atoi(digits) >= 0
    ensures HeadFrom(atoi, "TRUE " + digits + CRLF + body, 0) == Counted(atoi(digits), 7 + |digits|)
  {
    var t := "TRUE " + digits + CRLF + body;
    assert t[..5] == "TRUE " && t[5..5 + |digits|] == digits;
    SkipTo(atoi, t, 0, 5 + |digits|);
  }

  /** The search passes over positions that start no pair. */
  lemma {:induction false} SkipTo(atoi: string -> int, t: string, i: nat, j: nat)
    requires i <= j <= HEAD_LIMIT && j <= |t| && forall k :: i <= k < j ==> !PairAt(t, k)
    ensures j + 1 < |t| || i == j ==> HeadFrom(atoi, t, i) == HeadFrom(atoi, t, j)
    ensures j + 1 >= |t| ==> HeadFrom(atoi, t, i).None?
    decreases j - i
  {
    if i < j { SkipTo(atoi, t, i + 1, j); }
  }

  lemma HeadNotYet(atoi: string -> int, digits: string, k: nat, i: nat)
    requires '\n' !in digits && 5 + |digits| < HEAD_LIMIT && k < 7 + |digits| && i == 0
    ensures HeadFrom(atoi, ("TRUE " + digits + CRLF)[..k], 0).None?
  {
    var h := "TRUE " + digits + CRLF;
    assert forall j :: 0 <= j < |h| - 1 ==> h[j] != '\n';
    SkipTo(atoi, h[..k], 0, k);
  }

  /** A proper prefix of a text that ends in CRLF has fewer pairs. */
  lemma {:induction false} FewerPairs(b: string, k: nat, i: nat)
    requires k < |b| && EndsLine(b) && i + 2 <= |b|
    ensures Pairs(b[..k], i) < Pairs(b, i)
    decreases |b| - i
  {
    if i + 2 < |b| { FewerPairs(b, k, i + 1); }
  }

  // ----- which bytes decide -----

  /** The first line ends at p. */
  predicate FirstLineEnds(t: string, p: nat) {
    p + 1 < |t| && t[p] == '\r' && t[p + 1] == '\n' && forall j :: 0 <= j < p ==> !(t[j] == '\r' && t[j + 1] == '\n')
  }

  /** A header counts when its line ends within the first 36 positions, and not when it ends
      at 36 or later; of other first lines none is a header. */
  lemma HeaderEndsBefore36(atoi: string -> int, t: string, p: nat)
    requires FirstLineEnds(t, p)
    ensures p < 36 && "TRUE " <= t ==>
              5 <= p && HeadFrom(atoi, t, 0) == if atoi(t[5..p]) < 0 then Bad else Counted(atoi(t[5..p]), p + 2)
    ensures p < 36 && "FALSE " <= t ==> HeadFrom(atoi, t, 0) == Refusal
    ensures p >= 36 ==> HeadFrom(atoi, t, 0) == None
    ensures !("TRUE " <= t) && !("FALSE " <= t) ==> HeadFrom(atoi, t, 0) == None
  {
    hide HeadFrom;
    SkipTo(atoi, t, 0, if p < 36 then p else 36);
    if p < 36 { HeaderAt(atoi, t, p); } else { TooFar(atoi, t); }
    if !("TRUE " <= t) && !("FALSE " <= t) { NoWordNoHeader(atoi, t, 0); }
  }

  lemma HeaderAt(atoi: string -> int, t: string, p: nat)
    requires PairAt(t, p) && p < 36
    ensures "TRUE " <= t ==> 5 <= p && HeadFrom(atoi, t, p) ==
                                       if atoi(t[5..p]) < 0 then Bad else Counted(atoi(t[5..p]), p + 2)
    ensures "FALSE " <= t ==> HeadFrom(atoi, t, p) == Refusal
  {
    assert ("TRUE " <= t ==> t[0] == "TRUE "[0]) && ("FALSE " <= t ==> t[0] == "FALSE "[0]);
    if "TRUE " <= t {
      TrueIsLong(t, p);
    } else if "FALSE " <= t {
      assert t[..6] == "FALSE " && t[..5][0] == 'F';
    }
  }

  lemma TooFar(atoi: string -> int, t: string)
    ensures HeadFrom(atoi, t, 36) == None
  {
  }

  lemma {:induction false} NoWordNoHeader(atoi: string -> int, t: string, i: nat)
    requires !("TRUE " <= t) && !("FALSE " <= t)
    ensures HeadFrom(atoi, t, i) == None
    decreases HEAD_LIMIT - i
  {
    if i + 1 < |t| && i < HEAD_LIMIT { NoWordNoHeader(atoi, t, i + 1); }
  }

  lemma NoLineNoHeader(atoi: string -> int, t: string)
    requires forall j :: 0 <= j < |t| - 1 ==> !(t[j] == '\r' && t[j + 1] == '\n')
    ensures HeadFrom(atoi, t, 0) == None
  {
    SkipTo(atoi, t, 0, Least(|t|, 36));
  }

  /** Replies of many lines: as long as there is no header, 1024 bytes are waited for; then
      as many pairs of CR and LF behind it as it says. */
  lemma ManyLinesAreJudged(atoi: string -> int, t: string, p: nat)
    requires FirstLineEnds(t, p)
    ensures p >= 36 || (!("TRUE " <= t) && !("FALSE " <= t)) ==>
              Judge(true, atoi, t) == if |t| <= 1024 then Pending else Fail
    ensures p < 36 && "FALSE " <= t ==> Judge(true, atoi, t) == Done
    ensures p < 36 && "TRUE " <= t ==>
              && 5 <= p
              && Judge(true, atoi, t) == if atoi(t[5..p]) < 0 then Fail
                                         else if |PairsBehind(t, p + 2)| >= atoi(t[5..p]) then Done else Pending
  {
    hide HeadFrom, Pairs, PairsBehind;
    HeaderEndsBefore36(atoi, t, p);
    PairsAreCounted(t, p + 2);
  }

  lemma NoLineIsJudged(multi: bool, atoi: string -> int, t: string)
    requires forall j :: 0 <= j < |t| - 1 ==> !(t[j] == '\r' && t[j + 1] == '\n')
    ensures Judge(multi, atoi, t) == if |t| > 1024 && (multi || |t| >= 263168) then Fail else Pending
  {
    hide HeadFrom;
    NoLineNoHeader(atoi, t);
  }

  /** Replies of one line: the bytes so far end in CRLF, or the buffer of 257 kilobytes is full. */
  lemma OneLineIsJudged(atoi: string -> int, t: string)
    ensures Judge(false, atoi, t) == if |t| >= 2 && t[|t| - 2] == '\r' && t[|t| - 1] == '\n' then Done
                                     else if |t| < 263168 then Pending else Fail
  {
  }

  /** Where the pairs of CR and LF begin that are counted. */
  function PairsBehind(t: string, from: nat): set<nat> {
    set i: nat | from <= i < |t| && PairAt(t, i)
  }

  lemma {:induction false} PairsAreCounted(t: string, from: nat)
    ensures Pairs(t, from) == |PairsBehind(t, from)|
    decreases |t| - from
  {
    if from + 1 >= |t| {
      assert PairsBehind(t, from) == {};
    } else {
      PairsAreCounted(t, from + 1);
      assert PairsBehind(t, from) == PairsBehind(t, from + 1) + if PairAt(t, from) then {from} else {};
    }
  }

  /** A counted reply whose header is a byte too long never succeeds. */
  lemma LongHeaderIsMissed(atoi: string -> int, digits: string, body: string)
    requires '\n' !in digits && 5 + |digits| >= 36
    ensures var t := "TRUE " + digits + CRLF + body;
            Judge(true, atoi, t) == if |t| <= 1024 then Pending else Fail
  {
    var t := "TRUE " + digits + CRLF + body;
    assert FirstLineEnds(t, 5 + |digits|);
    ManyLinesAreJudged(atoi, t, 5 + |digits|);
  }
}
