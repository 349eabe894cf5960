/** Which names can lead to a granted lock in back_list, whatever happens afterwards as long
    as it is careful. */
module LockNames {
  import opened Options
  import opened Texts
  import opened LineReader
  import opened Pools
  import opened LockBroker
  import opened LockInvariant
  import opened LockSafety
  import opened LockLeak

  // ----- careful continuations -----

  ghost predicate Goes(s: State, run: seq<Label>, t: State) { Exec(s, run) == Some(t) && CarefulRun(s, run) }

  ghost predicate CanGo(s: State, t: State) { exists run :: Goes(s, run, t) }

  lemma GoNowhere(s: State)
    ensures CanGo(s, s)
  {
    assert Goes(s, [], s);
  }

  lemma GoStep(s: State, t: State, l: Label, u: State)
    requires CanGo(s, t) && Careful(t, l) && Next(t, l) == Some(u)
    ensures CanGo(s, u)
  {
    hide Careful, Next;
    var run :| Goes(s, run, t);
    var longer := run + [l];
    assert longer[..|run|] == run;
    forall i | 0 <= i < |longer| && Exec(s, longer[..i]).Some? ensures Careful(Exec(s, longer[..i]).value, longer[i]) {
      assert longer[..i] == run[..i];
      if i == |run| { assert run[..i] == run; }
    }
    assert Goes(s, longer, u);
  }

  /** Steps of the locker and reads of its replies are always careful. */
  predicate Easy(l: Label) { l.Answer? || l.HangUp? || l.Chunk? || l.BackFails? || l.Return? }

  lemma EasyStep(s: State, t: State, l: Label, u: State)
    requires CanGo(s, t) && Easy(l) && Next(t, l) == Some(u)
    ensures CanGo(s, u)
  {
    hide CanGo, Next;
    GoStep(s, t, l, u);
  }

  lemma {:induction false} EasyRun(s: State, t: State, run: seq<Label>, u: State)
    requires CanGo(s, t) && Exec(t, run) == Some(u) && forall i :: 0 <= i < |run| ==> Easy(run[i])
    ensures CanGo(s, u)
    decreases |run|
  {
    hide CanGo, Next;
    if run != [] {
      var k := |run| - 1;
      EasyRun(s, t, run[..k], Exec(t, run[..k]).value);
      EasyStep(s, Exec(t, run[..k]).value, run[k], u);
    }
  }

  /** After LOCK with the name, some careful continuation leaves a granted lock in back_list. */
  ghost predicate LeaksLater(s: State, w: nat, name: string) {
    var t := Next(s, AskLine(w, name));
    t.Some? && exists u, d :: CanGo(t.value, u) && LeftHeld(u, d)
  }

  ghost predicate LeaksFrom(s: State) { exists u, d :: CanGo(s, u) && LeftHeld(u, d) }

  /** One of the lines that the name makes of the LOCK command is QUIT. */
  predicate Quits(name: string) {
    exists m :: 0 <= m < |Lines(LockText(name))| && QuitsAt(Lines(LockText(name)), m)
  }

  // ----- names that leak -----

  /** The locker can hang up on all other connections. */
  lemma FreeOthers(s: State, t: State, c: Conn) returns (u: State)
    requires CanGo(s, t) && c < |t.conns|
    requires forall d :: 0 <= d < |t.conns| && d != c && t.conns[d].held.Some? ==> t.conns[d].up
    ensures CanGo(s, u) && u == t.(conns := u.conns) && |u.conns| == |t.conns| && u.conns[c] == t.conns[c]
            && Alone(u, c)
  {
    hide CanGo;
    u := FreeUpTo(s, t, c, |t.conns|);
  }

  lemma {:induction false} FreeUpTo(s: State, t: State, c: Conn, k: nat) returns (u: State)
    requires CanGo(s, t) && c < |t.conns| && k <= |t.conns|
    requires forall d :: 0 <= d < |t.conns| && d != c && t.conns[d].held.Some? ==> t.conns[d].up
    ensures CanGo(s, u) && u == t.(conns := u.conns) && |u.conns| == |t.conns| && u.conns[c] == t.conns[c]
    ensures forall d :: 0 <= d < k && d != c ==> u.conns[d].held == None
    ensures forall d :: 0 <= d < |t.conns| && d != c && u.conns[d].held.Some? ==> u.conns[d].up
    decreases k
  {
    hide CanGo;
    if k == 0 { return t; }
    var v := FreeUpTo(s, t, c, k - 1);
    if k - 1 == c || v.conns[k - 1].held == None { return v; }
    u := Next(v, HangUp(k - 1)).value;
    EasyStep(s, v, HangUp(k - 1), u);
  }

  /** Worker w waits for the reply to what the connection has been sent for the name. */
  predicate Waits(t: State, w: nat, c: Conn, name: string) {
    && InTalk(t, w) && t.workers[w].session.pback == Some(c) && t.workers[w].session.buff == ""
    && c < |t.conns| && t.conns[c].up && t.conns[c].held == None && '\0' !in t.conns[c].inbox
    && t.conns[c].requests == Lines(LockText(name))
  }

  /** One exchange that leaves the lock, from where the command has been sent. */
  lemma LeakFrom(s: State, t: State, w: nat, c: Conn, name: string, j: nat)
    requires CanGo(s, t) && Waits(t, w, c, name) && Alone(t, c) && GoodName(name)
    requires 1 <= j <= |Lines(LockText(name))| && LocksUpTo(Lines(LockText(name)), j)
    requires (j >= 2 || t.conns[c].inbox != "") && |t.conns[c].inbox| + 7 * j <= BUFF_SIZE
    ensures LeaksFrom(s)
  {
    hide CanGo, Lines, Played, Serve, Next, Exec, EndsLine, LockText, LocksUpTo;
    var b := t.conns[c];
    LockerHolds(b, j);
    LeftForGood(b, j);
    AllWereWaiting(b, j);
    Replies(b, j);
    AnswersPlay(t, c, j);
    var u := t.(conns := t.conns[c := Played(b, j)]);
    EasyRun(s, t, Answers(c, j), u);
    ReadAway(u, w, c);
    var last := Chunk(w, |Played(b, j).inbox|);
    EasyStep(s, u, last, Next(u, last).value);
    assert LeftHeld(Next(u, last).value, c);
  }

  /** Worker w has given connection c back with lines that the locker has not handled. */
  predicate LeftWaiting(t: State, w: nat, c: Conn) {
    && AtLoop(t, w) && t.workers[w].session.status.Ready? && t.workers[w].session.pback == None
    && t.workers[w].session.buff == ""
    && c in t.back && c < |t.conns| && t.conns[c].up && t.conns[c].requests != [] && |t.conns[c].requests| <= 140
    && t.conns[c].inbox == "" && forall m :: 0 <= m < |t.conns[c].requests| ==> !QuitsAt(t.conns[c].requests, m)
  }

  /** The locker handles them, their replies stay unread, and the next LOCK leaves its lock. */
  lemma LeftWaitingLeaks(s: State, t: State, w: nat, c: Conn)
    requires CanGo(s, t) && LeftWaiting(t, w, c) && Alone(t, c)
    ensures LeaksFrom(s)
  {
    hide CanGo, Lines, Played, Serve, Exec, EndsLine, LocksUpTo, QuitsAt;
    var b := t.conns[c];
    var k := |b.requests|;
    LockerHolds(b, k);
    LeftForGood(b, k);
    AllWereWaiting(b, k);
    Replies(b, k);
    AnswersPlay(t, c, k);
    var u := t.(conns := t.conns[c := Played(b, k)]);
    EasyRun(s, t, Answers(c, k), u);
    if u.conns[c].held.Some? {
      assert LeftHeld(u, c);
    } else {
      var v := ToFront(s, u, w, c);
      AskAgain(s, v, w, c);
    }
  }

  const PROBE: string := "x"

  lemma ProbeIsPlain()
    ensures GoodName(PROBE) && Plain(PROBE) && |Lines(LockText(PROBE))| == 1 && LocksUpTo(Lines(LockText(PROBE)), 1)
  {
    hide LocksUpTo, Lines;
    PlainIsGranted(PROBE);
    HeldIs(PROBE, 1);
  }

  /** A ready worker with a backend to ask. */
  predicate ReadyFor(t: State, w: nat) {
    && AtLoop(t, w) && t.workers[w].session.status.Ready? && t.workers[w].session.pback == None
    && t.workers[w].session.buff == "" && t.back != []
  }

  lemma CarefulProbe(t: State, w: nat)
    requires ReadyFor(t, w)
    ensures Next(t, AskLine(w, PROBE)) == Some(Sent(t, w, PROBE)) && Careful(t, AskLine(w, PROBE))
  {
    hide Lines, SameText, LocksUpTo;
    ProbeIsPlain();
    Sends(t, w, PROBE);
    WholeText("LOCK " + PROBE);
    assert ("LOCK " + PROBE)[5..] == PROBE;
  }

  lemma AskAgain(s: State, t: State, w: nat, c: Conn)
    requires CanGo(s, t) && ReadyFor(t, w) && t.back[0] == c && c < |t.conns| && Alone(t, c)
    requires t.conns[c].up && t.conns[c].requests == [] && t.conns[c].held == None
    requires t.conns[c].inbox != "" && '\0' !in t.conns[c].inbox && |t.conns[c].inbox| + 7 <= BUFF_SIZE
    ensures LeaksFrom(s)
  {
    hide CanGo, Lines, LocksUpTo, Careful, Next;
    ProbeIsPlain();
    CarefulProbe(t, w);
    GoStep(s, t, AskLine(w, PROBE), Sent(t, w, PROBE));
    LeakFrom(s, Sent(t, w, PROBE), w, c, PROBE, 1);
  }

  /** The worker itself can use up the backends in front: it asks each, and the read fails. */
  lemma {:induction false} ToFront(s: State, t: State, w: nat, c: Conn) returns (u: State)
    requires CanGo(s, t) && ReadyFor(t, w) && c in t.back && c < |t.conns| && Alone(t, c)
    ensures CanGo(s, u) && ReadyFor(u, w) && u.back[0] == c && |u.conns| == |t.conns| && Alone(u, c)
    ensures u.conns[c] == t.conns[c]
    decreases |t.back|
  {
    hide CanGo, Careful, ReadyFor;
    if FrontIs(t, w, c) { return t; }
    CarefulProbe(t, w);
    GoStep(s, t, AskLine(w, PROBE), Sent(t, w, PROBE));
    var v := Loses(s, t, w, c);
    u := ToFront(s, v, w, c);
  }

  predicate FrontIs(t: State, w: nat, c: Conn)
    requires ReadyFor(t, w)
  {
    t.back[0] == c
  }

  lemma Loses(s: State, t: State, w: nat, c: Conn) returns (v: State)
    requires ReadyFor(t, w) && c in t.back && t.back[0] != c && c < |t.conns| && Alone(t, c)
    requires CanGo(s, Sent(t, w, PROBE))
    ensures CanGo(s, v) && ReadyFor(v, w) && v.back == t.back[1..] && c in v.back
    ensures |v.conns| == |t.conns| && Alone(v, c) && v.conns[c] == t.conns[c]
  {
    hide CanGo, Lines, LockText;
    var a := Sent(t, w, PROBE);
    var b := Next(a, BackFails(w)).value;
    EasyStep(s, a, BackFails(w), b);
    v := Next(b, Return(w)).value;
    EasyStep(s, b, Return(w), v);
    assert t.back == [t.back[0]] + t.back[1..];
  }

  // ----- from the careless name to there -----

  /** A name with a CRLF inside makes a LOCK command of what precedes it, and more lines. */
  lemma FirstOfMany(name: string)
    requires GoodName(name) && !Plain(name)
    ensures var a, lines := name[..FirstPair(name, 0)], Lines(LockText(name));
            && '\0' !in a && 2 <= |lines| <= 131 && lines[0] == "LOCK " + a
  {
    hide Lines, Plain;
    Divided(name);
    var p := FirstPair(name, 0);
    var a, rest := name[..p], name[p + 2..];
    PlainLock(a);
    FirstLine("LOCK " + a, rest + CRLF);
    Regroup("LOCK ", a, CRLF, rest + CRLF);
    assert LockText(name) == "LOCK " + a + CRLF + (rest + CRLF);
    AnotherLine(rest);
    LinesAreFew(LockText(name));
  }

  lemma Regroup(x: string, a: string, y: string, z: string)
    ensures x + (a + y + z) == x + a + y + z
  {
  }

  /** The locker handles the first line, and the worker reads the reply. */
  lemma FirstReplyRead(s: State, t: State, w: nat, c: Conn, a: string) returns (u: State)
    requires CanGo(s, t) && Talker(t, w, c) && !t.workers[w].session.status.Locked?
             && t.workers[w].pc == Talking(true, Continue)
    requires t.conns[c].up && t.conns[c].inbox == "" && t.conns[c].held == None && Alone(t, c)
    requires t.conns[c].requests != [] && t.conns[c].requests[0] == "LOCK " + a && '\0' !in a
    ensures CanGo(s, u) && |u.conns| == |t.conns| && Alone(u, c)
    ensures u.conns[c].up && u.conns[c].inbox == "" && u.conns[c].requests == t.conns[c].requests[1..]
    ensures if a != "" then AtLoop(u, w) && LockedWith(u, w, c) && u.conns[c].held.Some?
            else ReadyAgain(u, w) && c in u.back
  {
    hide CanGo;
    var t1 := LineServed(s, t, c, "LOCK " + a);
    var text := if a != "" then "TRUE" else "FALSE";
    LockServed(t.conns[c], a);
    var t2 := ReplyTaken(s, t1, w, c, text);
    if a != "" {
      u := t2;
    } else {
      u := Next(t2, Return(w)).value;
      EasyStep(s, t2, Return(w), u);
    }
  }

  /** Worker w is in read_backend on c with nothing read so far. */
  predicate Talker(t: State, w: nat, c: Conn) {
    && InTalk(t, w) && t.workers[w].session.pback == Some(c) && t.workers[w].session.buff == "" && c < |t.conns|
    && t.workers[w].pc.after == Continue
  }

  predicate LockedWith(u: State, w: nat, c: Conn)
    requires AtLoop(u, w)
  {
    var se := u.workers[w].session;
    se.status.Locked? && se.pback == Some(c) && se.buff == ""
  }

  predicate ReadyAgain(u: State, w: nat) {
    && AtLoop(u, w) && u.workers[w].session.status.Ready? && u.workers[w].session.pback == None
    && u.workers[w].session.buff == ""
  }

  lemma LineServed(s: State, t: State, c: Conn, line: string) returns (u: State)
    requires CanGo(s, t) && c < |t.conns| && t.conns[c].up && Alone(t, c)
    requires t.conns[c].requests != [] && t.conns[c].requests[0] == line
    ensures Serve(t.conns[c], false, {}).Some?
    ensures CanGo(s, u) && u == t.(conns := t.conns[c := Serve(t.conns[c], false, {}).value]) && Alone(u, c)
  {
    hide CanGo, Serve;
    AlwaysServed(t.conns[c]);
    AnswerPlays(t, c);
    u := t.(conns := t.conns[c := Serve(t.conns[c], false, {}).value]);
    EasyStep(s, t, Answer(c, false), u);
  }

  lemma LockServed(b: Back, a: string)
    requires b.up && b.held == None && b.requests != [] && b.requests[0] == "LOCK " + a && '\0' !in a && b.inbox == ""
    requires Serve(b, false, {}).Some?
    ensures var p := Serve(b, false, {}).value;
            && p.up && p.requests == b.requests[1..]
            && p.inbox == (if a != "" then "TRUE" else "FALSE") + CRLF && (a != "" ==> p.held.Some?)
  {
    hide SameText, Clip, CText;
    var line := "LOCK " + a;
    WholeText(line);
    assert line[..5] == "LOCK ";
    SameAsItself("LOCK ");
    NotQuit(line);
    NotPing(line);
    assert "" + "TRUE" + CRLF == "TRUE" + CRLF && "" + "FALSE" + CRLF == "FALSE" + CRLF;
  }

  lemma NotPing(t: string)
    requires |t| > 4
    ensures !SameText(t, "PING")
  {
  }

  /** The worker reads the whole reply at once. */
  lemma ReplyTaken(s: State, t: State, w: nat, c: Conn, text: string) returns (u: State)
    requires CanGo(s, t) && Talker(t, w, c) && (text == "TRUE" || text == "FALSE") && t.conns[c].inbox == text + CRLF
    ensures CanGo(s, u) && u.conns == t.conns[c := t.conns[c].(inbox := "")]
    ensures if text == "TRUE" && !t.workers[w].session.status.Locked? then AtLoop(u, w) && LockedWith(u, w, c)
            else
              && c in u.back && w < |u.workers| && u.workers[w].Serving?
              && u.workers[w].pc == Clearing(false, Continue)
  {
    hide CanGo, Next, IsTrue, CText;
    var read := t.(conns := Put(t, c, Get(t, c).(inbox := "")));
    WholeRead(t, w, c, text);
    TrueAndFalse();
    u := ReplyLine(read, w, text);
    EasyStep(s, t, Chunk(w, |text + CRLF|), u);
  }

  lemma WholeRead(t: State, w: nat, c: Conn, text: string)
    requires Talker(t, w, c) && (text == "TRUE" || text == "FALSE") && t.conns[c].inbox == text + CRLF
    ensures var read := t.(conns := Put(t, c, Get(t, c).(inbox := "")));
            Next(t, Chunk(w, |text + CRLF|)) == Some(ReplyLine(read, w, text))
  {
    hide ReplyLine, Lose, Take, ReadyLine, LockedLine, QueueTick, NextReturn, NextPong, NextAnswer, Leave, Release;
    var inbox := text + CRLF;
    assert inbox[..|inbox|] == inbox && inbox[|inbox|..] == "";
    WholeTake(text);
  }

  lemma WholeTake(text: string)
    requires text == "TRUE" || text == "FALSE"
    ensures Take("", text + CRLF) == Line(text)
  {
    var inbox := text + CRLF;
    assert "" + inbox == inbox && inbox[..|inbox| - 2] == text;
  }

  lemma TrueAndFalse()
    ensures IsTrue("TRUE") && !IsTrue("FALSE")
  {
    WholeText("TRUE");
    WholeText("FALSE");
  }

  /** The client asks for UNLOCK, and the reply to the second line is taken for the answer. */
  lemma UnlockMistaken(s: State, t: State, w: nat, c: Conn) returns (u: State)
    requires CanGo(s, t) && AtLoop(t, w) && LockedWith(t, w, c) && c < |t.conns| && Alone(t, c)
    requires t.conns[c].up && t.conns[c].inbox == "" && t.conns[c].held.Some?
    requires t.conns[c].requests != [] && !QuitsAt(t.conns[c].requests, 0)
    ensures CanGo(s, u) && |u.conns| == |t.conns| && Alone(u, c) && ReadyAgain(u, w) && c in u.back
    ensures u.conns[c].up && u.conns[c].inbox == "" && u.conns[c].requests == t.conns[c].requests[1..] + ["UNLOCK"]
  {
    hide CanGo, Serve, CText;
    var t1 := UnlockSent(s, t, w, c);
    var b := t1.conns[c];
    var t2 := LineServed(s, t1, c, t.conns[c].requests[0]);
    SecondServed(b);
    var text := if SameText(CText(b.requests[0]), "UNLOCK") then "TRUE" else "FALSE";
    var t3 := ReplyTaken(s, t2, w, c, text);
    u := Next(t3, Return(w)).value;
    EasyStep(s, t3, Return(w), u);
    assert (t.conns[c].requests + ["UNLOCK"])[1..] == t.conns[c].requests[1..] + ["UNLOCK"];
  }

  lemma UnlockSent(s: State, t: State, w: nat, c: Conn) returns (u: State)
    requires CanGo(s, t) && AtLoop(t, w) && LockedWith(t, w, c) && c < |t.conns| && t.conns[c].up
    ensures CanGo(s, u) && Talker(u, w, c) && u.workers[w].session.status.Locked?
    ensures u.conns == t.conns[c := t.conns[c].(requests := t.conns[c].requests + ["UNLOCK"])]
  {
    hide CanGo, Lines;
    WholeText("UNLOCK");
    SameAsItself("UNLOCK");
    NotQuit("UNLOCK");
    CommandLines();
    u := Next(t, FrontLine(w, "UNLOCK", false)).value;
    GoStep(s, t, FrontLine(w, "UNLOCK", false), u);
  }

  lemma SecondServed(b: Back)
    requires b.up && b.held.Some? && b.requests != [] && !QuitsAt(b.requests, 0) && b.inbox == ""
    requires Serve(b, false, {}).Some?
    ensures var p := Serve(b, false, {}).value;
            && p.up && p.requests == b.requests[1..]
            && p.inbox == (if SameText(CText(b.requests[0]), "UNLOCK") then "TRUE" else "FALSE") + CRLF
  {
    hide SameText, CText;
    assert "" + "TRUE" + CRLF == "TRUE" + CRLF && "" + "FALSE" + CRLF == "FALSE" + CRLF;
  }

  /** A name of several lines, none of them QUIT. */
  lemma NoQuitLeaks(s: State, t: State, w: nat, c: Conn, name: string)
    requires CanGo(s, t) && Waits(t, w, c, name) && Alone(t, c) && GoodName(name) && !Plain(name) && !Quits(name)
    requires t.conns[c].inbox == "" && t.workers[w].pc == Talking(true, Continue)
             && !t.workers[w].session.status.Locked?
    ensures LeaksFrom(s)
  {
    hide CanGo, Lines, LockText, Plain, QuitsAt, LocksUpTo;
    var a, lines := name[..FirstPair(name, 0)], Lines(LockText(name));
    FirstOfMany(name);
    var u := FirstReplyRead(s, t, w, c, a);
    if a != "" {
      assert lines[1..][0] == lines[1];
      ShiftedQuit(lines, 0);
      u := UnlockMistaken(s, u, w, c);
    }
    forall m | 0 <= m < |u.conns[c].requests| ensures !QuitsAt(u.conns[c].requests, m) {
      RestHasNoQuit(lines, u.conns[c].requests, m, if a != "" then 2 else 1);
    }
    LeftWaitingLeaks(s, u, w, c);
  }

  lemma ShiftedQuit(lines: seq<string>, m: nat)
    requires m + 1 < |lines|
    ensures QuitsAt(lines[1..], m) <==> QuitsAt(lines, m + 1)
  {
  }

  lemma RestHasNoQuit(lines: seq<string>, rest: seq<string>, m: nat, k: nat)
    requires k <= |lines| && m < |rest| && forall i :: 0 <= i < |lines| ==> !QuitsAt(lines, i)
    requires rest == lines[k..] || (k == 2 && rest == lines[1..][1..] + ["UNLOCK"])
    ensures !QuitsAt(rest, m)
  {
    WholeText("UNLOCK");
    NotQuit("UNLOCK");
    if k + m < |lines| {
      assert !QuitsAt(lines, k + m);
      if k == 2 { assert lines[1..][1..] == lines[2..]; }
    }
  }

  /** Bytes of an earlier reply are enough for any plain name, whoever holds locks now. */
  lemma StaleLeaksLater(s: State, w: nat, c: Conn, name: string)
    requires AboutToAsk(s, w, c) && GoodName(name) && Plain(name)
    requires s.conns[c].inbox != "" && '\0' !in s.conns[c].inbox && |s.conns[c].inbox| + 7 <= BUFF_SIZE
    requires forall d :: 0 <= d < |s.conns| && d != c && s.conns[d].held.Some? ==> s.conns[d].up
    ensures LeaksLater(s, w, name)
  {
    hide CanGo, Lines, LocksUpTo, Next, Plain;
    PlainIsGranted(name);
    HeldIs(name, 1);
    Sends(s, w, name);
    var t := Sent(s, w, name);
    GoNowhere(t);
    var u := FreeOthers(t, t, c);
    assert [] + Lines(LockText(name)) == Lines(LockText(name));
    LeakFrom(t, u, w, c, name, 1);
  }
}
