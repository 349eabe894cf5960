/** Careless conversations: exactly when one that starts with a quiet or a stale backend
    can leave it in back_list with a granted lock. */
module LockLeak {
  import opened Options
  import opened Texts
  import opened LineReader
  import opened Pools
  import opened LockBroker
  import opened LockInvariant
  import opened LockSafety

  /** A locker that handles j of the lines it has been sent, in time and uncontended. */
  function Played(b: Back, j: nat): Back
    decreases j
  {
    if j == 0 || b.requests == [] then b
    else
      var next := Serve(b, false, {});
      if next.None? then b else Played(next.value, j - 1)
  }

  function Asked(name: string): Back { NEW.(requests := Lines(LockText(name))) }

  predicate QuitsAt(lines: seq<string>, m: nat) { m < |lines| && SameText(CText(lines[m]), "QUIT") }

  predicate UnlocksAt(lines: seq<string>, m: nat) { m < |lines| && SameText(CText(lines[m]), "UNLOCK") }

  predicate LocksAt(lines: seq<string>, m: nat) { m < |lines| && IsLock(CText(lines[m])) }

  predicate Stays(lines: seq<string>, i: nat, j: nat) { forall m :: i < m < j ==> !UnlocksAt(lines, m) }

  /** Of the first j lines one is a LOCK with no UNLOCK behind it, and none is QUIT. */
  predicate LocksUpTo(lines: seq<string>, j: nat) {
    && (forall m :: 0 <= m < j ==> !QuitsAt(lines, m))
    && (exists i :: 0 <= i < j && LocksAt(lines, i) && Stays(lines, i, j))
  }

  /** Of the lines that a name makes of the LOCK command, there is one, not before the given
      one, up to which a lock is left. */
  predicate HeldFrom(name: string, first: nat) {
    var lines := Lines(LockText(name));
    exists j :: first <= j <= |lines| && LocksUpTo(lines, j)
  }

  /** That is when the locker holds a lock after that line. */
  lemma {:induction false} LockerHolds(b: Back, j: nat)
    requires b.up && j <= |b.requests|
    ensures Played(b, j).up <==> forall m :: 0 <= m < j ==> !QuitsAt(b.requests, m)
    ensures b.held == None ==>
              (Played(b, j).held.Some? <==> LocksUpTo(b.requests, j))
    decreases j
  {
    hide Played, Serve, LocksAt, UnlocksAt, QuitsAt;
    if j == 0 {
      PlayedNone(b);
    } else {
      LockerHolds(b, j - 1);
      LeftForGood(b, j - 1);
      if Played(b, j - 1).up {
        PlayedNext(b, j - 1);
        LineHandled(Played(b, j - 1), b.requests, j - 1);
        StaysOn(b.requests, j - 1);
      } else {
        PlayedStops(b, j - 1);
      }
    }
  }

  lemma HeldIs(name: string, j: nat)
    requires j <= |Lines(LockText(name))|
    ensures Played(Asked(name), j).held.Some? <==> LocksUpTo(Lines(LockText(name)), j)
  {
    hide Played, Lines, LocksUpTo;
    LockerHolds(Asked(name), j);
  }

  /** One line, as the locker's branches take it. */
  lemma LineHandled(b: Back, lines: seq<string>, m: nat)
    requires m < |lines| && b.up && b.requests == lines[m..] && Serve(b, false, {}).Some?
    ensures var p := Serve(b, false, {}).value;
            && (p.up <==> !QuitsAt(lines, m)) && (!p.up ==> p.held == None)
            && (p.up ==> (p.held.Some? <==> LocksAt(lines, m) || (b.held.Some? && !UnlocksAt(lines, m))))
  {
    hide CText, SameText, Clip, IsLock;
    UnlockIsNoLock(CText(lines[m]));
    assert b.requests[0] == lines[m];
  }

  /** A LOCK with no UNLOCK behind it, one line further. */
  lemma StaysOn(lines: seq<string>, j: nat)
    ensures (exists i :: 0 <= i < j + 1 && LocksAt(lines, i) && Stays(lines, i, j + 1)) <==>
            LocksAt(lines, j)
            || (!UnlocksAt(lines, j) && exists i :: 0 <= i < j && LocksAt(lines, i) && Stays(lines, i, j))
  {
    hide LocksAt, UnlocksAt;
    if LocksAt(lines, j) { assert Stays(lines, j, j + 1); }
    if i :| 0 <= i < j + 1 && LocksAt(lines, i) && Stays(lines, i, j + 1) {
      if i < j { assert Stays(lines, i, j); }
    }
    if i :| 0 <= i < j && LocksAt(lines, i) && Stays(lines, i, j) {
      if !UnlocksAt(lines, j) { assert Stays(lines, i, j + 1); }
    }
  }

  /** Behind the first line there is one up to which the locker still holds a lock. */
  predicate Leaky(name: string) { HeldFrom(name, 2) }

  lemma PlainIsTight(name: string)
    requires Plain(name)
    ensures !Leaky(name)
  {
    CommandLines();
  }

  /** A ready session w is about to take backend c, which is idle on the locker's side. */
  ghost predicate AboutToAsk(s: State, w: nat, c: Conn) {
    && AtLoop(s, w) && s.workers[w].session.status.Ready? && s.workers[w].session.pback == None
    && s.workers[w].session.buff == ""
    && s.back != [] && c == s.back[0] < |s.conns| && c !in s.back[1..]
    && s.conns[c].up && s.conns[c].requests == [] && s.conns[c].held == None
  }

  /** Only the locker on this connection, and the worker's reads of its replies. */
  predicate Exchange(run: seq<Label>, w: nat, c: Conn) {
    forall i :: 0 <= i < |run| ==> (run[i].Answer? && run[i].c == c) || (run[i].Chunk? && run[i].w == w)
  }

  ghost predicate LeftHeld(t: State, c: Conn) { c in t.back && Get(t, c).held.Some? }

  predicate GoodName(name: string) { name != "" && |name| <= 255 && '\0' !in name }

  function AskLine(w: nat, name: string): Label { FrontLine(w, "LOCK " + name, false) }

  /** The state after LOCK name has been sent. */
  function Sent(s: State, w: nat, name: string): State
    requires AtLoop(s, w) && s.back != []
  {
    var se := s.workers[w].session;
    Grab(s, w, Hear(se, "LOCK " + name).(resource := name))
  }

  lemma Sends(s: State, w: nat, name: string)
    requires AtLoop(s, w) && s.workers[w].session.status.Ready? && s.back != [] && GoodName(name)
    ensures Next(s, AskLine(w, name)) == Some(Sent(s, w, name))
  {
    hide SameText, Lines;
    WholeText("LOCK " + name);
    assert ("LOCK " + name)[..5] == "LOCK " && ("LOCK " + name)[5..] == name;
    SameAsItself("LOCK ");
  }

  // ----- a leak needs unread bytes or a leaky name -----

  /** Where an exchange that began with nothing unread can be, after j lines. */
  ghost predicate Following(t: State, w: nat, c: Conn, name: string, j: nat) {
    var b, p, lines := Get(t, c), Played(Asked(name), j), Lines(LockText(name));
    && j <= |lines| && w < |t.workers| && t.workers[w].Serving? && c < |t.conns|
    && var x := t.workers[w];
       || (b == CLOSED && c !in t.back && x.pc.Clearing?)
       || (&& Alike(b, p) && (j == 0 ==> b.inbox == "" && b.held == None)
           && match x.pc
              case Loop(_) => c !in t.back
              case Talking(_, _) =>
                && x.session.pback == Some(c) && !x.session.status.Locked? && c !in t.back
                && (j == 0 ==> x.session.buff == "")
                && (j == 1 ==> OneReply(x.session.buff + b.inbox, b.held.Some?))
              case Clearing(_, _) => j >= 1 && (j == 1 ==> b.held == None))
  }

  /** What one reply amounts to. */
  predicate OneReply(r: string, granted: bool) {
    OneLine(r) && (granted ==> r == SAID_TRUE)
  }

  /** The same lines to come, the same end, and a lock only where the other has one. */
  predicate Alike(b: Back, p: Back) {
    b.up == p.up && b.requests == p.requests && (b.held.Some? ==> p.held.Some?)
  }

  lemma ServedAlike(b: Back, p: Back, late: bool, taken: set<string>)
    requires Alike(b, p) && b.requests != [] && Serve(b, late, taken).Some?
    ensures Serve(p, false, {}).Some? && Alike(Serve(b, late, taken).value, Serve(p, false, {}).value)
  {
    hide CText, SameText, Clip;
    UnlockIsNoLock(CText(b.requests[0]));
  }

  lemma UnlockIsNoLock(t: string)
    ensures SameText(t, "UNLOCK") ==> !IsLock(t)
  {
    if |t| > 5 {
      assert t[..5][0] == t[0] && Lower("UNLOCK"[0]) == 'u' && Lower("LOCK "[0]) == 'l';
      assert SameText(t, "UNLOCK") ==> Lower(t[0]) == 'u';
      assert SameText(t[..5], "LOCK ") ==> Lower(t[..5][0]) == 'l';
    }
  }

  lemma {:induction false} PlayedNext(b: Back, j: nat)
    requires Played(b, j).requests != []
    ensures Serve(Played(b, j), false, {}).Some? && Played(b, j + 1) == Serve(Played(b, j), false, {}).value
    decreases j
  {
    hide CText, SameText, Clip;
    if j > 0 && b.requests != [] {
      PlayedNext(Serve(b, false, {}).value, j - 1);
    }
  }

  /** The first line is LOCK with what precedes a CRLF in the name. */
  lemma FirstReply(b: Back, name: string, late: bool, taken: set<string>)
    requires GoodName(name) && b.up && b.held == None && b.inbox == "" && b.requests == Lines(LockText(name))
    requires b.requests != [] && Serve(b, late, taken).Some?
    ensures OneReply(Serve(b, late, taken).value.inbox, Serve(b, late, taken).value.held.Some?)
  {
    hide SameText, Clip, CText;
    var replies := ["TRUE", "FALSE", "BYE"];
    assert "" + "TRUE" + CRLF == SAID_TRUE;
    assert OneLine("" + "TRUE" + CRLF) && OneLine("" + "FALSE" + CRLF) && OneLine("" + "BYE" + CRLF);
  }

  lemma StartsFollowing(s: State, w: nat, c: Conn, name: string)
    requires AboutToAsk(s, w, c) && GoodName(name) && s.conns[c].inbox == ""
    ensures Following(Sent(s, w, name), w, c, name, 0)
  {
    hide Lines;
  }

  /** One step of the exchange. */
  lemma Follows(t: State, w: nat, c: Conn, name: string, j: nat, l: Label) returns (k: nat)
    requires Following(t, w, c, name, j) && GoodName(name) && Next(t, l).Some? && Exchange([l], w, c)
    ensures Following(Next(t, l).value, w, c, name, k)
  {
    hide Following, NextAnswer, NextChunk;
    assert [l][0] == l;
    if l.Answer? {
      AnswerFollows(t, w, c, name, j, l.late);
      k := j + 1;
    } else {
      ChunkFollows(t, w, c, name, j, l.k);
      k := j;
    }
  }

  lemma AnswerFollows(t: State, w: nat, c: Conn, name: string, j: nat, late: bool)
    requires Following(t, w, c, name, j) && GoodName(name) && NextAnswer(t, c, late).Some?
    ensures Following(NextAnswer(t, c, late).value, w, c, name, j + 1)
  {
    hide Serve, Lines, Played, OneReply;
    var b, p, taken := Get(t, c), Played(Asked(name), j), IsHeld(t);
    ServedAlike(b, p, late, taken);
    PlayedNext(Asked(name), j);
    LinesLeft(Asked(name), j);
    if j == 0 {
      PlayedNone(Asked(name));
      FirstReply(b, name, late, taken);
      var said := Serve(b, late, taken).value.inbox;
      assert "" + said == said;
    }
  }

  lemma PlayedNone(b: Back)
    ensures Played(b, 0) == b
  {
  }

  /** j lines handled leave the others, unless the locker has left. */
  lemma {:induction false} LinesLeft(b: Back, j: nat)
    requires j <= |b.requests|
    ensures Played(b, j).requests != [] ==> j < |b.requests| && Played(b, j).requests == b.requests[j..]
    decreases j
  {
    hide CText, SameText, Clip;
    if j > 0 && b.requests != [] && Serve(b, false, {}).Some? {
      var next := Serve(b, false, {}).value;
      if next.requests != [] {
        assert next.requests == b.requests[1..];
        LinesLeft(next, j - 1);
      } else {
        Ended(next, j - 1);
      }
    }
  }

  lemma Ended(b: Back, j: nat)
    requires b.requests == []
    ensures Played(b, j) == b
  {
  }

  lemma ChunkFollows(t: State, w: nat, c: Conn, name: string, j: nat, k: nat)
    requires Following(t, w, c, name, j) && CanRead(t, w, k)
    ensures Following(NextChunk(t, w, k).value, w, c, name, j)
  {
    hide Serve, Lines, Played, Take, OneReply, CText, SameText;
    var buff, inbox := t.workers[w].session.buff, Get(t, c).inbox;
    ReadOf(buff, inbox, k, Get(t, c).held.Some?);
  }

  predicate CanRead(t: State, w: nat, k: nat) { InTalk(t, w) && NextChunk(t, w, k).Some? }

  /** What a read can make of a single reply. */
  lemma ReadOf(buff: string, inbox: string, k: nat, granted: bool)
    requires 1 <= k <= |inbox| && |buff| + k <= BUFF_SIZE
    ensures var r := Take(buff, inbox[..k]);
            && (r.More? ==> r.buff + inbox[k..] == buff + inbox)
            && (r.Line? && OneReply(buff + inbox, granted) && granted ==> IsTrue(r.text))
  {
    hide SameText, CText;
    var r := Take(buff, inbox[..k]);
    assert buff + inbox[..k] + inbox[k..] == buff + inbox;
    if r.Line? && OneReply(buff + inbox, granted) && granted {
      ReplyCut(buff, inbox, k);
      assert r.text + CRLF == "TRUE" + CRLF;
      assert r.text == (r.text + CRLF)[..4];
      WholeText("TRUE");
      SameAsItself("TRUE");
    }
  }

  /** A single reply is a line to its reader only when all of it is there. */
  lemma ReplyCut(buff: string, inbox: string, k: nat)
    requires OneLine(buff + inbox) && 1 <= k <= |inbox|
    ensures EndsLine(buff + inbox[..k]) <==> k == |inbox|
    ensures k == |inbox| ==> buff + inbox[..k] == buff + inbox
    ensures buff + inbox[..k] + inbox[k..] == buff + inbox
  {
    assert buff + inbox[..k] + inbox[k..] == buff + inbox;
    if k < |inbox| {
      assert (buff + inbox[..k])[|buff| + k - 1] == (buff + inbox)[..|buff + inbox| - 1][|buff| + k - 1];
    } else {
      assert inbox[..k] == inbox;
    }
  }

  /** From Sent on, an exchange stays where Following says. */
  lemma {:induction false} Followed(s: State, w: nat, c: Conn, name: string, run: seq<Label>) returns (j: nat)
    requires Following(s, w, c, name, 0) && GoodName(name) && Exchange(run, w, c) && Exec(s, run).Some?
    ensures Following(Exec(s, run).value, w, c, name, j)
    decreases |run|
  {
    hide Following, Next;
    if run == [] { return 0; }
    var k := |run| - 1;
    j := Followed(s, w, c, name, run[..k]);
    assert Exchange([run[k]], w, c);
    j := Follows(Exec(s, run[..k]).value, w, c, name, j, run[k]);
  }

  ghost predicate Leaves(s: State, w: nat, c: Conn, name: string, run: seq<Label>) {
    var r := Exec(s, [AskLine(w, name)] + run);
    Exchange(run, w, c) && r.Some? && LeftHeld(r.value, c)
  }

  lemma {:induction false} AfterFirst(s: State, l: Label, run: seq<Label>)
    requires Next(s, l).Some?
    ensures Exec(s, [l] + run) == Exec(Next(s, l).value, run)
    decreases |run|
  {
    hide Next;
    if run == [] {
      assert ([l] + run)[..0] == [] && [l] + run == [l];
    } else {
      var k := |run| - 1;
      assert ([l] + run)[..k + 1] == [l] + run[..k];
      AfterFirst(s, l, run[..k]);
    }
  }

  lemma LeakNeeds(s: State, w: nat, c: Conn, name: string, run: seq<Label>)
    requires AboutToAsk(s, w, c) && GoodName(name) && s.conns[c].inbox == "" && Leaves(s, w, c, name, run)
    ensures Leaky(name)
  {
    hide Next, Sent, Exec, Lines, Played;
    Sends(s, w, name);
    AfterFirst(s, AskLine(w, name), run);
    StartsFollowing(s, w, c, name);
    var j := Followed(Sent(s, w, name), w, c, name, run);
    assert Played(Asked(name), j).held.Some?;
    HeldIs(name, j);
  }

  // ----- with bytes unread, a leak still needs a lock -----

  /** The locker's side of an exchange after j lines. */
  predicate Tracking(t: State, c: Conn, name: string, j: nat) {
    && j <= |Lines(LockText(name))| && c < |t.conns|
    && (t.conns[c] == CLOSED
        || (Alike(t.conns[c], Played(Asked(name), j)) && (j == 0 ==> t.conns[c].held == None)))
  }

  lemma StartsTracking(s: State, w: nat, c: Conn, name: string)
    requires AboutToAsk(s, w, c)
    ensures Tracking(Sent(s, w, name), c, name, 0)
  {
    hide Lines;
  }

  lemma AnswerTracks(t: State, c: Conn, name: string, j: nat, late: bool)
    requires Tracking(t, c, name, j) && NextAnswer(t, c, late).Some?
    ensures Tracking(NextAnswer(t, c, late).value, c, name, j + 1)
  {
    hide Serve, Lines, Played;
    ServedAlike(Get(t, c), Played(Asked(name), j), late, IsHeld(t));
    PlayedNext(Asked(name), j);
    LinesLeft(Asked(name), j);
  }

  lemma ChunkTracks(t: State, w: nat, c: Conn, name: string, j: nat, k: nat)
    requires Tracking(t, c, name, j) && CanRead(t, w, k)
    ensures Tracking(NextChunk(t, w, k).value, c, name, j)
  {
    hide Serve, Lines, Played, Take, CText, SameText;
  }

  lemma {:induction false} Tracked(s: State, w: nat, c: Conn, name: string, run: seq<Label>) returns (j: nat)
    requires Tracking(s, c, name, 0) && Exchange(run, w, c) && Exec(s, run).Some?
    ensures Tracking(Exec(s, run).value, c, name, j)
    decreases |run|
  {
    hide Tracking, NextAnswer, NextChunk;
    if run == [] { return 0; }
    var k := |run| - 1;
    var i := Tracked(s, w, c, name, run[..k]);
    var t := Exec(s, run[..k]).value;
    if run[k].Answer? {
      AnswerTracks(t, c, name, i, run[k].late);
      j := i + 1;
    } else {
      ChunkTracks(t, w, c, name, i, run[k].k);
      j := i;
    }
  }

  lemma LeakNeedsALock(s: State, w: nat, c: Conn, name: string, run: seq<Label>)
    requires AboutToAsk(s, w, c) && GoodName(name) && Leaves(s, w, c, name, run)
    ensures HeldFrom(name, 1)
  {
    hide Next, Sent, Exec, Lines, Played;
    Sends(s, w, name);
    AfterFirst(s, AskLine(w, name), run);
    StartsTracking(s, w, c, name);
    var j := Tracked(Sent(s, w, name), w, c, name, run);
    assert Played(Asked(name), j).held.Some?;
    HeldIs(name, j);
  }

  // ----- unread bytes and leaky names do leak -----

  /** No other connection holds a lock. */
  predicate Alone(s: State, c: Conn) { forall d :: 0 <= d < |s.conns| && d != c ==> s.conns[d].held == None }

  function Answers(c: Conn, j: nat): seq<Label> { seq(j, i => Answer(c, false)) }

  /** What j replies add to the inbox. */
  lemma {:induction false} Replies(b: Back, j: nat)
    requires b.up && '\0' !in b.inbox && (forall i: nat :: i < j ==> Played(b, i).requests != [])
    ensures var p := Played(b, j).inbox;
            && |b.inbox| + 5 * j <= |p| <= |b.inbox| + 7 * j && '\0' !in p && (j > 0 ==> EndsLine(p))
            && (j > 0 && Played(b, j).held.Some? ==> |p| > |b.inbox| + 5 * j)
    decreases j
  {
    hide Serve;
    if j > 0 {
      Replies(b, j - 1);
      PlayedNext(b, j - 1);
      OneReplyMore(Played(b, j - 1));
    }
  }

  lemma OneReplyMore(b: Back)
    requires b.requests != [] && Serve(b, false, {}).Some? && '\0' !in b.inbox
    ensures var p := Serve(b, false, {}).value;
            && |b.inbox| + (if p.held.Some? then 6 else 5) <= |p.inbox| <= |b.inbox| + 7
            && '\0' !in p.inbox && EndsLine(p.inbox)
  {
    hide SameText, Clip, CText, EndsLine;
    Said(b.inbox, "TRUE");
    Said(b.inbox, "FALSE");
    Said(b.inbox, "BYE");
  }

  lemma Said(inbox: string, reply: string)
    requires '\0' !in inbox && '\0' !in reply
    ensures var p := inbox + reply + CRLF; |p| == |inbox| + |reply| + 2 && '\0' !in p && EndsLine(p)
  {
  }

  /** Once the locker has left it stays away, and it holds nothing. */
  lemma {:induction false} LeftForGood(b: Back, j: nat)
    requires b.up && j <= |b.requests|
    ensures if Played(b, j).up then Played(b, j).requests == b.requests[j..]
            else Played(b, j).requests == [] && Played(b, j).held == None
    decreases j
  {
    hide SameText, Clip, CText;
    if j > 0 {
      LeftForGood(b, j - 1);
      if Played(b, j - 1).requests != [] {
        PlayedNext(b, j - 1);
      } else {
        PlayedStops(b, j - 1);
      }
    }
  }

  lemma {:induction false} PlayedStops(b: Back, j: nat)
    requires Played(b, j).requests == []
    ensures Played(b, j + 1) == Played(b, j)
    decreases j
  {
    hide SameText, Clip, CText;
    if j > 0 && b.requests != [] && Serve(b, false, {}).Some? { PlayedStops(Serve(b, false, {}).value, j - 1); }
  }

  /** A locker that holds something after j lines has found each of them waiting. */
  lemma {:induction false} AllWereWaiting(b: Back, j: nat)
    requires b.up && j <= |b.requests| && Played(b, j).up
    ensures forall i: nat :: i < j ==> Played(b, i).requests != []
    decreases j
  {
    hide Serve, Played;
    if j > 0 {
      LeftForGood(b, j - 1);
      if !Played(b, j - 1).up { PlayedStops(b, j - 1); }
      AllWereWaiting(b, j - 1);
    }
  }

  lemma {:induction false} AnswersPlay(t: State, c: Conn, j: nat)
    requires c < |t.conns| && t.conns[c].up && Alone(t, c) && j <= |t.conns[c].requests| && Played(t.conns[c], j).up
    ensures Exec(t, Answers(c, j)) == Some(t.(conns := t.conns[c := Played(t.conns[c], j)]))
    decreases j
  {
    hide Serve, Next, Played;
    var b := t.conns[c];
    AllWereWaiting(b, j);
    if j == 0 {
      PlayedNone(b);
      assert t.conns[c := b] == t.conns && Answers(c, 0) == [];
    } else {
      PlayedNext(b, j - 1);
      LeftForGood(b, j - 1);
      AnswersPlay(t, c, j - 1);
      assert Answers(c, j)[..j - 1] == Answers(c, j - 1);
      AnswerPlays(t.(conns := t.conns[c := Played(b, j - 1)]), c);
      assert t.conns[c := Played(b, j - 1)][c := Played(b, j)] == t.conns[c := Played(b, j)];
    }
  }

  lemma AnswerPlays(t: State, c: Conn)
    requires c < |t.conns| && t.conns[c].up && t.conns[c].requests != [] && Alone(t, c)
             && Serve(t.conns[c], false, {}).Some?
    ensures Next(t, Answer(c, false)) == Some(t.(conns := t.conns[c := Serve(t.conns[c], false, {}).value]))
  {
    hide SameText, Clip, CText, Say;
    assert t.conns[c].held == None ==> IsHeld(t) == {};
  }

  /** Reading more than a bare TRUE gives the backend back as it is. */
  lemma ReadAway(t: State, w: nat, c: Conn)
    requires InTalk(t, w) && t.workers[w].session.pback == Some(c) && c < |t.conns|
    requires t.workers[w].session.buff == "" && EndsLine(t.conns[c].inbox) && '\0' !in t.conns[c].inbox
    requires 6 < |t.conns[c].inbox| <= BUFF_SIZE
    ensures var r := Next(t, Chunk(w, |t.conns[c].inbox|));
            r.Some? && c in r.value.back && Get(r.value, c).held == t.conns[c].held
  {
    hide SameText, ReadyLine, LockedLine, QueueTick, NextReturn, NextPong, NextAnswer, Lose, Leave, Release;
    var inbox := t.conns[c].inbox;
    assert inbox[..|inbox|] == inbox && "" + inbox == inbox;
    var text := inbox[..|inbox| - 2];
    WholeText(text);
    NotTrue(text);
  }

  lemma NotTrue(text: string)
    requires |text| > 4
    ensures !SameText(text, "TRUE")
  {
  }

  lemma {:induction false} PlayedAlike(b: Back, p: Back, j: nat)
    requires Alike(b, p) && Alike(p, b)
    ensures Alike(Played(b, j), Played(p, j)) && Alike(Played(p, j), Played(b, j))
    decreases j
  {
    hide Serve;
    if j > 0 && b.requests != [] {
      AlwaysServed(b);
      AlwaysServed(p);
      ServedAlike(b, p, false, {});
      ServedAlike(p, b, false, {});
      PlayedAlike(Serve(b, false, {}).value, Serve(p, false, {}).value, j - 1);
    }
  }

  lemma AlwaysServed(b: Back)
    requires b.requests != []
    ensures Serve(b, false, {}).Some?
  {
  }

  lemma Leak(s: State, w: nat, c: Conn, name: string, j: nat) returns (run: seq<Label>)
    requires AboutToAsk(s, w, c) && GoodName(name) && Alone(s, c) && '\0' !in s.conns[c].inbox
    requires 1 <= j <= |Lines(LockText(name))| && Played(Asked(name), j).held.Some?
    requires (j >= 2 || s.conns[c].inbox != "") && |s.conns[c].inbox| + 7 * j <= BUFF_SIZE
    ensures Leaves(s, w, c, name, run)
  {
    hide Lines, Played, Serve, Next, Exec, EndsLine, LockText;
    var t := Sent(s, w, name);
    var b := t.conns[c];
    PlayedAlike(b, Asked(name), j);
    LeftForGood(b, j);
    AllWereWaiting(b, j);
    Replies(b, j);
    AnswersPlay(t, c, j);
    var u := t.(conns := t.conns[c := Played(b, j)]);
    ReadAway(u, w, c);
    var last := Chunk(w, |Played(b, j).inbox|);
    run := Answers(c, j) + [last];
    OneMore(t, Answers(c, j), last);
    Sends(s, w, name);
    AfterFirst(s, AskLine(w, name), run);
  }

  lemma OneMore(s: State, run: seq<Label>, l: Label)
    requires Exec(s, run).Some?
    ensures Exec(s, run + [l]) == Next(Exec(s, run).value, l)
  {
    assert (run + [l])[..|run|] == run;
  }

  lemma {:induction false} LinesAreFew(t: string)
    ensures 2 * |Lines(t)| <= |t|
    decreases |t|
  {
    var p := FirstPair(t, 0);
    if p < |t| { LinesAreFew(t[p + 2..]); }
  }

  /** A plain name makes one line, which the locker grants. */
  lemma PlainIsGranted(name: string)
    requires GoodName(name) && Plain(name)
    ensures |Lines(LockText(name))| == 1 && Played(Asked(name), 1).held.Some?
  {
    hide SameText;
    CommandLines();
    WholeText("LOCK " + name);
    assert ("LOCK " + name)[..5] == "LOCK ";
    SameAsItself("LOCK ");
    NotQuit("LOCK " + name);
    assert Asked(name).requests == ["LOCK " + name];
    PlayedNone(Serve(Asked(name), false, {}).value);
  }

  lemma NotQuit(t: string)
    requires |t| > 4
    ensures !SameText(t, "QUIT")
  {
  }

  /** When a ready session asks an idle backend for a name: the locker and the reads can go
      so that the backend comes back to back_list with a granted lock, exactly when the locker
      holds one up to some line of what it is sent: any line when bytes of an earlier reply were
      unread, whatever they are, and one behind the first when not. */
  lemma LeaksExactlyWhenStaleOrLeaky(s: State, w: nat, c: Conn, name: string)
    requires AboutToAsk(s, w, c) && GoodName(name) && Alone(s, c) && '\0' !in s.conns[c].inbox
    requires |s.conns[c].inbox| + 7 * |Lines(LockText(name))| <= BUFF_SIZE
    ensures (exists run :: Leaves(s, w, c, name, run)) <==> HeldFrom(name, if s.conns[c].inbox == "" then 2 else 1)
  {
    hide Lines, Played, Leaves;
    var stale := s.conns[c].inbox != "";
    var first := if stale then 1 else 2;
    if HeldFrom(name, first) {
      var j :| first <= j <= |Lines(LockText(name))| && LocksUpTo(Lines(LockText(name)), j);
      HeldIs(name, j);
      var run := Leak(s, w, c, name, j);
    }
    forall run | Leaves(s, w, c, name, run) ensures HeldFrom(name, first) {
      if stale { LeakNeedsALock(s, w, c, name, run); } else { LeakNeeds(s, w, c, name, run); }
    }
  }

  /** For a plain name the unread bytes alone decide. */
  lemma PlainLeaksExactlyWhenStale(s: State, w: nat, c: Conn, name: string)
    requires AboutToAsk(s, w, c) && GoodName(name) && Plain(name) && Alone(s, c) && '\0' !in s.conns[c].inbox
    requires |s.conns[c].inbox| + 7 <= BUFF_SIZE
    ensures (exists run :: Leaves(s, w, c, name, run)) <==> s.conns[c].inbox != ""
  {
    hide Lines, Played, Leaves, Plain;
    PlainIsGranted(name);
    HeldIs(name, 1);
    PlainIsTight(name);
    LeaksExactlyWhenStaleOrLeaky(s, w, c, name);
  }

  /** For a name of two lines: with a first line that asks for something, it leaks unless the
      second one is UNLOCK or QUIT; otherwise only if the second line is a LOCK. */
  lemma TwoLineNames(a: string, b: string)
    requires GoodName(a + CRLF + b) && Plain(a) && Plain(b)
    ensures Leaky(a + CRLF + b) <==>
              if a != "" then !SameText(b, "UNLOCK") && !SameText(b, "QUIT") else IsLock(b)
  {
    hide SameText, Lines, CText;
    TwoLinesOf(a, b);
    var lines := ["LOCK " + a, b];
    assert '\0' !in a && '\0' !in b by {
      forall i | 0 <= i < |a| ensures a[i] != '\0' { assert (a + CRLF + b)[i] == a[i]; }
      forall i | 0 <= i < |b| ensures b[i] != '\0' { assert (a + CRLF + b)[|a| + 2 + i] == b[i]; }
    }
    WholeText(lines[0]);
    WholeText(b);
    NotQuit(lines[0]);
    assert lines[0][..5] == "LOCK ";
    SameAsItself("LOCK ");
    LockIsNoQuit(b);
    if a != "" && !SameText(b, "UNLOCK") && !SameText(b, "QUIT") { assert LocksAt(lines, 0) && Stays(lines, 0, 2); }
    if IsLock(b) { assert LocksAt(lines, 1) && Stays(lines, 1, 2); }
    assert (exists j :: 2 <= j <= |lines| && LocksUpTo(lines, j)) <==> LocksUpTo(lines, 2);
    if LocksUpTo(lines, 2) { assert !QuitsAt(lines, 1) && (LocksAt(lines, 1) || !UnlocksAt(lines, 1)); }
  }

  lemma TwoLinesOf(a: string, b: string)
    requires Plain(a) && Plain(b)
    ensures Lines(LockText(a + CRLF + b)) == ["LOCK " + a, b]
  {
    PlainLock(a);
    FirstLine("LOCK " + a, b + CRLF);
    OneLineExactlyWhenPlain(b);
    assert LockText(a + CRLF + b) == "LOCK " + a + CRLF + (b + CRLF);
  }

  lemma LockIsNoQuit(t: string)
    ensures IsLock(t) ==> !SameText(t, "QUIT") && !SameText(t, "UNLOCK")
  {
    UnlockIsNoLock(t);
  }
}
