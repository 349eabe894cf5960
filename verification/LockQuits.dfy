/** Exactly which names can lead to a granted lock in back_list. A name with a QUIT in it
    ends the connection first, unless it has left a lock before that. */
module LockQuits {
  import opened Options
  import opened Texts
  import opened LineReader
  import opened Pools
  import opened LockBroker
  import opened LockInvariant
  import opened LockSafety
  import opened LockLeak
  import opened LockNames

  // ----- a connection on its way to a QUIT -----

  /** The locker has left: nothing is granted any more. */
  predicate Gone(b: Back) { !b.up && b.held == None && b.requests == [] }

  /** The worker that has the only lock, taken with the first line. */
  predicate Holding(x: Worker, b: Back)
    requires x.Serving?
  {
    match x.pc
    case Loop(_) => b.inbox == ""
    case Talking(_, _) =>
      if x.session.status.Locked? then b.inbox == "" else b.inbox != "" && x.session.buff + b.inbox == SAID_TRUE
    case Clearing(_, _) => true
  }

  predicate HasIt(s: State, c: Conn, w: nat) { In(s, c, w) && Holding(s.workers[w], Get(s, c)) }

  /** Worker w has sent the lines and nothing has come back. */
  predicate Unanswered(s: State, c: Conn, w: nat) {
    && In(s, c, w) && s.workers[w].pc.Talking? && !s.workers[w].session.status.Locked?
    && s.workers[w].session.buff == "" && Get(s, c).inbox == ""
  }

  predicate QuitAhead(lines: seq<string>, j: nat) {
    (forall m :: 0 <= m < j ==> !QuitsAt(lines, m)) && exists m :: j <= m < |lines| && QuitsAt(lines, m)
  }

  /** The locker has handled j of the lines, and a QUIT is still among the others. */
  ghost predicate Waiting(s: State, c: Conn, lines: seq<string>, j: nat) {
    var b := Get(s, c);
    && b.up && j <= |lines| && lines[j..] <= b.requests && QuitAhead(lines, j)
    && (j == 0 ==> b.held == None && exists w: nat :: Unanswered(s, c, w))
    && (b.held.Some? ==> j == 1 && LocksAt(lines, 0) && exists w: nat :: HasIt(s, c, w))
  }

  ghost predicate Doomed(s: State, c: Conn, lines: seq<string>) {
    Fits(s, c) || Gone(Get(s, c)) || exists j: nat :: Waiting(s, c, lines, j)
  }

  /** It never is in back_list with a lock. */
  lemma DoomedIsSafe(s: State, c: Conn, lines: seq<string>)
    requires Inv(s) && Doomed(s, c, lines) && c in s.back
    ensures Get(s, c).held == None
  {
    hide Inv;
    BackListIsSafe(s, c);
  }

  predicate NeverLeft(lines: seq<string>) { forall j :: 2 <= j <= |lines| ==> !LocksUpTo(lines, j) }

  lemma StepKeepsDoomed(s: State, l: Label, c: Conn, lines: seq<string>)
    requires Inv(s) && AllNamed(s) && Next(s, l).Some? && Careful(s, l) && c < |s.conns|
    requires Doomed(s, c, lines) && NeverLeft(lines)
    ensures Doomed(Next(s, l).value, c, lines)
  {
    hide Inv, AllNamed, Next, Careful, Fits, Gone, Waiting, NeverLeft;
    if Fits(s, c) {
      StepKeepsFits(s, l, c);
    } else if Gone(Get(s, c)) {
      StaysGone(s, l, c);
    } else {
      var j: nat :| Waiting(s, c, lines, j);
      StepInv(s, l);
      if l.Answer? && l.c == c {
        AnswerWaiting(s, l.late, c, lines, j);
      } else if l.HangUp? && l.c == c {
        HangUpGone(s, c);
      } else if OfWorker(l) {
        WorkerWaiting(s, l, c, lines, j);
      } else {
        OthersWaiting(s, l, c, lines, j);
      }
    }
  }

  lemma StepInv(s: State, l: Label)
    requires Inv(s) && Next(s, l).Some?
    ensures Inv(Next(s, l).value) && |Next(s, l).value.conns| == |s.conns|
  {
    hide Inv, Next;
    StepKeepsInv(s, l);
    SameConns(s, l);
  }

  lemma StaysGone(s: State, l: Label, c: Conn)
    requires Inv(s) && Next(s, l).Some? && c < |s.conns| && Gone(Get(s, c))
    ensures Gone(Get(Next(s, l).value, c)) || Fits(Next(s, l).value, c)
  {
    hide Inv, Fits;
    if l.Reconnect? && l.ok && s.temp != [] && s.temp[0] == c {
      StepInv(s, l);
      NewFits(Next(s, l).value, c);
    } else if OfWorker(l) {
      WorkerLeavesGone(s, l, c);
    } else {
      OthersLeaveGone(s, l, c);
    }
  }

  lemma NewFits(t: State, c: Conn)
    requires Inv(t) && c in t.back && Get(t, c) == NEW
    ensures Fits(t, c)
  {
    hide Inv;
    BackListIsSafe(t, c);
    QuietFits(t, c);
  }

  lemma WorkerLeavesGone(s: State, l: Label, c: Conn)
    requires OfWorker(l) && Next(s, l).Some? && c < |s.conns| && Gone(Get(s, c))
    ensures Gone(Get(Next(s, l).value, c))
  {
    hide CText, SameText, Clip, Without, Take, Lines, LockText, Move, IsLock, IsTrue, Hear;
    hide NextAccept, NextPong, NextAnswer, NextHangUp, Keep, Pick;
  }

  lemma OthersLeaveGone(s: State, l: Label, c: Conn)
    requires !OfWorker(l) && Next(s, l).Some? && c < |s.conns| && Gone(Get(s, c))
    requires !(l.Reconnect? && l.ok && s.temp != [] && s.temp[0] == c)
    ensures Gone(Get(Next(s, l).value, c))
  {
    hide Lines, Keep, Pick, Move, ReadyLine, LockedLine, QueueTick, NextChunk, NextReturn, Lose, Leave, Release, IsHeld;
  }

  lemma HangUpGone(s: State, c: Conn)
    requires Next(s, HangUp(c)).Some? && c < |s.conns|
    ensures Gone(Get(Next(s, HangUp(c)).value, c))
  {
  }

  // ----- the locker's step -----

  lemma AnswerWaiting(s: State, late: bool, c: Conn, lines: seq<string>, j: nat)
    requires Next(s, Answer(c, late)).Some? && c < |s.conns| && Waiting(s, c, lines, j) && NeverLeft(lines)
    ensures var t := Next(s, Answer(c, late)).value;
            Gone(Get(t, c)) || Waiting(t, c, lines, j + 1)
  {
    hide Serve, QuitsAt, LocksAt, UnlocksAt, LocksUpTo, NeverLeft, Holding;
    var t, b := Next(s, Answer(c, late)).value, Get(s, c);
    var taken := IsHeld(s);
    var m :| j <= m < |lines| && QuitsAt(lines, m);
    assert b.requests[0] == lines[j] by { assert lines[j..][0] == lines[j]; }
    assert lines[j + 1..] <= b.requests[1..] by { Behind(lines, j, b.requests); }
    LineServed2(b, lines, j, late, taken);
    if !QuitsAt(lines, j) {
      assert QuitAhead(lines, j + 1);
      if j > 0 { NoLockNow(lines, j); }
      if j == 0 {
        var w: nat :| Unanswered(s, c, w);
        if Get(t, c).held.Some? { assert HasIt(t, c, w) by { GrantHeld(s, t, c, w); } }
      }
    }
  }

  lemma Behind(lines: seq<string>, j: nat, q: seq<string>)
    requires j < |lines| && lines[j..] <= q
    ensures lines[j + 1..] <= q[1..]
  {
    assert lines[j..][1..] == lines[j + 1..];
  }

  /** One line, in time or late, contended or not. */
  lemma LineServed2(b: Back, lines: seq<string>, j: nat, late: bool, taken: set<string>)
    requires j < |lines| && b.up && b.requests != [] && b.requests[0] == lines[j] && Serve(b, late, taken).Some?
    ensures var p := Serve(b, late, taken).value;
            if QuitsAt(lines, j) then Gone(p)
            else
              && p.up && p.requests == b.requests[1..]
              && (p.held.Some? ==> LocksAt(lines, j) || (b.held.Some? && !UnlocksAt(lines, j)))
              && (p.held.Some? && b.held == None ==> p.inbox == b.inbox + "TRUE" + CRLF)
  {
    hide CText, SameText, Clip, IsLock;
    UnlockIsNoLock(CText(lines[j]));
  }

  /** Nothing is held behind a line that is not the first. */
  lemma NoLockNow(lines: seq<string>, j: nat)
    requires 0 < j < |lines| && NeverLeft(lines) && forall m :: 0 <= m < j + 1 ==> !QuitsAt(lines, m)
    ensures !LocksAt(lines, j) && (j == 1 && LocksAt(lines, 0) ==> UnlocksAt(lines, 1))
  {
    hide QuitsAt, LocksAt, UnlocksAt;
    assert !LocksUpTo(lines, j + 1);
    assert Stays(lines, j, j + 1) && (!UnlocksAt(lines, 1) ==> Stays(lines, 0, 2));
  }

  lemma GrantHeld(s: State, t: State, c: Conn, w: nat)
    requires Unanswered(s, c, w) && t.workers == s.workers && Get(t, c).inbox == "" + "TRUE" + CRLF
    ensures HasIt(t, c, w)
  {
    assert "" + ("" + "TRUE" + CRLF) == SAID_TRUE;
  }

  // ----- the other steps -----

  /** The scanner's steps, and the locker's on other connections. */
  lemma OthersWaiting(s: State, l: Label, c: Conn, lines: seq<string>, j: nat)
    requires Inv(s) && Next(s, l).Some? && Inv(Next(s, l).value) && |Next(s, l).value.conns| == |s.conns|
    requires c < |s.conns| && Waiting(s, c, lines, j) && !OfWorker(l)
    requires !(l.Answer? && l.c == c) && !(l.HangUp? && l.c == c)
    ensures Doomed(Next(s, l).value, c, lines)
  {
    hide Inv, Serve, IsHeld, QuitAhead, LocksAt, Fits, Pick, Keep, Lines, Holding;
    var t := Next(s, l).value;
    Owned(s, c, lines, j);
    match l
    case SendPing => StillWaiting(s, t, c, lines, j);
    case Pong(_) => StillWaiting(s, t, c, lines, j);
    case PingFails => if s.scan.conn != c { StillWaiting(s, t, c, lines, j); } else { assert Gone(Get(t, c)); }
    case Reconnect(ok) => if ok && s.temp[0] == c { NewFits(t, c); } else { StillWaiting(s, t, c, lines, j); }
    case _ => StillWaiting(s, t, c, lines, j);
  }

  /** Whoever waits for the lines, or has the lock, is a worker. */
  lemma Owned(s: State, c: Conn, lines: seq<string>, j: nat)
    requires Inv(s) && Waiting(s, c, lines, j)
    ensures c in s.back || c in s.temp || s.scan == Awaiting(c) ==> j > 0 && Get(s, c).held == None
  {
    hide Inv, Holding;
    if j == 0 {
      var w: nat :| Unanswered(s, c, w);
      OwnerIsAlone(s, c, w);
    }
    if Get(s, c).held.Some? {
      var w: nat :| HasIt(s, c, w);
      OwnerIsAlone(s, c, w);
    }
  }

  /** More may be asked and, with nothing held, read. */
  lemma StillWaiting(s: State, t: State, c: Conn, lines: seq<string>, j: nat)
    requires Waiting(s, c, lines, j)
    requires var b, d := Get(s, c), Get(t, c);
             d.up && d.held == b.held && b.requests <= d.requests && (j == 0 || b.held.Some? ==> d == b)
    requires j == 0 || Get(s, c).held.Some? ==>
               forall w: nat :: In(s, c, w) ==> In(t, c, w) && t.workers[w] == s.workers[w]
    ensures Waiting(t, c, lines, j) && Doomed(t, c, lines)
  {
    hide QuitAhead, LocksAt, Fits, Gone;
    if j == 0 {
      var w: nat :| Unanswered(s, c, w);
      assert Unanswered(t, c, w);
    }
    if Get(s, c).held.Some? {
      var w: nat :| HasIt(s, c, w);
      assert HasIt(t, c, w);
    }
  }

  /** A worker's step closes the connection, or leaves the locker's side of it alone but for
      more lines. */
  lemma WorkerLink(s: State, l: Label, c: Conn)
    requires OfWorker(l) && Next(s, l).Some? && c < |s.conns|
    ensures var b, d := Get(s, c), Get(Next(s, l).value, c);
            Gone(d) || (d.up == b.up && d.held == b.held && b.requests <= d.requests)
  {
    hide CText, SameText, Clip, Without, Take, Lines, LockText, Move, IsLock, IsTrue, Hear;
    hide NextAccept, NextPong, NextAnswer, NextHangUp, Keep, Pick;
  }

  lemma WorkerWaiting(s: State, l: Label, c: Conn, lines: seq<string>, j: nat)
    requires Inv(s) && OfWorker(l) && Next(s, l).Some? && Inv(Next(s, l).value) && |Next(s, l).value.conns| == |s.conns|
    requires c < |s.conns| && Waiting(s, c, lines, j)
    ensures Doomed(Next(s, l).value, c, lines)
  {
    hide Inv, Next, QuitAhead, LocksAt, Fits, Holding, SessionOk;
    var t, b := Next(s, l).value, Get(s, c);
    WorkerLink(s, l, c);
    OthersStay(s, l);
    if Gone(Get(t, c)) {
    } else if j > 0 && b.held == None {
      StillWaiting(s, t, c, lines, j);
    } else {
      var v := Owner(s, c, lines, j);
      if l.w == v {
        SessionIn(s, v);
        OwnerSteps(s, l, c, lines, j);
      } else {
        assert In(t, c, v);
        OwnerIsAlone(s, c, v);
        OwnerIsAlone(t, c, v);
        SessionIn(s, l.w);
        NotInvolved(s, l, c);
        forall w: nat | In(s, c, w) ensures In(t, c, w) && t.workers[w] == s.workers[w] { assert w == v; }
        StillWaiting(s, t, c, lines, j);
      }
    }
  }

  lemma Owner(s: State, c: Conn, lines: seq<string>, j: nat) returns (v: nat)
    requires Waiting(s, c, lines, j) && (j == 0 || Get(s, c).held.Some?)
    ensures In(s, c, v) && (j == 0 ==> Unanswered(s, c, v)) && (Get(s, c).held.Some? ==> HasIt(s, c, v))
  {
    hide QuitAhead, LocksAt, Holding;
    if j == 0 {
      v :| Unanswered(s, c, v);
    } else {
      v :| HasIt(s, c, v);
    }
  }

  /** The worker that waits for the first reply, or has the lock. */
  lemma OwnerSteps(s: State, l: Label, c: Conn, lines: seq<string>, j: nat)
    requires OfWorker(l) && Next(s, l).Some? && c < |s.conns| == |Next(s, l).value.conns| && Waiting(s, c, lines, j)
    requires In(s, c, l.w) && SessionOk(s.workers[l.w]) && !Gone(Get(Next(s, l).value, c))
    requires (j == 0 && Unanswered(s, c, l.w)) || (Get(s, c).held.Some? && HasIt(s, c, l.w))
    ensures Waiting(Next(s, l).value, c, lines, j)
  {
    hide QuitAhead, LocksAt, Next, Holding, SessionOk;
    var t := Next(s, l).value;
    WorkerLink(s, l, c);
    if l.Chunk? {
      OwnerReads(s, l.w, l.k, c);
    } else {
      OwnerDoesNotRead(s, l, c);
    }
    NotBoth(s, c, l.w);
    if Get(s, c).held.Some? { assert HasIt(t, c, l.w); }
  }

  lemma NotBoth(s: State, c: Conn, w: nat)
    requires HasIt(s, c, w)
    ensures !Unanswered(s, c, w)
  {
  }

  lemma OwnerReads(s: State, w: nat, k: nat, c: Conn)
    requires Next(s, Chunk(w, k)).Some? && c < |s.conns| && In(s, c, w) && SessionOk(s.workers[w])
    requires !Gone(Get(Next(s, Chunk(w, k)).value, c)) && (Unanswered(s, c, w) || HasIt(s, c, w))
    ensures HasIt(s, c, w) && HasIt(Next(s, Chunk(w, k)).value, c, w)
  {
    hide EndsLine, Arriving, CText, SameText;
    var buff, inbox := s.workers[w].session.buff, Get(s, c).inbox;
    ReplyArrives(buff, inbox);
    Cut(buff, inbox, k);
    WholeText("TRUE");
    SameAsItself("TRUE");
  }

  lemma OwnerDoesNotRead(s: State, l: Label, c: Conn)
    requires OfWorker(l) && !l.Chunk? && Next(s, l).Some? && c < |s.conns| && In(s, c, l.w) && SessionOk(s.workers[l.w])
    requires !Gone(Get(Next(s, l).value, c)) && (Unanswered(s, c, l.w) || HasIt(s, c, l.w))
    ensures HasIt(s, c, l.w) && HasIt(Next(s, l).value, c, l.w)
  {
    hide CText, SameText, Clip, Without, Lines;
  }

  // ----- the result -----

  lemma {:induction false} CarefulGoesOn(s: State, run: seq<Label>, c: Conn, lines: seq<string>)
    requires Inv(s) && AllNamed(s) && Exec(s, run).Some? && CarefulRun(s, run) && c < |s.conns|
    requires Doomed(s, c, lines) && NeverLeft(lines)
    ensures var t := Exec(s, run).value;
            Inv(t) && AllNamed(t) && |t.conns| == |s.conns| && Doomed(t, c, lines)
    decreases |run|
  {
    hide Inv, AllNamed, Next, Careful, Doomed, NeverLeft;
    if run != [] {
      var k := |run| - 1;
      CarefulPrefix(s, run, k);
      CarefulGoesOn(s, run[..k], c, lines);
      var t := Exec(s, run[..k]).value;
      StepInv(t, run[k]);
      StepKeepsNames(t, run[k]);
      StepKeepsDoomed(t, run[k], c, lines);
    }
  }

  lemma NoLeakAt(s: State, u: State, d: Conn, lines: seq<string>)
    requires Inv(s) && AllNamed(s) && CanGo(s, u) && d < |s.conns| && Doomed(s, d, lines) && NeverLeft(lines)
    ensures !LeftHeld(u, d)
  {
    hide Inv, AllNamed, Doomed, NeverLeft, Exec, CarefulRun;
    var run :| Goes(s, run, u);
    CarefulGoesOn(s, run, d, lines);
    if d in u.back { DoomedIsSafe(u, d, lines); }
  }

  lemma HeldIsUp(s: State, d: Conn)
    requires Inv(s) && AllFit(s) && d < |s.conns| && s.conns[d].held.Some?
    ensures s.conns[d].up
  {
    hide OpenExactly, FrontsOk, SessionsOk, Inv, AllFit;
    GrantsBelongToWorkers(s, d);
    var w: nat :| In(s, d, w);
    FitsAt(s, d);
    hide Fits;
    assert InStep(s.workers[w], Get(s, d));
  }

  lemma FitsAt(s: State, d: Conn)
    requires AllFit(s) && d < |s.conns|
    ensures Fits(s, d) && forall w: nat :: In(s, d, w) ==> InStep(s.workers[w], Get(s, d))
  {
  }

  /** A ready session is about to ask the first backend, a live one, for the name. */
  predicate Asks(s: State, w: nat, name: string) {
    && AtLoop(s, w) && s.workers[w].session.status.Ready? && s.back != [] && GoodName(name)
    && Get(s, s.back[0]).up
  }

  /** In every state that is in step: a LOCK with this name can be followed, carefully from
      then on, by a granted lock in back_list, exactly when the name has a CRLF inside and its
      lines leave a lock behind the first one, or at least none of them is QUIT. */
  lemma NamesLeakExactlyWhen(s: State, w: nat, name: string)
    requires Inv(s) && AllNamed(s) && AllFit(s) && Asks(s, w, name)
    ensures LeaksLater(s, w, name) <==> !Plain(name) && (Leaky(name) || !Quits(name))
  {
    hide Inv, AllNamed, AllFit, Plain, Leaky, Quits, CanGo, Next;
    Sends(s, w, name);
    if !Plain(name) && (Leaky(name) || !Quits(name)) {
      CarelessLeaks(s, w, name);
    } else {
      TightNameIsSafe(s, w, name);
    }
  }

  lemma CarelessLeaks(s: State, w: nat, name: string)
    requires Inv(s) && AllFit(s) && Asks(s, w, name) && !Plain(name) && (Leaky(name) || !Quits(name))
    ensures LeaksFrom(Sent(s, w, name))
  {
    hide Inv, AllFit, Lines, LockText, LocksUpTo, Quits, CanGo, Plain, Fits;
    var t, c := Sent(s, w, name), s.back[0];
    AskedQuiet(s, w, name);
    forall d | 0 <= d < |t.conns| && d != c && t.conns[d].held.Some? ensures t.conns[d].up { HeldIsUp(s, d); }
    GoNowhere(t);
    var u := FreeOthers(t, t, c);
    FirstOfMany(name);
    if Leaky(name) {
      var j :| 2 <= j <= |Lines(LockText(name))| && LocksUpTo(Lines(LockText(name)), j);
      LeakFrom(t, u, w, c, name, j);
    } else {
      NoQuitLeaks(t, u, w, c, name);
    }
  }

  lemma AskedQuiet(s: State, w: nat, name: string)
    requires Inv(s) && AllFit(s) && Asks(s, w, name)
    ensures var t, c := Sent(s, w, name), s.back[0];
            && Waits(t, w, c, name) && t.conns[c].inbox == "" && t.workers[w].pc == Talking(true, Continue)
            && !t.workers[w].session.status.Locked? && |t.conns| == |s.conns|
            && forall d :: 0 <= d < |s.conns| && d != c ==> t.conns[d] == s.conns[d]
  {
    hide Inv, Lines;
    BackListIsSafe(s, s.back[0]);
    SessionIn(s, w);
    assert Fits(s, s.back[0]);
    assert [] + Lines(LockText(name)) == Lines(LockText(name));
  }

  lemma TightNameIsSafe(s: State, w: nat, name: string)
    requires Inv(s) && AllNamed(s) && AllFit(s) && Asks(s, w, name)
    requires Plain(name) || (!Leaky(name) && Quits(name))
    ensures !LeaksFrom(Sent(s, w, name))
  {
    hide Inv, AllNamed, AllFit, Lines, LockText, LocksUpTo, Quits, CanGo, Plain, Fits, Doomed, NeverLeft, Leaky;
    var t, c, lines := Sent(s, w, name), s.back[0], Lines(LockText(name));
    AskedQuiet(s, w, name);
    Sends(s, w, name);
    var l := AskLine(w, name);
    StepInv(s, l);
    StepKeepsNames(s, l);
    TightLines(name);
    forall d | 0 <= d < |t.conns| ensures Doomed(t, d, lines) {
      if d == c && !Plain(name) { StartsWaiting(s, w, name); } else { OtherFits(s, w, name, d, lines); }
    }
    forall u, d: Conn | CanGo(t, u) && LeftHeld(u, d) ensures false {
      if d < |t.conns| { NoLeakAt(t, u, d, lines); } else { NoSuchConn(t, u, d); }
    }
  }

  lemma TightLines(name: string)
    requires Plain(name) || !Leaky(name)
    ensures NeverLeft(Lines(LockText(name)))
  {
    hide Lines, LockText, LocksUpTo, Plain;
    if Plain(name) { PlainIsTight(name); }
  }

  lemma StartsWaiting(s: State, w: nat, name: string)
    requires Inv(s) && AllFit(s) && Asks(s, w, name) && Quits(name)
    ensures Doomed(Sent(s, w, name), s.back[0], Lines(LockText(name)))
  {
    hide Inv, AllFit, Lines, LockText, QuitsAt, Fits;
    AskedQuiet(s, w, name);
    var t, c, lines := Sent(s, w, name), s.back[0], Lines(LockText(name));
    assert Unanswered(t, c, w);
    assert lines[0..] == lines && QuitAhead(lines, 0);
    assert Waiting(t, c, lines, 0);
  }

  lemma OtherFits(s: State, w: nat, name: string, d: Conn, lines: seq<string>)
    requires Inv(s) && AllNamed(s) && AllFit(s) && Asks(s, w, name) && d < |s.conns| && (d != s.back[0] || Plain(name))
    ensures Doomed(Sent(s, w, name), d, lines)
  {
    hide Inv, AllNamed, Fits, Lines, Plain, Gone, Waiting;
    assert Fits(s, d);
    Sends(s, w, name);
    if Plain(name) {
      AskCareful(s, w, name);
      StepKeepsFits(s, AskLine(w, name), d);
    } else {
      BackListIsSafe(s, s.back[0]);
      OtherUnmoved(s, w, name, d);
    }
  }

  lemma AskCareful(s: State, w: nat, name: string)
    requires Asks(s, w, name) && Plain(name)
    ensures Careful(s, AskLine(w, name))
  {
    hide Plain, SameText;
    WholeText("LOCK " + name);
    assert ("LOCK " + name)[5..] == name;
  }

  lemma OtherUnmoved(s: State, w: nat, name: string, d: Conn)
    requires Asks(s, w, name) && Fits(s, d) && d < |s.conns| && d != s.back[0]
    ensures Fits(Sent(s, w, name), d)
  {
    hide Fits, Lines;
    var t := Sent(s, w, name);
    assert forall x | x in t.back :: x in s.back;
    forall v: nat | In(t, d, v) ensures In(s, d, v) && t.workers[v] == s.workers[v] { assert v != w; }
    Unmoved(s, t, d);
  }

  lemma NoSuchConn(s: State, u: State, d: Conn)
    requires Inv(s) && CanGo(s, u) && d >= |s.conns|
    ensures !LeftHeld(u, d)
  {
    hide Inv, Exec, CarefulRun;
    var run :| Goes(s, run, u);
    KeepsConns(s, run);
  }

  lemma {:induction false} KeepsConns(s: State, run: seq<Label>)
    requires Inv(s) && Exec(s, run).Some?
    ensures Inv(Exec(s, run).value) && |Exec(s, run).value.conns| == |s.conns|
    decreases |run|
  {
    hide Inv, Next;
    if run != [] {
      var k := |run| - 1;
      KeepsConns(s, run[..k]);
      StepInv(Exec(s, run[..k]).value, run[k]);
    }
  }

  /** A name of two lines can leave a lock behind exactly when the second one is not QUIT. */
  lemma TwoLinesLater(a: string, b: string)
    requires GoodName(a + CRLF + b) && Plain(a) && Plain(b)
    ensures var name := a + CRLF + b;
            !Plain(name) && (Leaky(name) || !Quits(name)) <==> !SameText(b, "QUIT")
  {
    hide Lines, SameText, CText, Leaky;
    var name, lines := a + CRLF + b, ["LOCK " + a, b];
    TwoLineNames(a, b);
    TwoLinesOf(a, b);
    assert PairAt(name, |a|);
    forall i | 0 <= i < |a| ensures a[i] != '\0' { assert name[i] == a[i]; }
    forall i | 0 <= i < |b| ensures b[i] != '\0' { assert name[|a| + 2 + i] == b[i]; }
    WholeText(lines[0]);
    WholeText(b);
    NotQuit(lines[0]);
    LockIsNoQuit(b);
    assert QuitsAt(lines, 1) <==> SameText(b, "QUIT");
    assert !QuitsAt(lines, 0);
  }
}
