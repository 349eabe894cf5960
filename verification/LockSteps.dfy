/** What each step of the broker does, and what it leaves alone. */
module LockSteps {
  import opened Options
  import opened Texts
  import opened LineReader
  import opened Pools
  import opened LockBroker

  /** Only worker w is different. */
  predicate OnlyWorker(s: State, t: State, w: nat) {
    && w < |s.workers| == |t.workers| && t == s.(workers := t.workers)
    && forall v :: 0 <= v < |s.workers| && v != w ==> t.workers[v] == s.workers[v]
  }

  /** Besides, connection c may be different. */
  predicate OnlyWorkerAndConn(s: State, t: State, w: nat, c: Conn) {
    && OnlyWorker(s.(conns := t.conns), t, w) && |t.conns| == |s.conns|
    && forall d :: 0 <= d < |s.conns| && d != c ==> t.conns[d] == s.conns[d]
  }

  /** The lines have been written to connection c, and are requests of it if its locker is there. */
  predicate Sent(s: State, t: State, c: Conn, lines: seq<string>)
    requires |t.conns| == |s.conns|
  {
    c < |s.conns| ==>
      t.conns[c] == if s.conns[c].up then s.conns[c].(requests := s.conns[c].requests + lines) else s.conns[c]
  }

  /** Worker w serves the same session with these changes. */
  predicate Serves(s: State, t: State, w: nat, se: Session, pc: PC)
    requires AtLoop(s, w) || InTalk(s, w)
  {
    w < |t.workers| && t.workers[w] == Serving(s.workers[w].front, se, pc)
  }

  /** The session is over: its worker waits, and it is not in front_list. */
  predicate Left(s: State, t: State, w: nat)
    requires w < |s.workers| && s.workers[w].Serving?
  {
    && OnlyWorker(s.(front := t.front), t, w) && t.workers[w] == Waiting
    && s.workers[w].front !in t.front
    && (forall f | f in s.front && f != s.workers[w].front :: f in t.front) && forall f | f in t.front :: f in s.front
  }

  predicate IsLocked(s: State, w: nat) {
    AtLoop(s, w) && s.workers[w].session.status.Locked? && s.workers[w].session.pback.Some?
  }

  predicate IsReady(s: State, w: nat) { AtLoop(s, w) && s.workers[w].session.status.Ready? }

  /** The session after it has heard one line more; heard lists the replies given at once. */
  function Heard(se: Session, line: string, said: seq<string>): Session {
    se.(asked := se.asked + Commands(line), merged := se.merged + (Commands(line) - 1), replies := se.replies + said)
  }

  // ----- a session that has a lock -----

  /** The lines that end a lock are QUIT and UNLOCK; any other is answered FALSE, and before
      the lock time is over nothing else happens. */
  lemma LockedLineInTime(s: State, w: nat, line: string)
    requires IsLocked(s, w) && !SameText(CText(line), "QUIT") && !SameText(CText(line), "UNLOCK")
    ensures var t := Next(s, FrontLine(w, line, false));
            && t.Some? && OnlyWorker(s, t.value, w)
            && Serves(s, t.value, w, Heard(s.workers[w].session, line, ["FALSE"]), Loop(0))
  {
    hide CText, SameText, Commands;
  }

  /** When it is over, the backend is asked to unlock besides, and its answer will not be relayed. */
  lemma LockedLineTooLate(s: State, w: nat, line: string)
    requires IsLocked(s, w) && !SameText(CText(line), "QUIT") && !SameText(CText(line), "UNLOCK")
    ensures var c, t := s.workers[w].session.pback.value, Next(s, FrontLine(w, line, true));
            && t.Some? && OnlyWorkerAndConn(s, t.value, w, c) && Sent(s, t.value, c, ["UNLOCK"])
            && Serves(s, t.value, w, Heard(s.workers[w].session, line, ["FALSE"]), Talking(false, Continue))
  {
    hide CText, SameText, Commands, Lines;
    UnlockIsOneLine();
  }

  lemma LockedUnlock(s: State, w: nat, line: string, expired: bool)
    requires IsLocked(s, w) && SameText(CText(line), "UNLOCK")
    ensures var c, t := s.workers[w].session.pback.value, Next(s, FrontLine(w, line, expired));
            && t.Some? && OnlyWorkerAndConn(s, t.value, w, c) && Sent(s, t.value, c, ["UNLOCK"])
            && Serves(s, t.value, w, Heard(s.workers[w].session, line, []), Talking(true, Continue))
  {
    hide CText, Commands, Lines;
    UnlockIsOneLine();
    assert s.workers[w].session.replies + [] == s.workers[w].session.replies;
  }

  lemma LockedQuit(s: State, w: nat, line: string, expired: bool)
    requires IsLocked(s, w) && SameText(CText(line), "QUIT")
    ensures var c, t := s.workers[w].session.pback.value, Next(s, FrontLine(w, line, expired));
            && t.Some? && OnlyWorkerAndConn(s, t.value, w, c) && Sent(s, t.value, c, ["UNLOCK"])
            && Serves(s, t.value, w, Heard(s.workers[w].session, line, []), Talking(false, Drop(true)))
  {
    hide CText, Commands, Lines;
    UnlockIsOneLine();
    assert s.workers[w].session.replies + [] == s.workers[w].session.replies;
  }

  /** A read that fails ends the session too, after its lock has been given up. */
  lemma LockedReadFails(s: State, w: nat, left: string)
    requires IsLocked(s, w) && |left| <= 1024
    ensures var c, t := s.workers[w].session.pback.value, Next(s, FrontFails(w, left));
            && t.Some? && OnlyWorkerAndConn(s, t.value, w, c) && Sent(s, t.value, c, ["UNLOCK"])
            && Serves(s, t.value, w, s.workers[w].session.(buff := left), Talking(false, Drop(false)))
  {
    hide Lines;
    UnlockIsOneLine();
  }

  lemma UnlockIsOneLine()
    ensures Lines("UNLOCK" + CRLF) == ["UNLOCK"]
  {
    OneLineExactlyWhenPlain("UNLOCK");
  }

  // ----- a session without one -----

  lemma ReadyReadFails(s: State, w: nat, left: string)
    requires IsReady(s, w) && |left| <= 1024
    ensures Next(s, FrontFails(w, left)).Some? && Left(s, Next(s, FrontFails(w, left)).value, w)
  {
    Others(s.front, s.workers[w].front);
  }

  lemma ReadyQuit(s: State, w: nat, line: string, expired: bool)
    requires IsReady(s, w) && SameText(CText(line), "QUIT")
    ensures Next(s, FrontLine(w, line, expired)).Some? && Left(s, Next(s, FrontLine(w, line, expired)).value, w)
  {
    hide CText, Commands;
    Others(s.front, s.workers[w].front);
  }

  lemma {:induction false} Others(fs: seq<Front>, f: Front)
    ensures f !in Without(fs, f)
    ensures forall g | g != f :: g in Without(fs, f) <==> g in fs
  {
    if fs != [] { Others(fs[1..], f); }
  }

  /** Anything but QUIT and LOCK with a name is answered FALSE. */
  lemma ReadyOtherLine(s: State, w: nat, line: string, expired: bool)
    requires IsReady(s, w) && !SameText(CText(line), "QUIT")
    requires |CText(line)| <= 5 || !SameText(CText(line)[..5], "LOCK ")
    ensures var t := Next(s, FrontLine(w, line, expired));
            && t.Some? && OnlyWorker(s, t.value, w)
            && Serves(s, t.value, w, Heard(s.workers[w].session, line, ["FALSE"]), Loop(0))
  {
    hide CText, SameText, Commands;
  }

  /** The name asked for: what is behind the word, at most 255 characters of it. */
  function NameIn(line: string): string
    requires |CText(line)| > 5
  {
    if |CText(line)| <= 260 then CText(line)[5..] else CText(line)[5..260]
  }

  lemma ReadyLockQueues(s: State, w: nat, line: string, expired: bool)
    requires IsReady(s, w) && |CText(line)| > 5 && SameText(CText(line)[..5], "LOCK ") && s.back == []
    ensures var t := Next(s, FrontLine(w, line, expired));
            && t.Some? && OnlyWorker(s, t.value, w)
            && Serves(s, t.value, w,
                      Heard(s.workers[w].session, line, []).(resource := NameIn(line), status := Queued), Loop(0))
  {
    hide CText, Commands;
    assert s.workers[w].session.replies + [] == s.workers[w].session.replies;
    assert |CText(line)| > 260 ==> CText(line)[5..][..255] == CText(line)[5..260];
  }

  /** The first idle backend is asked for the name, and its answer will be relayed. */
  lemma ReadyLockAsks(s: State, w: nat, line: string, expired: bool)
    requires IsReady(s, w) && |CText(line)| > 5 && SameText(CText(line)[..5], "LOCK ") && s.back != []
    ensures var c, t := s.back[0], Next(s, FrontLine(w, line, expired));
            && t.Some? && OnlyWorkerAndConn(s.(back := s.back[1..]), t.value, w, c)
            && Sent(s, t.value, c, Lines("LOCK " + NameIn(line) + CRLF))
            && Serves(s, t.value, w,
                      Heard(s.workers[w].session, line, []).(resource := NameIn(line), pback := Some(c)),
                      Talking(true, Continue))
  {
    hide CText, Commands, Lines;
    assert s.workers[w].session.replies + [] == s.workers[w].session.replies;
    assert |CText(line)| > 260 ==> CText(line)[5..][..255] == CText(line)[5..260];
  }

  /** A second in the queue: a backend that is idle now is asked; otherwise the session waits
      on, and after as many seconds as the interval it is told TRUE and is ready again. */
  lemma QueuedSecond(s: State, w: nat)
    requires AtLoop(s, w) && s.workers[w].session.status.Queued?
    ensures var t, se, n := Next(s, Tick(w)), s.workers[w].session, s.workers[w].pc.tries;
            && t.Some?
            && if s.back != [] then
                 && OnlyWorkerAndConn(s.(back := s.back[1..]), t.value, w, s.back[0])
                 && Sent(s, t.value, s.back[0], Lines("LOCK " + se.resource + CRLF))
                 && Serves(s, t.value, w, se.(pback := Some(s.back[0])), Talking(true, Continue))
               else
                 && OnlyWorker(s, t.value, w)
                 && if n + 1 < s.interval then Serves(s, t.value, w, se, Loop(n + 1))
                    else
                      Serves(s, t.value, w,
                             se.(status := Ready, buff := "", replies := se.replies + ["TRUE"]), Loop(0))
  {
    hide Lines;
  }

  // ----- a backend's answer -----

  /** The bytes in hand after k more have come. */
  function InHand(s: State, w: nat, k: nat): string
    requires InTalk(s, w) && k <= |Get(s, s.workers[w].session.pback.value).inbox|
  {
    s.workers[w].session.buff + Get(s, s.workers[w].session.pback.value).inbox[..k]
  }

  predicate CanRead(s: State, w: nat, k: nat) {
    && InTalk(s, w) && s.workers[w].session.pback.value < |s.conns|
    && 1 <= k <= |Get(s, s.workers[w].session.pback.value).inbox| && |InHand(s, w, k)| <= 1024
  }

  predicate WholeReply(t: string) { |t| >= 2 && t[|t| - 2] == '\r' && t[|t| - 1] == '\n' }

  /** k bytes are taken from connection c. */
  predicate Taken(s: State, t: State, c: Conn, k: nat)
    requires |t.conns| == |s.conns| && c < |s.conns| && k <= |s.conns[c].inbox|
  {
    t.conns[c] == s.conns[c].(inbox := s.conns[c].inbox[k..])
  }

  lemma PartOfReply(s: State, w: nat, k: nat)
    requires CanRead(s, w, k) && !WholeReply(InHand(s, w, k)) && |InHand(s, w, k)| < 1024
    ensures var c, t := s.workers[w].session.pback.value, Next(s, Chunk(w, k));
            && t.Some? && OnlyWorkerAndConn(s, t.value, w, c) && Taken(s, t.value, c, k)
            && Serves(s, t.value, w, s.workers[w].session.(buff := InHand(s, w, k)), s.workers[w].pc)
  {
  }

  /** A full buffer without an end is no reply: the connection is lost. */
  lemma EndlessReply(s: State, w: nat, k: nat)
    requires CanRead(s, w, k) && !WholeReply(InHand(s, w, k)) && |InHand(s, w, k)| == 1024
    ensures var c, t, pc := s.workers[w].session.pback.value, Next(s, Chunk(w, k)), s.workers[w].pc;
            && t.Some? && OnlyWorkerAndConn(s.(lost := s.lost + [c]), t.value, w, c) && t.value.conns[c] == CLOSED
            && Serves(s, t.value, w, s.workers[w].session.(buff := InHand(s, w, k)), Clearing(pc.relay, pc.after))
  {
  }

  lemma NoReply(s: State, w: nat)
    requires InTalk(s, w) && s.workers[w].session.pback.value < |s.conns|
    ensures var c, t, pc := s.workers[w].session.pback.value, Next(s, BackFails(w)), s.workers[w].pc;
            && t.Some? && OnlyWorkerAndConn(s.(lost := s.lost + [c]), t.value, w, c) && t.value.conns[c] == CLOSED
            && Serves(s, t.value, w, s.workers[w].session, Clearing(pc.relay, pc.after))
  {
  }

  /** TRUE to a session that has no lock gives it one, which keeps the backend; after any
      other reply the backend is idle again. It is relayed where it is asked for. */
  lemma WholeReplyRead(s: State, w: nat, k: nat)
    requires CanRead(s, w, k) && WholeReply(InHand(s, w, k))
    ensures var c, t, se := s.workers[w].session.pback.value, Next(s, Chunk(w, k)), s.workers[w].session;
            var said := CText(InHand(s, w, k)[..|InHand(s, w, k)| - 2]);
            var told := se.(buff := "", replies := if s.workers[w].pc.relay then se.replies + [said] else se.replies);
            && t.Some? && |t.value.conns| == |s.conns| && Taken(s, t.value, c, k)
            && if !se.status.Locked? && SameText(said, "TRUE") then
                 && OnlyWorkerAndConn(s, t.value, w, c)
                 && Serves(s, t.value, w, told.(status := Locked), Loop(0))
               else
                 && OnlyWorkerAndConn(s.(back := s.back + [c]), t.value, w, c)
                 && Serves(s, t.value, w, told, Clearing(false, s.workers[w].pc.after))
  {
    hide CText, SameText;
  }

  /** Then the session is ready, with TRUE for an answer that has not come, or it is over. */
  lemma Returned(s: State, w: nat)
    requires w < |s.workers| && s.workers[w].Serving? && s.workers[w].pc.Clearing?
    ensures var t, x := Next(s, Return(w)), s.workers[w];
            && t.Some?
            && if x.pc.after.Drop? then Left(s, t.value, w)
               else
                 && OnlyWorker(s, t.value, w)
                 && t.value.workers[w] ==
                    Serving(x.front, x.session.(status := Ready, pback := None, buff := "",
                                                replies := x.session.replies + if x.pc.owed then ["TRUE"] else []),
                            Loop(0))
  {
    Others(s.front, s.workers[w].front);
    assert s.workers[w].session.replies + [] == s.workers[w].session.replies;
  }

  /** A worker takes only the steps of the place it is at. */
  lemma OutOfTurn(s: State, w: nat, line: string, late: bool, k: nat)
    ensures !AtLoop(s, w) ==>
              Next(s, FrontLine(w, line, late)) == Next(s, FrontFails(w, line)) == Next(s, Tick(w)) == None
    ensures AtLoop(s, w) && s.workers[w].session.status.Queued? ==>
              Next(s, FrontLine(w, line, late)) == Next(s, FrontFails(w, line)) == None
    ensures AtLoop(s, w) && !s.workers[w].session.status.Queued? ==> Next(s, Tick(w)) == None
    ensures !InTalk(s, w) ==> Next(s, Chunk(w, k)) == Next(s, BackFails(w)) == None
    ensures w < |s.workers| && (!s.workers[w].Serving? || !s.workers[w].pc.Clearing?) ==> Next(s, Return(w)) == None
    ensures w < |s.workers| && !s.workers[w].Waiting? ==> Next(s, Wake(w)) == None
  {
    hide ReadyLine, LockedLine, Leave, Release, QueueTick, NextChunk, Lose, NextReturn;
  }

  // ----- new sessions -----

  /** A client is let in while it, the sessions served and those that wait are fewer than
      the limit; otherwise it is turned away. */
  lemma Admitted(s: State, f: Front)
    ensures Next(s, Accept(f))
            == if f in s.front1 || f in s.front then None
               else Some(if |s.front| + |s.front1| + 1 < s.connNum then s.(front1 := s.front1 + [f]) else s)
  {
  }

  /** A worker that wakes takes the client that has waited longest. */
  lemma Woken(s: State, w: nat)
    requires w < |s.workers| && s.workers[w].Waiting?
    ensures var t := Next(s, Wake(w));
            && t.Some?
            && if s.front1 == [] then t.value == s
               else
                 && OnlyWorker(s.(front1 := s.front1[1..], front := s.front + [s.front1[0]]), t.value, w)
                 && t.value.workers[w] == Serving(s.front1[0], Session(Ready, None, "", "", 0, 0, []), Loop(0))
  {
  }

  // ----- the scanner: rotate, ping, collect, reconnect -----

  predicate OnlyConn(s: State, t: State, c: Conn) {
    && t == s.(conns := t.conns) && |t.conns| == |s.conns|
    && forall d :: 0 <= d < |s.conns| && d != c ==> t.conns[d] == s.conns[d]
  }

  /** The scanner starts over when it has tried to reconnect every lost connection. */
  lemma Rotated(s: State, idle: set<Conn>)
    ensures Next(s, Rotate(idle)).Some? <==> s.scan == Reconnecting && s.temp == []
    ensures Next(s, Rotate(idle)).Some? ==>
              var t := Next(s, Rotate(idle)).value;
              && t == s.(back := t.back, temp := t.temp, scan := Pinging)
              && (forall c: Conn :: c in t.temp <==> c in s.back && c in idle)
              && (forall c: Conn :: c in t.back <==> c in s.back && c !in idle)
  {
    forall c: Conn
      ensures c in Pick(s.back, idle) <==> c in s.back && c in idle
      ensures c in Keep(s.back, idle) <==> c in s.back && c !in idle
    {
      Placed(s.back, idle, c);
    }
  }

  lemma PingSent(s: State)
    ensures Next(s, SendPing).Some? <==> s.scan == Pinging && s.temp != []
    ensures Next(s, SendPing).Some? ==>
              var c, t := s.temp[0], Next(s, SendPing).value;
              && OnlyConn(s.(temp := s.temp[1..], scan := Awaiting(c)), t, c) && Sent(s, t, c, ["PING"])
  {
    hide Lines;
    OneLineExactlyWhenPlain("PING");
  }

  /** Any bytes, at most 1024 at once, are taken for the answer. */
  lemma PingAnswered(s: State, k: nat)
    requires s.scan.Awaiting? && s.scan.conn < |s.conns|
    ensures var c := s.scan.conn;
            && (Next(s, Pong(k)).Some? <==> 1 <= k <= 1024 && k <= |s.conns[c].inbox|)
            && (Next(s, Pong(k)).Some? ==>
                  var t := Next(s, Pong(k)).value;
                  OnlyConn(s.(back := s.back + [c], scan := Pinging), t, c) && Taken(s, t, c, k))
  {
  }

  lemma PingUnanswered(s: State)
    ensures Next(s, PingFails).Some? <==> s.scan.Awaiting?
    ensures s.scan.Awaiting? ==>
              var c, t := s.scan.conn, Next(s, PingFails).value;
              && OnlyConn(s.(lost := s.lost + [c], scan := Pinging), t, c)
              && (c < |s.conns| ==> t.conns[c] == Back(false, false, None, [], ""))
  {
  }

  /** After the last ping all lost connections are collected, and tried in turn. */
  lemma Collected(s: State)
    ensures Next(s, Collect) == if s.scan == Pinging && s.temp == [] then
                                  Some(s.(temp := s.lost, lost := [], scan := Reconnecting))
                                else None
  {
  }

  lemma Reconnected(s: State, ok: bool)
    ensures Next(s, Reconnect(ok)).Some? <==> s.scan == Reconnecting && s.temp != []
    ensures Next(s, Reconnect(ok)).Some? ==>
              var c, t := s.temp[0], Next(s, Reconnect(ok)).value;
              if ok then
                && OnlyConn(s.(temp := s.temp[1..], back := s.back + [c]), t, c)
                && (c < |s.conns| ==> t.conns[c] == Back(true, true, None, [], ""))
              else t == s.(temp := s.temp[1..], lost := s.lost + [c])
  {
  }

  // ----- the locker -----

  /** The first line of connection c, and what the locker makes of it. */
  predicate Answered(s: State, t: State, c: Conn, held: Option<string>, reply: string)
    requires c < |s.conns| && s.conns[c].requests != []
  {
    && OnlyConn(s, t, c)
    && t.conns[c] == Back(s.conns[c].open, true, held, s.conns[c].requests[1..], s.conns[c].inbox + reply)
  }

  predicate CanAnswer(s: State, c: Conn) { c < |s.conns| && s.conns[c].up && s.conns[c].requests != [] }

  lemma NothingToAnswer(s: State, c: Conn, late: bool)
    requires !CanAnswer(s, c)
    ensures Next(s, Answer(c, late)) == None
  {
  }

  /** A lock that is held: UNLOCK gives it up, and so does any other line once its time is over. */
  lemma AnswerWhileHeld(s: State, c: Conn, late: bool)
    requires CanAnswer(s, c) && s.conns[c].held.Some? && !SameText(CText(s.conns[c].requests[0]), "QUIT")
    ensures var line, t := CText(s.conns[c].requests[0]), Next(s, Answer(c, late));
            && t.Some?
            && if SameText(line, "UNLOCK") then Answered(s, t.value, c, None, "TRUE" + CRLF)
               else if late then Answered(s, t.value, c, None, "FALSE" + CRLF)
               else Answered(s, t.value, c, s.conns[c].held, "FALSE" + CRLF)
  {
    hide CText;
    SayAppends(s.conns[c].inbox);
  }

  lemma SayAppends(inbox: string)
    ensures inbox + "TRUE" + CRLF == inbox + ("TRUE" + CRLF)
    ensures inbox + "FALSE" + CRLF == inbox + ("FALSE" + CRLF)
    ensures inbox + "BYE" + CRLF == inbox + ("BYE" + CRLF)
  {
  }

  predicate HeldBy(s: State, c: Conn, r: string) { c < |s.conns| && s.conns[c].held == Some(r) }

  /** LOCK with a name waits while anyone holds that name. */
  lemma AnswerToLock(s: State, c: Conn, late: bool)
    requires CanAnswer(s, c) && s.conns[c].held.None?
    requires |CText(s.conns[c].requests[0])| > 5 && SameText(CText(s.conns[c].requests[0])[..5], "LOCK ")
    ensures var r, t := NameIn(s.conns[c].requests[0]), Next(s, Answer(c, late));
            && (t.None? <==> exists d :: HeldBy(s, d, r))
            && (t.Some? ==> Answered(s, t.value, c, Some(r), "TRUE" + CRLF))
  {
    hide CText;
    SayAppends(s.conns[c].inbox);
    var line, r := CText(s.conns[c].requests[0]), NameIn(s.conns[c].requests[0]);
    assert |line| > 260 ==> line[5..][..255] == line[5..260];
    if r in IsHeld(s) {
      var d :| 0 <= d < |s.conns| && s.conns[d].held.Some? && s.conns[d].held.value == r;
      assert HeldBy(s, d, r);
    }
  }

  lemma AnswerToOthers(s: State, c: Conn, late: bool)
    requires CanAnswer(s, c) && s.conns[c].held.None? && !SameText(CText(s.conns[c].requests[0]), "QUIT")
    requires |CText(s.conns[c].requests[0])| <= 5 || !SameText(CText(s.conns[c].requests[0])[..5], "LOCK ")
    ensures var line, t := CText(s.conns[c].requests[0]), Next(s, Answer(c, late));
            && t.Some?
            && Answered(s, t.value, c, None, (if SameText(line, "PING") then "TRUE" else "FALSE") + CRLF)
  {
    hide CText;
    SayAppends(s.conns[c].inbox);
  }

  /** QUIT ends the conversation and whatever lock there is; so does a hang-up, without a word. */
  lemma AnswerToQuit(s: State, c: Conn, late: bool)
    requires CanAnswer(s, c) && SameText(CText(s.conns[c].requests[0]), "QUIT")
    ensures var t := Next(s, Answer(c, late));
            && t.Some? && OnlyConn(s, t.value, c)
            && t.value.conns[c] == Back(s.conns[c].open, false, None, [], s.conns[c].inbox + ("BYE" + CRLF))
  {
    hide CText;
    SayAppends(s.conns[c].inbox);
  }

  lemma HungUp(s: State, c: Conn)
    ensures Next(s, HangUp(c)).Some? <==> c < |s.conns| && s.conns[c].up
    ensures Next(s, HangUp(c)).Some? ==>
              var t := Next(s, HangUp(c)).value;
              OnlyConn(s, t, c) && t.conns[c] == Back(s.conns[c].open, false, None, [], s.conns[c].inbox)
  {
  }

  // ----- words -----

  /** Words are compared without regard to case. */
  lemma WordsInAnyCase(t: string)
    ensures SameText(t, "QUIT") <==> |t| == 4 && t[0] in "Qq" && t[1] in "Uu" && t[2] in "Ii" && t[3] in "Tt"
    ensures SameText(t, "TRUE") <==> |t| == 4 && t[0] in "Tt" && t[1] in "Rr" && t[2] in "Uu" && t[3] in "Ee"
    ensures SameText(t, "PING") <==> |t| == 4 && t[0] in "Pp" && t[1] in "Ii" && t[2] in "Nn" && t[3] in "Gg"
  {
  }

  lemma LockWordsInAnyCase(t: string)
    ensures SameText(t, "LOCK ") <==>
              |t| == 5 && t[0] in "Ll" && t[1] in "Oo" && t[2] in "Cc" && t[3] in "Kk" && t[4] == ' '
    ensures SameText(t, "UNLOCK") <==>
              && |t| == 6 && t[0] in "Uu" && t[1] in "Nn" && t[2] in "Ll"
              && t[3] in "Oo" && t[4] in "Cc" && t[5] in "Kk"
  {
  }

  /** The case of a letter is the only thing that is passed over. */
  lemma UpperAndLower(c: char, i: nat)
    ensures i < 26 ==> Lower("ABCDEFGHIJKLMNOPQRSTUVWXYZ"[i]) == "abcdefghijklmnopqrstuvwxyz"[i]
    ensures c !in "ABCDEFGHIJKLMNOPQRSTUVWXYZ" ==> Lower(c) == c
  {
    if 'A' <= c <= 'Z' { assert "ABCDEFGHIJKLMNOPQRSTUVWXYZ"[c as int - 'A' as int] == c; }
  }

  /** A command ends at the first NUL, if there is one. */
  lemma {:induction false} TextEndsAtNul(b: string)
    ensures CText(b) <= b && '\0' !in CText(b)
    ensures CText(b) == b || b[|CText(b)|] == '\0'
  {
    if b != "" && b[0] != '\0' { TextEndsAtNul(b[1..]); }
  }

  /** The first pair of CR and LF ends a line. */
  lemma LineEndsAtPair(t: string)
    ensures Lines(t) == [] <==> forall j: nat | j + 1 < |t| :: !(t[j] == '\r' && t[j + 1] == '\n')
    ensures Lines(t) != [] ==>
              var p := |Lines(t)[0]|;
              && p + 2 <= |t| && t[..p] == Lines(t)[0] && t[p] == '\r' && t[p + 1] == '\n'
              && (forall j: nat | j < p :: !(t[j] == '\r' && t[j + 1] == '\n'))
              && Lines(t) == [t[..p]] + Lines(t[p + 2..])
  {
    forall j: nat | j + 1 < |t| ensures PairAt(t, j) <==> (t[j] == '\r' && t[j + 1] == '\n') {}
  }
}
