/** What every step of the lock broker keeps, and so what holds in every run. */
module LockInvariant {
  import opened Options
  import opened Texts
  import opened LineReader
  import opened DoubleLists
  import opened Pools
  import opened LockBroker

  // ----- ownership of the backend connections -----

  /** Whether a worker owns a connection; once it is appended to a list, the pointer
      left in the session owns nothing. */
  function Owns(x: Worker, c: Conn): nat {
    if x.Serving? && x.session.pback == Some(c) && !x.pc.Clearing? then 1 else 0
  }

  function WorkersOwn(ws: seq<Worker>, c: Conn): nat {
    if ws == [] then 0 else Owns(ws[0], c) + WorkersOwn(ws[1..], c)
  }

  function ScannerOwns(s: State, c: Conn): nat {
    Times(s.temp, c) + if s.scan == Awaiting(c) then 1 else 0
  }

  /** The number of places a connection is in. */
  function Places(s: State, c: Conn): nat {
    Times(s.back, c) + Times(s.lost, c) + ScannerOwns(s, c) + WorkersOwn(s.workers, c)
  }

  /** Each connection is in exactly one place: back_list, lost_list, the scanner's
      hands or one worker's. */
  ghost predicate Conserved(s: State) {
    forall c: Conn :: Places(s, c) == if c < |s.conns| then 1 else 0
  }

  lemma {:induction false} OneChanges(ws: seq<Worker>, w: nat, x: Worker, c: Conn)
    requires w < |ws|
    ensures WorkersOwn(ws[w := x], c) + Owns(ws[w], c) == WorkersOwn(ws, c) + Owns(x, c)
  {
    if w == 0 {
      assert ws[0 := x][1..] == ws[1..];
    } else {
      assert ws[w := x][1..] == ws[1..][w - 1 := x];
      OneChanges(ws[1..], w - 1, x, c);
    }
  }

  /** No step creates, drops or duplicates a connection. */
  lemma StepKeepsPlaces(s: State, l: Label, c: Conn)
    requires Next(s, l).Some? && SessionsOk(s)
    ensures Places(Next(s, l).value, c) == Places(s, c) && |Next(s, l).value.conns| == |s.conns|
  {
    hide Places, SessionsOk, Next;
    if OfWorker(l) {
      OthersStay(s, l);
      WorkerIsOk(s, l.w);
      WorkerKeepsPlaces(s, l, c);
    } else {
      ScannerKeepsPlaces(s, l, c);
    }
  }

  predicate OfWorker(l: Label) {
    l.Wake? || l.FrontLine? || l.FrontFails? || l.Tick? || l.Chunk? || l.BackFails? || l.Return?
  }

  /** A worker's step changes no other worker, any other step changes none. */
  lemma OthersStay(s: State, l: Label)
    requires Next(s, l).Some?
    ensures var t := Next(s, l).value;
            if OfWorker(l) then
              && l.w < |s.workers| == |t.workers|
              && t.workers == s.workers[l.w := t.workers[l.w]]
            else t.workers == s.workers
  {
    hide Write, Put, Get, CText, SameText, Clip, Without, Take, Pick, Keep;
  }

  lemma WorkerKeepsPlaces(s: State, l: Label, c: Conn)
    requires Next(s, l).Some? && OfWorker(l) && l.w < |s.workers| && SessionOk(s.workers[l.w])
    ensures Places(Next(s, l).value, c) == Places(s, c) && |Next(s, l).value.conns| == |s.conns|
  {
    hide Next, SessionOk, Places;
    if l.FrontLine? { WorkerKeepsPlacesAtLine(s, l, c); } else { WorkerKeepsPlacesOtherwise(s, l, c); }
  }

  lemma WorkerKeepsPlacesAtLine(s: State, l: Label, c: Conn)
    requires l.FrontLine?
    requires Next(s, l).Some? && OfWorker(l) && l.w < |s.workers| && SessionOk(s.workers[l.w])
    ensures Places(Next(s, l).value, c) == Places(s, c) && |Next(s, l).value.conns| == |s.conns|
  {
    hide Times, WorkersOwn, CText, SameText, Clip, Without;
    TakerMoves(s, Next(s, l).value, l.w, c);
  }

  lemma WorkerKeepsPlacesOtherwise(s: State, l: Label, c: Conn)
    requires !l.FrontLine?
    requires Next(s, l).Some? && OfWorker(l) && l.w < |s.workers| && SessionOk(s.workers[l.w])
    ensures Places(Next(s, l).value, c) == Places(s, c) && |Next(s, l).value.conns| == |s.conns|
  {
    hide Times, WorkersOwn, CText, SameText, Clip, Without, Take;
    var t := Next(s, l).value;
    if l.Chunk? || l.BackFails? {
      GiverMoves(s, t, l.w, c);
    } else {
      TakerMoves(s, t, l.w, c);
    }
  }

  /** A worker that takes the head of back_list, or nothing. */
  lemma TakerMoves(s: State, t: State, w: nat, c: Conn)
    requires w < |s.workers| == |t.workers| && t.workers == s.workers[w := t.workers[w]]
    requires t.temp == s.temp && t.scan == s.scan && t.lost == s.lost
    requires || (t.back == s.back && Owns(t.workers[w], c) == Owns(s.workers[w], c))
             || (s.back != [] && t.back == s.back[1..] && Owns(s.workers[w], c) == 0
                 && Owns(t.workers[w], c) == if s.back[0] == c then 1 else 0)
    ensures Places(t, c) == Places(s, c)
  {
    hide Times, WorkersOwn, Owns;
    OneChanges(s.workers, w, t.workers[w], c);
    if s.back != [] { FirstOut(s.back, c); }
  }

  /** A worker that gives its connection to one of the lists, or nothing. */
  lemma GiverMoves(s: State, t: State, w: nat, c: Conn)
    requires w < |s.workers| == |t.workers| && t.workers == s.workers[w := t.workers[w]]
    requires t.temp == s.temp && t.scan == s.scan
    requires s.workers[w].Serving? && s.workers[w].session.pback.Some?
    requires var b := s.workers[w].session.pback.value;
             || (t.back == s.back && t.lost == s.lost && Owns(t.workers[w], c) == Owns(s.workers[w], c))
             || (Owns(t.workers[w], c) == 0 && Owns(s.workers[w], c) == (if b == c then 1 else 0)
                 && ((t.back == s.back + [b] && t.lost == s.lost) || (t.back == s.back && t.lost == s.lost + [b])))
    ensures Places(t, c) == Places(s, c)
  {
    hide Times, WorkersOwn, Owns;
    OneChanges(s.workers, w, t.workers[w], c);
    LastIn(s.back, s.workers[w].session.pback.value, c);
    LastIn(s.lost, s.workers[w].session.pback.value, c);
  }

  lemma ScannerKeepsPlaces(s: State, l: Label, c: Conn)
    requires Next(s, l).Some? && !OfWorker(l)
    ensures Places(Next(s, l).value, c) == Places(s, c) && |Next(s, l).value.conns| == |s.conns|
  {
    hide Times, WorkersOwn, Pick, Keep;
    match l
    case Rotate(idle) => Shared(s.back, idle, c); NoTimes(c);
    case SendPing => FirstOut(s.temp, c);
    case Pong(_) => LastIn(s.back, s.scan.conn, c);
    case PingFails => LastIn(s.lost, s.scan.conn, c);
    case Collect => NoTimes(c);
    case Reconnect(_) => FirstOut(s.temp, c); LastIn(s.back, s.temp[0], c); LastIn(s.lost, s.temp[0], c);
    case _ =>
  }

  // ----- the session state machine -----

  /** At the head of the loop a session is Locked exactly when it holds a backend, and
      every command of the client has had exactly one reply, but the pending one and those
      that came behind another command in the same line. */
  predicate SessionOk(x: Worker) {
    x.Serving? ==>
      && x.session.asked == |x.session.replies| + Due(x) + x.session.merged
      && match x.pc
         case Loop(_) => (x.session.status.Locked? <==> x.session.pback.Some?) && x.session.buff == ""
         case Talking(relay, after) =>
           && x.session.pback.Some? && |x.session.buff| <= BUFF_SIZE
           && (!x.session.status.Locked? ==> relay && after == Continue)
           && (relay ==> after == Continue)
         case Clearing(owed, after) => x.session.pback.Some? && (owed ==> after == Continue)
  }

  /** The replies still due to the client. */
  function Due(x: Worker): nat
    requires x.Serving?
  {
    match x.pc
    case Loop(_) => if x.session.status.Queued? then 1 else 0
    case Talking(relay, after) => if relay || after == Drop(true) then 1 else 0
    case Clearing(owed, after) => if owed || after == Drop(true) then 1 else 0
  }

  predicate SessionsOk(s: State) { forall w :: 0 <= w < |s.workers| ==> SessionOk(s.workers[w]) }

  lemma WorkerIsOk(s: State, w: nat)
    requires SessionsOk(s) && w < |s.workers|
    ensures SessionOk(s.workers[w])
  {
  }

  lemma StepKeepsSessions(s: State, l: Label)
    requires Next(s, l).Some? && SessionsOk(s)
    ensures SessionsOk(Next(s, l).value)
  {
    hide Next, SessionOk;
    OthersStay(s, l);
    if OfWorker(l) { SessionStep(s, l); }
  }

  lemma SessionStep(s: State, l: Label)
    requires Next(s, l).Some? && OfWorker(l) && l.w < |s.workers| == |Next(s, l).value.workers|
             && SessionOk(s.workers[l.w])
    ensures SessionOk(Next(s, l).value.workers[l.w])
  {
    hide Next, SessionOk;
    if l.FrontLine? {
      SessionStepAtLine(s, l);
    } else if l.Chunk? {
      SessionStepAtChunk(s, l);
    } else {
      SessionStepOtherwise(s, l);
    }
  }

  lemma SessionStepAtLine(s: State, l: Label)
    requires l.FrontLine?
    requires Next(s, l).Some? && OfWorker(l) && l.w < |s.workers| == |Next(s, l).value.workers|
             && SessionOk(s.workers[l.w])
    ensures SessionOk(Next(s, l).value.workers[l.w])
  {
    hide CText, SameText, Write, Put, Get, Clip, Without, Keep, Pick;
  }

  lemma SessionStepAtChunk(s: State, l: Label)
    requires l.Chunk?
    requires Next(s, l).Some? && OfWorker(l) && l.w < |s.workers| == |Next(s, l).value.workers|
             && SessionOk(s.workers[l.w])
    ensures SessionOk(Next(s, l).value.workers[l.w])
  {
    hide CText, SameText, Write, Put, Get, Clip, Without, Keep, Pick;
  }

  lemma SessionStepOtherwise(s: State, l: Label)
    requires !l.FrontLine? && !l.Chunk?
    requires Next(s, l).Some? && OfWorker(l) && l.w < |s.workers| == |Next(s, l).value.workers|
             && SessionOk(s.workers[l.w])
    ensures SessionOk(Next(s, l).value.workers[l.w])
  {
    hide CText, SameText, Write, Put, Get, Clip, Without, Keep, Pick;
  }

  /** What a step that tells a client TRUE may be: a reply to LOCK, after which the session
      is Locked; a reply to UNLOCK; the end of a conversation that failed; or the last second
      in the queue. */
  lemma TrueIsSaid(s: State, l: Label)
    requires Next(s, l).Some? && OfWorker(l) && SessionsOk(s) && l.w < |s.workers| == |Next(s, l).value.workers|
    requires s.workers[l.w].Serving? && Next(s, l).value.workers[l.w].Serving?
    requires var x, y := s.workers[l.w], Next(s, l).value.workers[l.w];
             y.session.replies == x.session.replies + ["TRUE"]
    ensures var x, y := s.workers[l.w], Next(s, l).value.workers[l.w];
            || (l.Chunk? && !x.session.status.Locked? && y.pc.Loop? && y.session.status.Locked?
                && y.session.pback == x.session.pback)
            || (l.Chunk? && x.session.status.Locked? && y.pc.Clearing?)
            || (l.Return? && x.pc.owed && y.session.status.Ready? && y.session.pback == None)
            || (l.Tick? && s.back == [] && x.pc.tries + 1 >= s.interval && y.session.status.Ready?
                && y.session.pback == None)
  {
    hide Take, Write, Put, Clip, Without;
    assert SessionOk(s.workers[l.w]);
    var r := s.workers[l.w].session.replies;
    assert (r + ["TRUE"])[|r|] == "TRUE" && (r + ["FALSE"])[|r|] == "FALSE";
    if l.Chunk? { Relayed(s, l.w, l.k); }
  }

  lemma Relayed(s: State, w: nat, k: nat)
    requires Next(s, Chunk(w, k)).Some? && w < |s.workers|
    requires var t := Next(s, Chunk(w, k)).value;
             && |t.workers| == |s.workers| && t.workers[w].Serving?
             && t.workers[w].session.replies == s.workers[w].session.replies + ["TRUE"]
    ensures var x, y := s.workers[w], Next(s, Chunk(w, k)).value.workers[w];
            if x.session.status.Locked? then y.pc.Clearing?
            else y.pc.Loop? && y.session.status.Locked? && y.session.pback == x.session.pback
  {
    hide Take, Put;
    var x := s.workers[w];
    var inbox := Get(s, x.session.pback.value).inbox;
    var r := x.session.replies;
    var read := Take(x.session.buff, inbox[..k]);
    if read.Line? {
      assert (r + [CText(read.text)])[|r|] == CText(read.text);
    }
  }

  /** LOCK and a name asks the first idle backend for that name, or its first 255
      characters; without an idle backend the session queues for it. */
  lemma LockAsksForTheName(s: State, w: nat, name: string, expired: bool)
    requires AtLoop(s, w) && s.workers[w].session.status.Ready? && name != "" && '\0' !in name
    requires s.back != [] ==> s.back[0] < |s.conns|
    ensures var asked := if |name| <= 255 then name else name[..255];
            var t := Next(s, FrontLine(w, "LOCK " + name, expired)).value;
            && |t.workers| == |s.workers| && t.workers[w].Serving? && t.workers[w].session.resource == asked
            && if s.back == [] then t.workers[w].session.status.Queued?
               else
                 var c := s.back[0];
                 && t.back == s.back[1..] && t.workers[w].session.pback == Some(c)
                 && |t.conns| == |s.conns|
                 && t.conns[c].requests ==
                    s.conns[c].requests + (if s.conns[c].up then Lines("LOCK " + asked + CRLF) else [])
                 && (Plain(asked) ==> Lines("LOCK " + asked + CRLF) == ["LOCK " + asked])
  {
    hide Lines, Plain, Commands, LockedLine, QueueTick, NextChunk, NextReturn, NextPong, NextAnswer, NextHangUp;
    var line := "LOCK " + name;
    WholeText(line);
    assert line[..5] == "LOCK " && line[5..] == name;
    PlainNameLine(if |name| <= 255 then name else name[..255]);
  }

  lemma PlainNameLine(name: string)
    ensures Plain(name) ==> Lines("LOCK " + name + CRLF) == ["LOCK " + name]
  {
    hide Lines, Plain;
    if Plain(name) {
      PlainLock(name);
      OneLineExactlyWhenPlain("LOCK " + name);
    }
  }

  lemma PlainLock(name: string)
    requires Plain(name)
    ensures Plain("LOCK " + name)
  {
    var t := "LOCK " + name;
    forall j: nat ensures !PairAt(t, j) {
      if 5 <= j && j + 1 < |t| { assert t[j] == name[j - 5] && t[j + 1] == name[j - 4] && !PairAt(name, j - 5); }
    }
  }

  // ----- open and closed sockets -----

  /** A connection's socket is closed exactly while it is in lost_list or waits in the
      scanner's list to be connected again; so every member of back_list is open. */
  predicate OpenExactly(s: State) { forall c | 0 <= c < |s.conns| :: s.conns[c].open <==> !Closed(s, c) }

  predicate Closed(s: State, c: Conn) { c in s.lost || (s.scan.Reconnecting? && c in s.temp) }

  lemma StepKeepsOpen(s: State, l: Label)
    requires Next(s, l).Some? && OpenExactly(s) && Conserved(s)
    ensures |Next(s, l).value.conns| == |s.conns| ==> OpenExactly(Next(s, l).value)
  {
    hide OpenExactly, Next, Conserved;
    var t := Next(s, l).value;
    if |t.conns| == |s.conns| {
      forall c | 0 <= c < |s.conns| ensures t.conns[c].open <==> !Closed(t, c) {
        OpenAt(s, c);
        if l.Reconnect? { ReconnectOpens(s, l, c); }
        else if OfWorker(l) { WorkerOpens(s, l, c); }
        else { StepOpens(s, l, c); }
      }
      AllOpen(t);
    }
  }

  lemma OpenAt(s: State, c: Conn)
    requires OpenExactly(s) && c < |s.conns|
    ensures s.conns[c].open <==> !Closed(s, c)
  {
  }

  lemma AllOpen(s: State)
    requires forall c | 0 <= c < |s.conns| :: s.conns[c].open <==> !Closed(s, c)
    ensures OpenExactly(s)
  {
  }

  lemma ReconnectOpens(s: State, l: Label, c: Conn)
    requires Next(s, l).Some? && l.Reconnect? && Conserved(s)
    requires c < |s.conns| == |Next(s, l).value.conns| && (s.conns[c].open <==> !Closed(s, c))
    ensures Next(s, l).value.conns[c].open <==> !Closed(Next(s, l).value, c)
  {
    hide WorkersOwn;
    assert Places(s, c) == 1;
    FirstOut(s.temp, c);
    assert s.temp == [s.temp[0]] + s.temp[1..];
  }

  lemma StepOpens(s: State, l: Label, c: Conn)
    requires Next(s, l).Some? && !l.Reconnect? && !OfWorker(l)
    requires c < |s.conns| == |Next(s, l).value.conns| && (s.conns[c].open <==> !Closed(s, c))
    ensures Next(s, l).value.conns[c].open <==> !Closed(Next(s, l).value, c)
  {
    hide CText, SameText, Clip, Without, Keep, Pick;
  }

  lemma WorkerOpens(s: State, l: Label, c: Conn)
    requires Next(s, l).Some? && OfWorker(l)
    requires c < |s.conns| == |Next(s, l).value.conns| && (s.conns[c].open <==> !Closed(s, c))
    ensures Next(s, l).value.conns[c].open <==> !Closed(Next(s, l).value, c)
  {
    hide CText, SameText, Clip, Without, Take, Move, Closed;
    var t := Next(s, l).value;
    assert t.temp == s.temp && t.scan == s.scan;
    if l.BackFails? || (l.Chunk? && t.lost != s.lost) {
      LostIsClosed(s, t, s.workers[l.w].session.pback.value, c);
    } else {
      assert t.lost == s.lost && t.conns[c].open == s.conns[c].open;
      SameClosed(s, t, c);
    }
  }

  lemma SameClosed(s: State, t: State, c: Conn)
    requires t.temp == s.temp && t.scan == s.scan && t.lost == s.lost
    ensures Closed(t, c) == Closed(s, c)
  {
  }

  lemma LostIsClosed(s: State, t: State, b: Conn, c: Conn)
    requires t.temp == s.temp && t.scan == s.scan && t.lost == s.lost + [b]
    ensures Closed(t, c) <==> Closed(s, c) || c == b
  {
  }

  // ----- the front lists -----

  predicate Serves(s: State, w: nat, f: Front) { w < |s.workers| && s.workers[w].Serving? && s.workers[w].front == f }

  /** The two lists share no session and repeat none; together they hold fewer sessions
      than there are workers; front_list is exactly what the workers serve, one each. */
  ghost predicate FrontsOk(s: State) {
    && |s.workers| == s.connNum
    && Distinct(s.front + s.front1)
    && |s.front| + |s.front1| < s.connNum
    && (forall w, f :: Serves(s, w, f) ==> f in s.front)
    && (forall v, w, f :: Serves(s, v, f) && Serves(s, w, f) ==> v == w)
    && (forall f | f in s.front :: exists w :: Serves(s, w, f))
  }

  lemma StepKeepsFronts(s: State, l: Label)
    requires Next(s, l).Some? && FrontsOk(s)
    ensures FrontsOk(Next(s, l).value)
  {
    hide Next, FrontsOk;
    var t := Next(s, l).value;
    OthersStay(s, l);
    FrontMoves(s, l);
    if l.Accept? {
      AcceptKeepsFronts(s, t, l.f);
    } else if l.Wake? && t != s {
      WakeKeepsFronts(s, t, l.w);
    } else if OfWorker(l) && t.workers[l.w].Waiting? {
      if t != s { LeaveKeepsFronts(s, t, l.w); }
    } else {
      SameFronts(s, t);
    }
  }

  /** How a step changes the front lists and who serves whom. */
  lemma FrontMoves(s: State, l: Label)
    requires Next(s, l).Some?
    ensures var t := Next(s, l).value;
            && t.connNum == s.connNum
            && (l.Accept? ==> (t == s || (t.front == s.front && t.front1 == s.front1 + [l.f] && t.workers == s.workers
                                          && l.f !in s.front && l.f !in s.front1
                                          && |s.front| + 1 + |s.front1| < s.connNum)))
            && (l.Wake? && t != s ==>
                  && l.w < |s.workers| == |t.workers| && s.workers[l.w].Waiting? && s.front1 != []
                  && t.front1 == s.front1[1..] && t.front == s.front + [s.front1[0]]
                  && t.workers[l.w].Serving? && t.workers[l.w].front == s.front1[0])
            && (OfWorker(l) && !l.Wake? ==>
                  && l.w < |s.workers| == |t.workers| && s.workers[l.w].Serving? && t.front1 == s.front1
                  && (if t.workers[l.w].Waiting? then t.front == Without(s.front, s.workers[l.w].front)
                      else t.front == s.front && t.workers[l.w].front == s.workers[l.w].front))
            && (!OfWorker(l) && !l.Accept? ==> t.front == s.front && t.front1 == s.front1)
  {
    hide Next, Without;
    if OfWorker(l) { WorkerMovesFronts(s, l); } else { OthersMoveFronts(s, l); }
  }

  lemma WorkerMovesFronts(s: State, l: Label)
    requires OfWorker(l) && Next(s, l).Some?
    ensures var t := Next(s, l).value;
            && t.connNum == s.connNum
            && (l.Wake? && t != s ==>
                  && l.w < |s.workers| == |t.workers| && s.workers[l.w].Waiting? && s.front1 != []
                  && t.front1 == s.front1[1..] && t.front == s.front + [s.front1[0]]
                  && t.workers[l.w].Serving? && t.workers[l.w].front == s.front1[0])
            && (!l.Wake? ==>
                  && l.w < |s.workers| == |t.workers| && s.workers[l.w].Serving? && t.front1 == s.front1
                  && (if t.workers[l.w].Waiting? then t.front == Without(s.front, s.workers[l.w].front)
                      else t.front == s.front && t.workers[l.w].front == s.workers[l.w].front))
  {
    hide Write, Put, Get, CText, SameText, Clip, Without, Take, IsLock, IsTrue, Hear;
    hide NextAccept, NextPong, NextAnswer, NextHangUp, Pick, Keep;
  }

  lemma OthersMoveFronts(s: State, l: Label)
    requires !OfWorker(l) && Next(s, l).Some?
    ensures var t := Next(s, l).value;
            && t.connNum == s.connNum
            && (l.Accept? ==> (t == s || (t.front == s.front && t.front1 == s.front1 + [l.f] && t.workers == s.workers
                                          && l.f !in s.front && l.f !in s.front1
                                          && |s.front| + 1 + |s.front1| < s.connNum)))
            && (!l.Accept? ==> t.front == s.front && t.front1 == s.front1)
  {
    hide Write, Put, Get, Pick, Keep, Serve, IsHeld;
    hide NextWake, ReadyLine, LockedLine, QueueTick, NextChunk, NextReturn, Lose, Leave, Release;
  }

  lemma AcceptKeepsFronts(s: State, t: State, f: Front)
    requires FrontsOk(s) && t.connNum == s.connNum
    requires t == s || (t.front == s.front && t.front1 == s.front1 + [f] && t.workers == s.workers
                        && f !in s.front && f !in s.front1 && |s.front| + 1 + |s.front1| < s.connNum)
    ensures FrontsOk(t)
  {
    if t != s {
      assert t.front + t.front1 == s.front + s.front1 + [f];
      SameServers(s, t);
    }
  }

  lemma SameServers(s: State, t: State)
    requires |t.workers| == |s.workers|
    requires forall w | 0 <= w < |s.workers| :: t.workers[w].Serving? == s.workers[w].Serving?
               && (s.workers[w].Serving? ==> t.workers[w].front == s.workers[w].front)
    ensures forall w, f :: Serves(t, w, f) <==> Serves(s, w, f)
  {
  }

  lemma SameFronts(s: State, t: State)
    requires FrontsOk(s) && t.connNum == s.connNum && t.front == s.front && t.front1 == s.front1
             && |t.workers| == |s.workers|
    requires forall w | 0 <= w < |s.workers| :: t.workers[w].Serving? == s.workers[w].Serving?
               && (s.workers[w].Serving? ==> t.workers[w].front == s.workers[w].front)
    ensures FrontsOk(t)
  {
    SameServers(s, t);
    forall f | f in t.front ensures exists w :: Serves(t, w, f) {
      var w :| Serves(s, w, f);
      assert Serves(t, w, f);
    }
  }

  lemma WakeKeepsFronts(s: State, t: State, w: nat)
    requires FrontsOk(s) && t.connNum == s.connNum && w < |s.workers| == |t.workers|
             && t.workers == s.workers[w := t.workers[w]]
    requires s.workers[w].Waiting? && s.front1 != [] && t.front1 == s.front1[1..] && t.front == s.front + [s.front1[0]]
    requires t.workers[w].Serving? && t.workers[w].front == s.front1[0]
    ensures FrontsOk(t)
  {
    var f := s.front1[0];
    assert t.front + t.front1 == s.front + s.front1;
    assert forall v, g :: Serves(t, v, g) <==> (Serves(s, v, g) || (v == w && g == f));
    assert f !in s.front by {
      forall i | 0 <= i < |s.front| ensures s.front[i] != f {
        assert (s.front + s.front1)[i] == s.front[i] && (s.front + s.front1)[|s.front|] == f;
      }
    }
    forall g | g in t.front ensures exists v :: Serves(t, v, g) {
      if g == f {
        assert Serves(t, w, f);
      } else {
        var v :| Serves(s, v, g);
        assert Serves(t, v, g);
      }
    }
  }

  lemma LeaveKeepsFronts(s: State, t: State, w: nat)
    requires FrontsOk(s) && t.connNum == s.connNum && w < |s.workers| == |t.workers|
             && t.workers == s.workers[w := t.workers[w]]
    requires s.workers[w].Serving? && t.workers[w].Waiting?
    requires t.front == Without(s.front, s.workers[w].front) && t.front1 == s.front1
    ensures FrontsOk(t)
  {
    var f := s.workers[w].front;
    WithoutOne(s.front, f, s.front1);
    assert Serves(s, w, f);
    assert forall v, g :: Serves(t, v, g) <==> (Serves(s, v, g) && v != w);
    forall g | g in t.front ensures exists v :: Serves(t, v, g) {
      var v :| Serves(s, v, g);
      assert Serves(t, v, g);
    }
  }

  lemma {:induction false} WithoutOne(fs: seq<Front>, f: Front, others: seq<Front>)
    requires Distinct(fs + others)
    ensures Distinct(Without(fs, f) + others) && |Without(fs, f)| <= |fs|
    ensures forall g :: g in Without(fs, f) <==> g in fs && g != f
  {
    if fs != [] {
      assert (fs + others)[1..] == fs[1..] + others;
      WithoutOne(fs[1..], f, others);
      var rest := Without(fs[1..], f);
      if fs[0] != f {
        forall g | g in rest + others ensures g != fs[0] { NotFirst(fs, others, g); }
        assert Without(fs, f) + others == [fs[0]] + (rest + others);
        FirstDistinct(fs[0], rest + others);
      } else {
        assert Without(fs, f) == rest;
      }
    }
  }

  lemma FirstDistinct(f: Front, fs: seq<Front>)
    requires Distinct(fs) && f !in fs
    ensures Distinct([f] + fs)
  {
  }

  lemma NotFirst(fs: seq<Front>, others: seq<Front>, g: Front)
    requires fs != [] && Distinct(fs + others) && (g in fs[1..] || g in others)
    ensures g != fs[0]
  {
    var all := fs + others;
    assert all[1..] == fs[1..] + others && g in all[1..];
    var i :| 0 <= i < |all[1..]| && all[1..][i] == g;
    assert all[i + 1] == g && all[0] == fs[0];
  }

  // ----- all of it, in every run -----

  ghost predicate Inv(s: State) { Conserved(s) && SessionsOk(s) && OpenExactly(s) && FrontsOk(s) }

  lemma StepKeepsInv(s: State, l: Label)
    requires Inv(s) && Next(s, l).Some?
    ensures Inv(Next(s, l).value)
  {
    hide Next, SessionsOk, OpenExactly, FrontsOk, Places;
    StepKeepsSessions(s, l);
    StepKeepsFronts(s, l);
    forall c: Conn ensures Places(Next(s, l).value, c) == Places(s, c) && |Next(s, l).value.conns| == |s.conns| {
      StepKeepsPlaces(s, l, c);
    }
    StepKeepsPlaces(s, l, 0);
    StepKeepsOpen(s, l);
  }

  lemma InitInv(connNum: nat, interval: nat, conns: nat)
    requires 0 < connNum
    ensures Inv(Init(connNum, interval, conns))
  {
    var s := Init(connNum, interval, conns);
    forall c: Conn ensures Places(s, c) == if c < conns then 1 else 0 {
      Numbered(conns, c);
      NoneOwned(s.workers, c);
      NoTimes(c);
    }
    forall c | 0 <= c < conns ensures c in s.lost { assert s.lost[c] == c; }
  }

  lemma {:induction false} NoneOwned(ws: seq<Worker>, c: Conn)
    requires forall w :: 0 <= w < |ws| ==> ws[w].Waiting?
    ensures WorkersOwn(ws, c) == 0
  {
    if ws != [] { NoneOwned(ws[1..], c); }
  }

  /** Every run of the broker, from its start, ends in a state that satisfies the invariant. */
  lemma {:induction false} EveryRunKeepsInv(connNum: nat, interval: nat, conns: nat, run: seq<Label>)
    requires 0 < connNum && Exec(Init(connNum, interval, conns), run).Some?
    ensures Inv(Exec(Init(connNum, interval, conns), run).value)
    ensures |Exec(Init(connNum, interval, conns), run).value.conns| == conns
    decreases |run|
  {
    hide Inv, Next;
    if run == [] {
      InitInv(connNum, interval, conns);
    } else {
      var k := |run| - 1;
      EveryRunKeepsInv(connNum, interval, conns, run[..k]);
      var s := Exec(Init(connNum, interval, conns), run[..k]).value;
      StepKeepsInv(s, run[k]);
      SameConns(s, run[k]);
    }
  }

  lemma SameConns(s: State, l: Label)
    requires Inv(s) && Next(s, l).Some?
    ensures |Next(s, l).value.conns| == |s.conns|
  {
    StepKeepsPlaces(s, l, 0);
  }

  // ----- what the invariant means -----

  predicate In(s: State, c: Conn, w: nat) { w < |s.workers| && Owns(s.workers[w], c) == 1 }

  /** A backend in back_list is open, is there once, and is nowhere else. */
  lemma BackListIsSafe(s: State, c: Conn)
    requires Inv(s) && c in s.back
    ensures c < |s.conns| && s.conns[c].open && Times(s.back, c) == 1
    ensures c !in s.lost && c !in s.temp && s.scan != Awaiting(c) && forall w: nat :: !In(s, c, w)
  {
    hide SessionsOk, FrontsOk;
    assert Places(s, c) == if c < |s.conns| then 1 else 0;
    forall w: nat ensures !In(s, c, w) { if w < |s.workers| { OwnedCounts(s.workers, w, c); } }
  }

  /** A connection in lost_list is closed and is nowhere else. */
  lemma LostListIsSafe(s: State, c: Conn)
    requires Inv(s) && c in s.lost
    ensures c < |s.conns| && !s.conns[c].open
    ensures c !in s.back && c !in s.temp && s.scan != Awaiting(c) && forall w: nat :: !In(s, c, w)
  {
    hide SessionsOk, FrontsOk;
    assert Places(s, c) == if c < |s.conns| then 1 else 0;
    forall w: nat ensures !In(s, c, w) { if w < |s.workers| { OwnedCounts(s.workers, w, c); } }
  }

  /** A connection that the scanner waits for is open and is nowhere else. */
  lemma PingedIsSafe(s: State)
    requires Inv(s) && s.scan.Awaiting?
    ensures s.scan.conn < |s.conns| && s.conns[s.scan.conn].open
    ensures s.scan.conn !in s.back && s.scan.conn !in s.lost && s.scan.conn !in s.temp
            && forall w: nat :: !In(s, s.scan.conn, w)
  {
    hide SessionsOk, FrontsOk;
    var c := s.scan.conn;
    assert Places(s, c) == if c < |s.conns| then 1 else 0;
    forall w: nat ensures !In(s, c, w) { if w < |s.workers| { OwnedCounts(s.workers, w, c); } }
  }

  /** A connection that a worker owns is open, and no list, scanner or other worker has it. */
  lemma OwnerIsAlone(s: State, c: Conn, w: nat)
    requires Inv(s) && In(s, c, w)
    ensures c < |s.conns| && s.conns[c].open
    ensures c !in s.back && c !in s.lost && c !in s.temp && s.scan != Awaiting(c)
            && forall v: nat :: v != w ==> !In(s, c, v)
  {
    hide SessionsOk, FrontsOk;
    assert Places(s, c) == if c < |s.conns| then 1 else 0;
    OwnedCounts(s.workers, w, c);
    forall v: nat | v != w ensures !In(s, c, v) { if v < |s.workers| { OwnedTwice(s.workers, v, w, c); } }
  }

  /** At the head of its loop a Locked session holds an open backend that no list, no
      scanner and no other worker has; any other session holds none. */
  lemma LockedHoldsOneBackend(s: State, w: nat)
    requires Inv(s) && AtLoop(s, w)
    ensures var se := s.workers[w].session;
            if se.status.Locked? then
              && se.pback.Some? && se.pback.value < |s.conns| && s.conns[se.pback.value].open
              && se.pback.value !in s.back && se.pback.value !in s.lost && se.pback.value !in s.temp
              && forall v: nat :: v != w ==> !In(s, se.pback.value, v)
            else se.pback == None
  {
    hide FrontsOk, Conserved;
    assert SessionOk(s.workers[w]);
    if s.workers[w].session.status.Locked? { OwnerIsAlone(s, s.workers[w].session.pback.value, w); }
  }

  lemma {:induction false} OwnedCounts(ws: seq<Worker>, w: nat, c: Conn)
    requires w < |ws|
    ensures WorkersOwn(ws, c) >= Owns(ws[w], c)
  {
    if w > 0 { OwnedCounts(ws[1..], w - 1, c); }
  }

  lemma {:induction false} OwnedTwice(ws: seq<Worker>, v: nat, w: nat, c: Conn)
    requires v < |ws| && w < |ws| && v != w
    ensures WorkersOwn(ws, c) >= Owns(ws[v], c) + Owns(ws[w], c)
  {
    if v == 0 {
      OwnedCounts(ws[1..], w - 1, c);
    } else if w == 0 {
      OwnedCounts(ws[1..], v - 1, c);
    } else {
      OwnedTwice(ws[1..], v - 1, w - 1, c);
    }
  }

  /** There is always a worker left to serve the next session. */
  lemma SomeWorkerWaits(s: State)
    requires FrontsOk(s)
    ensures exists w :: 0 <= w < |s.workers| && s.workers[w].Waiting?
  {
    if forall w :: 0 <= w < |s.workers| ==> s.workers[w].Serving? {
      var fs := seq(|s.workers|, w requires 0 <= w < |s.workers| && s.workers[w].Serving? => s.workers[w].front);
      forall v, w | 0 <= v < w < |fs| ensures fs[v] != fs[w] {
        assert Serves(s, v, fs[v]) && Serves(s, w, fs[w]);
      }
      forall f | f in fs ensures f in s.front {
        var w :| 0 <= w < |fs| && fs[w] == f;
        assert Serves(s, w, f);
      }
      forall i, j | 0 <= i < j < |s.front| ensures s.front[i] != s.front[j] {
        assert (s.front + s.front1)[i] == s.front[i] && (s.front + s.front1)[j] == s.front[j];
      }
      Fewer(fs, s.front);
      assert false;
    }
  }

  lemma Fewer(fs: seq<Front>, gs: seq<Front>)
    requires Distinct(fs) && Distinct(gs) && forall f | f in fs :: f in gs
    ensures |fs| <= |gs|
  {
    var a, b := Elements(fs), Elements(gs);
    DistinctCount(fs);
    DistinctCount(gs);
    assert a <= b && b == a + (b - a);
  }
}
