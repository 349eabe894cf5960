/** Conversations with the locker: when they stay in step, and what follows for the
    locks it has granted. */
module LockSafety {
  import opened Options
  import opened Texts
  import opened LineReader
  import opened Pools
  import opened LockBroker
  import opened LockInvariant

  // ----- what a conversation may look like -----

  /** Nothing granted, nothing asked, nothing left to read. */
  predicate Quiet(b: Back) { b.held == None && b.requests == [] && b.inbox == "" }

  /** What is left of one reply line, behind the part already in the buffer. */
  predicate Arriving(buff: string, inbox: string) {
    inbox != "" && EndsLine(buff + inbox) && '\n' !in inbox[..|inbox| - 1]
  }

  const SAID_TRUE: string := "TRUE" + CRLF

  /** The grant as the worker will know it, unless the locker has hung up since. */
  predicate Granted(b: Back, resource: string) { b.held == if b.up then Some(resource) else None }

  /** Where a worker's conversation with its backend is: one request, then one reply. */
  predicate InStep(x: Worker, b: Back)
    requires x.Serving?
  {
    match x.pc
    case Loop(_) => b.requests == [] && b.inbox == "" && Granted(b, x.session.resource)
    case Talking(_, _) => if x.session.status.Locked? then Unlocking(x.session, b) else Locking(x.session, b)
    case Clearing(_, _) => true
  }

  predicate Locking(se: Session, b: Back) {
    || (b.up && b.requests == ["LOCK " + se.resource] && b.inbox == "" && b.held == None && se.buff == "")
    || (b.requests == [] && b.inbox != "" && se.buff + b.inbox == SAID_TRUE && Granted(b, se.resource))
    || (Quiet(b) && !b.up)
  }

  predicate Unlocking(se: Session, b: Back) {
    || (b.up && b.requests == ["UNLOCK"] && b.inbox == "" && b.held == Some(se.resource))
    || (b.requests == [] && b.held == None && Arriving(se.buff, b.inbox))
    || (Quiet(b) && !b.up)
  }

  predicate Pinged(b: Back) {
    && b.held == None
    && ((b.up && b.requests == ["PING"] && b.inbox == "") || (b.requests == [] && b.inbox != "") || (Quiet(b) && !b.up))
  }

  /** What a connection must look like in the place it is in. */
  ghost predicate Fits(s: State, c: Conn) {
    var b := Get(s, c);
    && (c in s.back || c in s.lost || c in s.temp ==> Quiet(b))
    && (s.scan == Awaiting(c) ==> Pinged(b))
    && (forall w: nat :: In(s, c, w) ==> InStep(s.workers[w], b))
  }

  ghost predicate AllFit(s: State) { forall c :: 0 <= c < |s.conns| ==> Fits(s, c) }

  /** The name a step asks a live backend for. */
  function AskedFor(s: State, l: Label): Option<string> {
    if s.back == [] || !Get(s, s.back[0]).up then None
    else
      match l
      case FrontLine(w, line, _) =>
        var t := CText(line);
        if AtLoop(s, w) && s.workers[w].session.status.Ready? && IsLock(t) then Some(Clip(t[5..])) else None
      case Tick(w) =>
        if AtLoop(s, w) && s.workers[w].session.status.Queued? then Some(s.workers[w].session.resource) else None
      case _ => None
  }

  /** Two things the code does not see to: the read of a PING reply takes all of it, and
      no CRLF is inside a name that is sent to a backend. */
  ghost predicate Careful(s: State, l: Label) {
    && (l.Pong? && s.scan.Awaiting? ==> l.k == |Get(s, s.scan.conn).inbox|)
    && (AskedFor(s, l).Some? ==> Plain(AskedFor(s, l).value))
  }

  // ----- the names sessions ask for -----

  /** A C string of 1 to 255 characters, from the moment the session wants it. */
  predicate Named(x: Worker) {
    x.Serving? ==>
      && '\0' !in x.session.resource && |x.session.resource| <= 255
      && (!x.session.status.Ready? || x.pc.Talking? ==> x.session.resource != "")
  }

  predicate AllNamed(s: State) { forall w :: 0 <= w < |s.workers| ==> Named(s.workers[w]) }

  lemma StepKeepsNames(s: State, l: Label)
    requires Next(s, l).Some? && AllNamed(s)
    ensures AllNamed(Next(s, l).value)
  {
    hide Next, Named;
    OthersStay(s, l);
    if OfWorker(l) { StepNames(s, l); }
  }

  lemma StepNames(s: State, l: Label)
    requires Next(s, l).Some? && OfWorker(l) && l.w < |s.workers| == |Next(s, l).value.workers| && Named(s.workers[l.w])
    ensures Named(Next(s, l).value.workers[l.w])
  {
    hide Write, Put, Get, CText, SameText, Without, Take;
    if l.FrontLine? { NoNulIn(l.line); }
  }

  lemma {:induction false} NoNulIn(b: string)
    ensures '\0' !in CText(b)
  {
    if b != "" && b[0] != '\0' { NoNulIn(b[1..]); }
  }

  // ----- every careful step keeps every conversation in step -----

  /** A connection that a step neither touches nor hands to anyone new. */
  lemma Unmoved(s: State, t: State, c: Conn)
    requires Fits(s, c) && Get(t, c) == Get(s, c)
    requires c in t.back || c in t.lost || c in t.temp ==> c in s.back || c in s.lost || c in s.temp
    requires t.scan == Awaiting(c) ==> s.scan == Awaiting(c)
    requires forall w: nat :: In(t, c, w) ==> In(s, c, w) && t.workers[w] == s.workers[w]
    ensures Fits(t, c)
  {
  }

  lemma StepKeepsFits(s: State, l: Label, c: Conn)
    requires Inv(s) && AllNamed(s) && Next(s, l).Some? && Careful(s, l) && Fits(s, c)
    ensures Fits(Next(s, l).value, c)
  {
    hide Next, Inv, Fits, Careful, Named;
    StepKeepsInv(s, l);
    if OfWorker(l) {
      OthersStay(s, l);
      WorkerStepFits(s, l, c);
    } else if l.Answer? || l.HangUp? {
      LockerStepFits(s, l, c);
    } else {
      ScannerStepFits(s, l, c);
    }
  }

  lemma LockerStepFits(s: State, l: Label, c: Conn)
    requires Next(s, l).Some? && Fits(s, c) && (l.Answer? || l.HangUp?) && AllNamed(s)
    ensures Fits(Next(s, l).value, c)
  {
    hide Serve, InStep, Named, IsHeld;
    var t, b := Next(s, l).value, Get(s, c);
    if c != l.c {
      Unmoved(s, t, c);
    } else if l.HangUp? {
      forall w: nat | In(t, c, w) ensures InStep(t.workers[w], Get(t, c)) {
        assert In(s, c, w);
        HungUpInStep(s.workers[w], b);
      }
    } else {
      if s.scan == Awaiting(c) { PingAnswered(b, l.late, IsHeld(s)); }
      forall w: nat | In(t, c, w) ensures InStep(t.workers[w], Get(t, c)) {
        assert In(s, c, w);
        AnswerInStep(s.workers[w], b, l.late, IsHeld(s));
      }
    }
  }

  lemma HungUpInStep(x: Worker, b: Back)
    requires x.Serving? && InStep(x, b)
    ensures InStep(x, b.(up := false, held := None, requests := []))
  {
  }

  lemma PingAnswered(b: Back, late: bool, taken: set<string>)
    requires Pinged(b) && b.requests != [] && Serve(b, late, taken).Some?
    ensures Pinged(Serve(b, late, taken).value)
  {
    WholeText("PING");
  }

  /** The answer to the request a conversation waits for. */
  lemma AnswerInStep(x: Worker, b: Back, late: bool, taken: set<string>)
    requires x.Serving? && Named(x) && !x.pc.Clearing? && InStep(x, b)
    requires b.requests != [] && Serve(b, late, taken).Some?
    ensures InStep(x, Serve(b, late, taken).value)
  {
    hide CText;
    var line := b.requests[0];
    assert '\0' !in line;
    WholeText(line);
    if x.session.status.Locked? {
      TrueArrives(x.session.buff);
    } else {
      assert line[..5] == "LOCK " && line[5..] == x.session.resource;
    }
  }

  lemma TrueArrives(buff: string)
    ensures "" + "TRUE" + CRLF == SAID_TRUE && Arriving(buff, SAID_TRUE)
  {
  }

  lemma ScannerStepFits(s: State, l: Label, c: Conn)
    requires Inv(s) && Next(s, l).Some? && Inv(Next(s, l).value) && Careful(s, l) && Fits(s, c)
    requires !OfWorker(l) && !l.Answer? && !l.HangUp?
    ensures Fits(Next(s, l).value, c)
  {
    hide Inv, Pick, Keep, Lines, Plain;
    var t := Next(s, l).value;
    match l
    case Rotate(idle) => Among(s.back, idle); Unmoved(s, t, c);
    case SendPing =>
      CommandLines();
      if c == s.temp[0] { PingedIsSafe(t); } else { Unmoved(s, t, c); }
    case Pong(_) =>
      if c == s.scan.conn { BackListIsSafe(t, c); } else { Unmoved(s, t, c); }
    case PingFails =>
      if c == s.scan.conn { LostListIsSafe(t, c); } else { Unmoved(s, t, c); }
    case Reconnect(ok) =>
      if ok && c == s.temp[0] { BackListIsSafe(t, c); } else { Unmoved(s, t, c); }
    case _ => Unmoved(s, t, c);
  }

  /** The three commands are one line each, LOCK when its name is plain. */
  lemma CommandLines()
    ensures Lines(PING) == ["PING"] && Lines(UNLOCK) == ["UNLOCK"]
    ensures forall name | Plain(name) :: Lines(LockText(name)) == ["LOCK " + name]
  {
    OneLineExactlyWhenPlain("PING");
    OneLineExactlyWhenPlain("UNLOCK");
    forall name | Plain(name) ensures Lines(LockText(name)) == ["LOCK " + name] {
      PlainLock(name);
      OneLineExactlyWhenPlain("LOCK " + name);
    }
  }

  lemma WorkerStepFits(s: State, l: Label, c: Conn)
    requires Inv(s) && Next(s, l).Some? && Inv(Next(s, l).value) && Careful(s, l) && Fits(s, c) && OfWorker(l)
    requires var t := Next(s, l).value;
             l.w < |s.workers| == |t.workers| && t.workers == s.workers[l.w := t.workers[l.w]]
    ensures Fits(Next(s, l).value, c)
  {
    hide Inv, Next, InStep, Fits, Careful;
    var t := Next(s, l).value;
    SessionIn(s, l.w);
    SameConns(s, l);
    if In(t, c, l.w) {
      OwnerIsAlone(t, c, l.w);
      OwnerInStep(s, l, c);
      AloneFits(t, c, l.w);
    } else if In(s, c, l.w) {
      OwnerIsAlone(s, c, l.w);
      GivenBack(s, l, c);
      if c in t.back { BackListIsSafe(t, c); } else { LostListIsSafe(t, c); }
      QuietFits(t, c);
    } else {
      NotInvolved(s, l, c);
      Unmoved(s, t, c);
    }
  }

  lemma SessionIn(s: State, w: nat)
    requires Inv(s) && w < |s.workers|
    ensures SessionOk(s.workers[w])
  {
  }

  lemma AloneFits(t: State, c: Conn, w: nat)
    requires In(t, c, w) && InStep(t.workers[w], Get(t, c)) && forall v: nat :: v != w ==> !In(t, c, v)
    requires c !in t.back && c !in t.lost && c !in t.temp && t.scan != Awaiting(c)
    ensures Fits(t, c)
  {
  }

  lemma QuietFits(t: State, c: Conn)
    requires Quiet(Get(t, c)) && t.scan != Awaiting(c) && forall v: nat :: !In(t, c, v)
    ensures Fits(t, c)
  {
  }

  /** A connection the worker neither had nor gets. */
  lemma NotInvolved(s: State, l: Label, c: Conn)
    requires Next(s, l).Some? && OfWorker(l) && l.w < |s.workers| && SessionOk(s.workers[l.w])
    requires var t := Next(s, l).value; |s.workers| == |t.workers| && t.workers == s.workers[l.w := t.workers[l.w]]
    requires !In(s, c, l.w) && !In(Next(s, l).value, c, l.w)
    ensures LeftAlone(s, Next(s, l).value, c)
  {
    hide Next, SessionOk, LeftAlone;
    if l.FrontLine? { NotInvolvedAtLine(s, l, c); } else { NotInvolvedOtherwise(s, l, c); }
  }

  ghost predicate LeftAlone(s: State, t: State, c: Conn) {
    && Get(t, c) == Get(s, c) && t.temp == s.temp && t.scan == s.scan
    && (c in t.back ==> c in s.back) && (c in t.lost ==> c in s.lost)
    && (forall w: nat :: In(t, c, w) ==> In(s, c, w) && t.workers[w] == s.workers[w])
  }

  lemma NotInvolvedAtLine(s: State, l: Label, c: Conn)
    requires l.FrontLine? && Next(s, l).Some? && l.w < |s.workers| && SessionOk(s.workers[l.w])
    requires var t := Next(s, l).value; |s.workers| == |t.workers| && t.workers == s.workers[l.w := t.workers[l.w]]
    requires !In(s, c, l.w) && !In(Next(s, l).value, c, l.w)
    ensures LeftAlone(s, Next(s, l).value, c)
  {
    hide CText, SameText, Clip, Without, Take, Lines, LockText, IsLock, Commands;
    hide NextWake, QueueTick, NextChunk, NextReturn, Lose;
  }

  lemma NotInvolvedOtherwise(s: State, l: Label, c: Conn)
    requires !l.FrontLine? && Next(s, l).Some? && OfWorker(l) && l.w < |s.workers| && SessionOk(s.workers[l.w])
    requires var t := Next(s, l).value; |s.workers| == |t.workers| && t.workers == s.workers[l.w := t.workers[l.w]]
    requires !In(s, c, l.w) && !In(Next(s, l).value, c, l.w)
    ensures LeftAlone(s, Next(s, l).value, c)
  {
    hide Next, SessionOk, LeftAlone;
    if l.Chunk? || l.BackFails? || l.Return? { NotInvolvedInTalk(s, l, c); } else { NotInvolvedAtLoop(s, l, c); }
  }

  lemma NotInvolvedInTalk(s: State, l: Label, c: Conn)
    requires (l.Chunk? || l.BackFails? || l.Return?) && Next(s, l).Some? && OfWorker(l) && l.w < |s.workers|
             && SessionOk(s.workers[l.w])
    requires var t := Next(s, l).value; |s.workers| == |t.workers| && t.workers == s.workers[l.w := t.workers[l.w]]
    requires !In(s, c, l.w) && !In(Next(s, l).value, c, l.w)
    ensures LeftAlone(s, Next(s, l).value, c)
  {
    hide CText, SameText, Clip, Without, Take, Lines, LockText, IsLock, IsTrue, ReadyLine, LockedLine;
    hide NextWake, QueueTick, Release, Grab;
  }

  lemma NotInvolvedAtLoop(s: State, l: Label, c: Conn)
    requires (l.Wake? || l.FrontFails? || l.Tick?) && Next(s, l).Some? && OfWorker(l) && l.w < |s.workers|
             && SessionOk(s.workers[l.w])
    requires var t := Next(s, l).value; |s.workers| == |t.workers| && t.workers == s.workers[l.w := t.workers[l.w]]
    requires !In(s, c, l.w) && !In(Next(s, l).value, c, l.w)
    ensures LeftAlone(s, Next(s, l).value, c)
  {
    hide CText, SameText, Clip, Without, Take, Lines, LockText, IsLock, IsTrue, ReadyLine, LockedLine;
    hide NextChunk, NextReturn, Lose;
  }

  /** Taking a quiet backend and asking for a plain name. */
  lemma GrabInStep(s: State, w: nat, se: Session, c: Conn)
    requires AtLoop(s, w) && s.back != [] && c == s.back[0] < |s.conns| && Quiet(Get(s, c))
    requires Get(s, c).up ==> Plain(se.resource)
    requires se.buff == "" && !se.status.Locked?
    ensures InStep(Grab(s, w, se).workers[w], Get(Grab(s, w, se), c))
  {
    hide Lines, Plain, LockText;
    CommandLines();
  }

  /** UNLOCK is sent before the backend can be given back. */
  lemma ReleaseInStep(s: State, w: nat, se: Session, pc: PC, c: Conn)
    requires AtLoop(s, w) && se.pback == Some(c) && c < |s.conns| && se.status.Locked? && pc.Talking?
    requires Get(s, c).requests == [] && Get(s, c).inbox == "" && Granted(Get(s, c), se.resource)
    ensures InStep(Release(s, w, se, pc).workers[w], Get(Release(s, w, se, pc), c))
  {
    hide Lines, Plain;
    CommandLines();
  }

  /** The connection a worker keeps, or takes from back_list. */
  lemma OwnerInStep(s: State, l: Label, c: Conn)
    requires Next(s, l).Some? && OfWorker(l) && Careful(s, l) && Fits(s, c) && l.w < |s.workers|
             && SessionOk(s.workers[l.w])
    requires In(Next(s, l).value, c, l.w) && c < |s.conns|
    ensures InStep(Next(s, l).value.workers[l.w], Get(Next(s, l).value, c))
  {
    hide Next, SessionOk, Fits, Careful;
    if l.FrontLine? {
      LineInStep(s, l, c);
    } else if l.Chunk? {
      ChunkInStep(s, l.w, l.k, c);
    } else {
      OtherInStep(s, l, c);
    }
  }

  lemma LineInStep(s: State, l: Label, c: Conn)
    requires l.FrontLine? && Next(s, l).Some? && Careful(s, l) && Fits(s, c) && l.w < |s.workers|
             && SessionOk(s.workers[l.w])
    requires In(Next(s, l).value, c, l.w) && c < |s.conns|
    ensures InStep(Next(s, l).value.workers[l.w], Get(Next(s, l).value, c))
  {
    hide CText, SameText, Clip, Without, Lines, Plain, Grab, Release, InStep;
    var se, t := s.workers[l.w].session, CText(l.line);
    if se.status.Ready? {
      if IsLock(t) && s.back != [] {
        var asking := Hear(se, l.line).(resource := Clip(t[5..]));
        TakesTheHead(s, l.w, asking, c);
        GrabInStep(s, l.w, asking, c);
      }
    } else {
      LockedLineInStep(s, l.w, l.line, l.expired, c);
    }
  }

  lemma TakesTheHead(s: State, w: nat, se: Session, c: Conn)
    requires AtLoop(s, w) && s.back != [] && In(Grab(s, w, se), c, w)
    ensures c == s.back[0]
  {
  }

  lemma LockedLineInStep(s: State, w: nat, line: string, expired: bool, c: Conn)
    requires AtLoop(s, w) && s.workers[w].session.status.Locked? && SessionOk(s.workers[w]) && Fits(s, c)
             && c < |s.conns|
    requires In(LockedLine(s, w, line, expired), c, w)
    ensures var t := LockedLine(s, w, line, expired); InStep(t.workers[w], Get(t, c))
  {
    hide CText, SameText, Lines;
    assert s.workers[w].session.pback == Some(c);
    assert In(s, c, w);
    var se := s.workers[w].session;
    var heard := Hear(se, line);
    ReleaseInStep(s, w, heard, Talking(false, Drop(true)), c);
    ReleaseInStep(s, w, heard, Talking(true, Continue), c);
    ReleaseInStep(s, w, heard.(replies := se.replies + ["FALSE"]), Talking(false, Continue), c);
  }

  lemma OtherInStep(s: State, l: Label, c: Conn)
    requires !l.FrontLine? && !l.Chunk? && OfWorker(l) && Next(s, l).Some? && Careful(s, l) && Fits(s, c)
    requires l.w < |s.workers| && SessionOk(s.workers[l.w]) && In(Next(s, l).value, c, l.w) && c < |s.conns|
    ensures InStep(Next(s, l).value.workers[l.w], Get(Next(s, l).value, c))
  {
    hide Lines, Plain, Without, Grab, Release, InStep;
    var se := s.workers[l.w].session;
    if l.FrontFails? && se.status.Locked? {
      assert se.pback == Some(c) by { KeepsItsOwn(s, l.w, l.left, c); }
      assert In(s, c, l.w);
      assert InStep(s.workers[l.w], Get(s, c));
      LoopInStep(s.workers[l.w], Get(s, c));
      ReleaseInStep(s, l.w, se.(buff := l.left), Talking(false, Drop(false)), c);
    } else if l.Tick? && s.back != [] {
      TakesTheHead(s, l.w, se, c);
      GrabInStep(s, l.w, se, c);
    }
  }

  lemma LoopInStep(x: Worker, b: Back)
    requires x.Serving? && x.pc.Loop? && InStep(x, b)
    ensures b.requests == [] && b.inbox == "" && Granted(b, x.session.resource)
  {
  }

  lemma KeepsItsOwn(s: State, w: nat, left: string, c: Conn)
    requires AtLoop(s, w) && In(Release(s, w, s.workers[w].session.(buff := left), Talking(false, Drop(false))), c, w)
    ensures s.workers[w].session.pback == Some(c)
  {
  }

  lemma ChunkInStep(s: State, w: nat, k: nat, c: Conn)
    requires Next(s, Chunk(w, k)).Some? && Fits(s, c) && w < |s.workers| && SessionOk(s.workers[w]) && c < |s.conns|
    requires In(Next(s, Chunk(w, k)).value, c, w)
    ensures InStep(Next(s, Chunk(w, k)).value.workers[w], Get(Next(s, Chunk(w, k)).value, c))
  {
    hide EndsLine, Arriving, CText, WorkersOwn, SameText;
    assert In(s, c, w);
    var buff, inbox := s.workers[w].session.buff, Get(s, c).inbox;
    ReplyArrives(buff, inbox);
    Cut(buff, inbox, k);
    WholeText("TRUE");
  }

  lemma ReplyArrives(buff: string, inbox: string)
    ensures inbox != "" && buff + inbox == SAID_TRUE ==> Arriving(buff, inbox) && (buff + inbox)[..4] == "TRUE"
  {
    if inbox != "" && buff + inbox == SAID_TRUE {
      forall i | 0 <= i < |inbox| - 1 ensures inbox[i] != '\n' { assert inbox[i] == SAID_TRUE[|buff| + i]; }
    }
  }

  /** A reply cut at k: the buffer ends in CRLF exactly when all of it has been read. */
  lemma Cut(buff: string, inbox: string, k: nat)
    requires Arriving(buff, inbox) && 1 <= k <= |inbox|
    ensures EndsLine(buff + inbox[..k]) <==> k == |inbox|
    ensures k == |inbox| ==> inbox[k..] == "" && inbox[..k] == inbox
    ensures k < |inbox| ==> Arriving(buff + inbox[..k], inbox[k..]) && buff + inbox[..k] + inbox[k..] == buff + inbox
  {
    if k < |inbox| {
      assert (buff + inbox[..k])[|buff| + k - 1] == inbox[..|inbox| - 1][k - 1];
      assert buff + inbox[..k] + inbox[k..] == buff + inbox;
      assert inbox[k..][..|inbox[k..]| - 1] == inbox[..|inbox| - 1][k..];
    } else {
      assert inbox[..k] == inbox;
    }
  }

  /** The connection a worker gives back or loses is quiet. */
  lemma GivenBack(s: State, l: Label, c: Conn)
    requires Next(s, l).Some? && OfWorker(l) && Fits(s, c) && l.w < |s.workers| && SessionOk(s.workers[l.w])
             && c < |s.conns|
    requires In(s, c, l.w) && !In(Next(s, l).value, c, l.w)
    ensures var t := Next(s, l).value; Quiet(Get(t, c)) && (c in t.back || c in t.lost)
  {
    hide Next, SessionOk, Fits, Quiet;
    if l.Chunk? { ReplyGivesBack(s, l, c); } else { OnlyLossGivesBack(s, l, c); }
  }

  lemma ReplyGivesBack(s: State, l: Label, c: Conn)
    requires l.Chunk? && Next(s, l).Some? && Fits(s, c) && l.w < |s.workers| && SessionOk(s.workers[l.w])
             && c < |s.conns|
    requires In(s, c, l.w) && !In(Next(s, l).value, c, l.w)
    ensures var t := Next(s, l).value; Quiet(Get(t, c)) && (c in t.back || c in t.lost)
  {
    hide CText, SameText, Clip, Without, EndsLine, Arriving, Lines;
    var buff, inbox := s.workers[l.w].session.buff, Get(s, c).inbox;
    ReplyArrives(buff, inbox);
    Cut(buff, inbox, l.k);
    WholeText("TRUE");
    SameAsItself("TRUE");
  }

  lemma OnlyLossGivesBack(s: State, l: Label, c: Conn)
    requires !l.Chunk? && Next(s, l).Some? && OfWorker(l) && l.w < |s.workers| && SessionOk(s.workers[l.w])
             && c < |s.conns|
    requires In(s, c, l.w) && !In(Next(s, l).value, c, l.w)
    ensures var t := Next(s, l).value; Quiet(Get(t, c)) && (c in t.back || c in t.lost)
  {
    hide CText, SameText, Clip, Without, Lines;
  }

  lemma SameAsItself(t: string)
    ensures SameText(t, t)
  {
  }

  // ----- whole runs -----

  ghost predicate CarefulRun(s: State, run: seq<Label>) {
    forall i :: 0 <= i < |run| && Exec(s, run[..i]).Some? ==> Careful(Exec(s, run[..i]).value, run[i])
  }

  ghost predicate InStepRun(s: State, run: seq<Label>) {
    forall i :: 0 <= i <= |run| && Exec(s, run[..i]).Some? ==> AllFit(Exec(s, run[..i]).value)
  }

  /** In every run: all conversations with the locker stay in step, one request and one
      reply at a time and nothing left in back_list, exactly when every read of a PING
      reply takes all of it and no name with a CRLF inside is sent to a backend. */
  lemma InStepExactlyWhenCareful(connNum: nat, interval: nat, conns: nat, run: seq<Label>)
    requires 0 < connNum && Exec(Init(connNum, interval, conns), run).Some?
    ensures var s := Init(connNum, interval, conns); InStepRun(s, run) <==> CarefulRun(s, run)
  {
    hide Exec, Next, Careful, AllFit, Inv;
    var s := Init(connNum, interval, conns);
    if CarefulRun(s, run) {
      forall i | 0 <= i <= |run| && Exec(s, run[..i]).Some? ensures AllFit(Exec(s, run[..i]).value) {
        CarefulPrefix(s, run, i);
        CarefulRunFits(connNum, interval, conns, run[..i]);
      }
    }
    if InStepRun(s, run) {
      forall i | 0 <= i < |run| && Exec(s, run[..i]).Some? ensures Careful(Exec(s, run[..i]).value, run[i]) {
        RunStep(s, run, i);
        EveryRunKeepsInv(connNum, interval, conns, run[..i]);
        EveryRunKeepsInv(connNum, interval, conns, run[..i + 1]);
        assert AllFit(Exec(s, run[..i + 1]).value);
        CarelessIsSeen(Exec(s, run[..i]).value, run[i]);
      }
    }
  }

  /** In a careful run all connections fit their places. */
  lemma {:induction false} CarefulRunFits(connNum: nat, interval: nat, conns: nat, run: seq<Label>)
    requires 0 < connNum && Exec(Init(connNum, interval, conns), run).Some?
    requires CarefulRun(Init(connNum, interval, conns), run)
    ensures AllFit(Exec(Init(connNum, interval, conns), run).value)
    decreases |run|
  {
    hide Next, Careful, Fits, Inv, AllNamed;
    var s := Init(connNum, interval, conns);
    if run == [] {
      forall c | 0 <= c < conns ensures Fits(s, c) { InitFits(connNum, interval, conns, c); }
    } else {
      var k := |run| - 1;
      var t := Exec(s, run[..k]).value;
      CarefulPrefix(s, run, k);
      CarefulRunFits(connNum, interval, conns, run[..k]);
      EveryRunKeepsInv(connNum, interval, conns, run[..k]);
      EveryRunNames(connNum, interval, conns, run[..k]);
      SameConns(t, run[k]);
      forall c | 0 <= c < |t.conns| ensures Fits(Next(t, run[k]).value, c) { StepKeepsFits(t, run[k], c); }
    }
  }

  lemma InitFits(connNum: nat, interval: nat, conns: nat, c: Conn)
    requires c < conns
    ensures Fits(Init(connNum, interval, conns), c)
  {
  }

  lemma CarefulPrefix(s: State, run: seq<Label>, i: nat)
    requires CarefulRun(s, run) && i <= |run|
    ensures CarefulRun(s, run[..i])
  {
    hide Exec, Careful;
    forall j | 0 <= j < i && Exec(s, run[..i][..j]).Some? ensures Careful(Exec(s, run[..i][..j]).value, run[..i][j]) {
      assert run[..i][..j] == run[..j];
    }
  }

  /** A prefix of a run is a run. */
  lemma {:induction false} RunStep(s: State, run: seq<Label>, i: nat)
    requires Exec(s, run).Some? && i < |run|
    ensures Exec(s, run[..i]).Some? && Exec(s, run[..i + 1]).Some?
    ensures Next(Exec(s, run[..i]).value, run[i]) == Exec(s, run[..i + 1])
    decreases |run|
  {
    hide Next;
    var k := |run| - 1;
    if i == k {
      assert run[..i + 1] == run;
    } else {
      assert run[..k][..i] == run[..i] && run[..k][..i + 1] == run[..i + 1];
      RunStep(s, run[..k], i);
    }
  }

  /** A careless step puts its connection out of step at once. */
  lemma CarelessIsSeen(s: State, l: Label)
    requires Inv(s) && Next(s, l).Some? && Inv(Next(s, l).value) && AllFit(Next(s, l).value)
    ensures Careful(s, l)
  {
    hide Inv, Fits, Next, AskedFor;
    var t := Next(s, l).value;
    SameConns(s, l);
    Asks(s, l);
    if l.Pong? {
      PongSeen(s, l);
    } else if AskedFor(s, l).Some? {
      Headed(s);
      assert Fits(t, s.back[0]);
      NameSeen(s, l);
    }
  }

  lemma Asks(s: State, l: Label)
    ensures AskedFor(s, l).Some? ==> s.back != [] && (l.FrontLine? || l.Tick?)
  {
  }

  lemma Headed(s: State)
    requires Inv(s)
    ensures s.back != [] ==> s.back[0] < |s.conns|
  {
    hide Inv;
    if s.back != [] { BackListIsSafe(s, s.back[0]); }
  }

  lemma PongSeen(s: State, l: Label)
    requires Inv(s) && l.Pong? && Next(s, l).Some? && AllFit(Next(s, l).value) && |Next(s, l).value.conns| == |s.conns|
    ensures l.k == |Get(s, s.scan.conn).inbox|
  {
    hide Inv;
    var t, c := Next(s, l).value, s.scan.conn;
    PingedIsSafe(s);
    assert Fits(t, c) && c in t.back;
    assert Get(t, c).inbox == Get(s, c).inbox[l.k..];
  }

  lemma NameSeen(s: State, l: Label)
    requires Next(s, l).Some? && AskedFor(s, l).Some? && s.back[0] < |s.conns|
    requires Fits(Next(s, l).value, s.back[0])
    ensures Plain(AskedFor(s, l).value)
  {
    hide CText, SameText, Clip, Without, Lines, Plain, LockedLine;
    var t, c, name := Next(s, l).value, s.back[0], AskedFor(s, l).value;
    assert Get(t, c).requests == Get(s, c).requests + Lines(LockText(name));
    assert In(t, c, l.w) && t.workers[l.w].pc.Talking?;
    assert |Get(t, c).requests| <= 1;
    if !Plain(name) { TwoLines(name); }
  }

  lemma TwoLines(name: string)
    requires !Plain(name)
    ensures |Lines(LockText(name))| >= 2
  {
    hide Lines;
    var i: nat :| PairAt(name, i);
    assert PairAt("LOCK " + name, i + 5);
    OneLineExactlyWhenPlain("LOCK " + name);
  }

  lemma {:induction false} EveryRunNames(connNum: nat, interval: nat, conns: nat, run: seq<Label>)
    requires Exec(Init(connNum, interval, conns), run).Some?
    ensures AllNamed(Exec(Init(connNum, interval, conns), run).value)
    ensures HeldOnce(Exec(Init(connNum, interval, conns), run).value)
    decreases |run|
  {
    hide Next, AllNamed, HeldOnce;
    if run == [] {
      InitNames(connNum, interval, conns);
    } else {
      var k := |run| - 1;
      EveryRunNames(connNum, interval, conns, run[..k]);
      StepKeepsNames(Exec(Init(connNum, interval, conns), run[..k]).value, run[k]);
      StepKeepsHeldOnce(Exec(Init(connNum, interval, conns), run[..k]).value, run[k]);
    }
  }

  lemma InitNames(connNum: nat, interval: nat, conns: nat)
    ensures AllNamed(Init(connNum, interval, conns)) && HeldOnce(Init(connNum, interval, conns))
  {
  }

  // ----- granted locks -----

  /** The locker grants a resource to one connection at a time. */
  predicate HeldOnce(s: State) {
    forall c, d :: 0 <= c < |s.conns| && 0 <= d < |s.conns| && c != d && s.conns[c].held.Some? ==>
                     s.conns[c].held != s.conns[d].held
  }

  lemma StepKeepsHeldOnce(s: State, l: Label)
    requires Next(s, l).Some? && HeldOnce(s)
    ensures HeldOnce(Next(s, l).value)
  {
    hide Next;
    if l.Answer? {
      AnswerKeepsHeldOnce(s, l);
    } else if OfWorker(l) {
      WorkerGrantsNothing(s, l);
    } else {
      NoNewGrant(s, l);
    }
  }

  lemma AnswerKeepsHeldOnce(s: State, l: Label)
    requires l.Answer? && Next(s, l).Some? && HeldOnce(s)
    ensures HeldOnce(Next(s, l).value)
  {
    hide CText, SameText, Clip;
    assert forall c | 0 <= c < |s.conns| && s.conns[c].held.Some? :: s.conns[c].held.value in IsHeld(s);
  }

  lemma WorkerGrantsNothing(s: State, l: Label)
    requires OfWorker(l) && Next(s, l).Some?
    ensures var t := Next(s, l).value;
            && |t.conns| == |s.conns|
            && forall c | 0 <= c < |s.conns| :: t.conns[c].held == s.conns[c].held || t.conns[c].held == None
  {
    hide CText, SameText, Clip, Without, Take, Lines, LockText, Move, IsLock, IsTrue, Hear;
    hide NextAccept, NextPong, NextAnswer, NextHangUp, Keep, Pick;
  }

  lemma NoNewGrant(s: State, l: Label)
    requires !l.Answer? && !OfWorker(l) && Next(s, l).Some?
    ensures var t := Next(s, l).value;
            && |t.conns| == |s.conns|
            && forall c | 0 <= c < |s.conns| :: t.conns[c].held == s.conns[c].held || t.conns[c].held == None
  {
    hide Lines, Keep, Pick, Move, ReadyLine, LockedLine, QueueTick, NextChunk, NextReturn, NextAnswer, Lose, Leave,
         Release;
  }

  /** In step, no backend in back_list has a granted lock: every grant belongs to a worker. */
  lemma GrantsBelongToWorkers(s: State, c: Conn)
    requires Inv(s) && AllFit(s) && c < |s.conns|
    ensures c in s.back ==> s.conns[c].held == None
    ensures s.conns[c].held.Some? ==> exists w: nat :: In(s, c, w)
  {
    hide OpenExactly, FrontsOk, SessionsOk;
    assert Fits(s, c);
    assert Places(s, c) == 1;
    if s.conns[c].held.Some? && forall w: nat :: !In(s, c, w) {
      forall w: nat | w < |s.workers| ensures Owns(s.workers[w], c) == 0 { assert !In(s, c, w); }
      NobodyOwns(s.workers, c);
      assert false;
    }
  }

  lemma {:induction false} NobodyOwns(ws: seq<Worker>, c: Conn)
    requires forall w: nat :: w < |ws| ==> Owns(ws[w], c) == 0
    ensures WorkersOwn(ws, c) == 0
  {
    if ws != [] { NobodyOwns(ws[1..], c); }
  }

  /** In step, a Locked session at the head of its loop has been granted just the resource
      it asked for, as long as the locker has not hung up on it. */
  lemma LockedIsGranted(s: State, w: nat)
    requires Inv(s) && AllFit(s) && AtLoop(s, w) && s.workers[w].session.status.Locked?
    ensures var se := s.workers[w].session;
            se.pback.Some? && se.pback.value < |s.conns| && Granted(s.conns[se.pback.value], se.resource)
  {
    hide OpenExactly, FrontsOk, Conserved;
    assert SessionOk(s.workers[w]);
    var c := s.workers[w].session.pback.value;
    assert In(s, c, w);
    OwnerIsAlone(s, c, w);
    assert Fits(s, c);
  }

  /** Mutual exclusion: in every careful run, two Locked sessions at the heads of their
      loops have different resources, unless the locker has hung up on one of them. */
  lemma LockedSessionsExcludeEachOther(connNum: nat, interval: nat, conns: nat, run: seq<Label>, v: nat, w: nat)
    requires 0 < connNum && Exec(Init(connNum, interval, conns), run).Some?
    requires CarefulRun(Init(connNum, interval, conns), run) && v != w
    requires var s := Exec(Init(connNum, interval, conns), run).value;
             && AtLoop(s, v) && s.workers[v].session.status.Locked?
             && AtLoop(s, w) && s.workers[w].session.status.Locked?
    ensures var s := Exec(Init(connNum, interval, conns), run).value;
            var x, y := s.workers[v].session, s.workers[w].session;
            && x.pback.Some? && y.pback.Some?
            && (Get(s, x.pback.value).up && Get(s, y.pback.value).up ==> x.resource != y.resource)
  {
    hide Exec, Init, Inv, AllFit, CarefulRun;
    var s := Exec(Init(connNum, interval, conns), run).value;
    EveryRunKeepsInv(connNum, interval, conns, run);
    EveryRunNames(connNum, interval, conns, run);
    CarefulRunFits(connNum, interval, conns, run);
    LockedHoldsOneBackend(s, v);
    LockedHoldsOneBackend(s, w);
    LockedIsGranted(s, v);
    LockedIsGranted(s, w);
    var c, d := s.workers[v].session.pback.value, s.workers[w].session.pback.value;
    assert In(s, d, w);
  }

  /** The reasons for telling a client TRUE, in step: its lock is granted, unless the locker
      has hung up since; its UNLOCK is answered so; its backend has failed; or it has waited
      a whole interval in vain. In the last two cases it goes on without a backend. */
  lemma WhyTrueIsSaid(s: State, l: Label)
    requires Inv(s) && AllNamed(s) && AllFit(s) && Careful(s, l) && Next(s, l).Some? && OfWorker(l)
    requires l.w < |s.workers| == |Next(s, l).value.workers|
    requires s.workers[l.w].Serving? && Next(s, l).value.workers[l.w].Serving?
    requires Next(s, l).value.workers[l.w].session.replies == s.workers[l.w].session.replies + ["TRUE"]
    ensures var t := Next(s, l).value;
            var x, y := s.workers[l.w], t.workers[l.w];
            || (l.Chunk? && AtLoop(t, l.w) && y.session.status.Locked? && y.session.pback.Some?
                && Granted(Get(t, y.session.pback.value), y.session.resource))
            || (l.Chunk? && x.session.status.Locked? && y.pc.Clearing?)
            || (l.Return? && x.pc.owed && y.session.status.Ready? && y.session.pback == None)
            || (l.Tick? && s.back == [] && x.pc.tries + 1 >= s.interval && y.session.status.Ready?
                && y.session.pback == None)
  {
    hide Next, Inv, Fits, AllNamed, Careful;
    SessionIn(s, l.w);
    HeadSessions(s);
    TrueIsSaid(s, l);
    if l.Chunk? && !s.workers[l.w].session.status.Locked? {
      StepKeepsInv(s, l);
      SameConns(s, l);
      var t := Next(s, l).value;
      forall c | 0 <= c < |t.conns| ensures Fits(t, c) { StepKeepsFits(s, l, c); }
      LockedIsGranted(t, l.w);
    }
  }

  lemma HeadSessions(s: State)
    requires Inv(s)
    ensures SessionsOk(s)
  {
  }

  // ----- one line of reply for each line -----

  /** What a client has been told, and what it is about to be told, is made of single lines. */
  predicate Neat(x: Worker) {
    x.Serving? ==>
      && (forall i :: 0 <= i < |x.session.replies| ==> '\n' !in x.session.replies[i])
      && (x.pc.Talking? && x.pc.relay ==> '\n' !in x.session.buff)
  }

  predicate AllNeat(s: State) { forall w :: 0 <= w < |s.workers| ==> Neat(s.workers[w]) }

  lemma StepKeepsNeat(s: State, l: Label)
    requires Inv(s) && AllFit(s) && AllNeat(s) && Next(s, l).Some?
    ensures AllNeat(Next(s, l).value)
  {
    hide Next, Neat, Inv, Fits;
    OthersStay(s, l);
    if OfWorker(l) {
      SessionIn(s, l.w);
      if l.Chunk? { ChunkIsNeat(s, l.w, l.k); } else { StepIsNeat(s, l); }
    }
  }

  lemma StepIsNeat(s: State, l: Label)
    requires OfWorker(l) && !l.Chunk? && Next(s, l).Some? && l.w < |s.workers| == |Next(s, l).value.workers|
    requires Neat(s.workers[l.w]) && SessionOk(s.workers[l.w])
    ensures Neat(Next(s, l).value.workers[l.w])
  {
    hide CText, SameText, Clip, Without, Lines, Write, Put, Get;
    assert '\n' !in "TRUE" && '\n' !in "FALSE";
  }

  lemma ChunkIsNeat(s: State, w: nat, k: nat)
    requires Inv(s) && AllFit(s) && Next(s, Chunk(w, k)).Some?
             && w < |s.workers| == |Next(s, Chunk(w, k)).value.workers|
    requires Neat(s.workers[w]) && SessionOk(s.workers[w])
    ensures Neat(Next(s, Chunk(w, k)).value.workers[w])
  {
    hide Inv, CText, SameText, IsTrue;
    var se := s.workers[w].session;
    var c := se.pback.value;
    var inbox := Get(s, c).inbox;
    assert In(s, c, w) && Fits(s, c);
    ReplyArrives(se.buff, inbox);
    assert Arriving(se.buff, inbox);
    if s.workers[w].pc.relay { NeatRead(se.buff, inbox, k); }
  }

  /** A read of a single line behind a part of it. */
  lemma NeatRead(buff: string, inbox: string, k: nat)
    requires Arriving(buff, inbox) && '\n' !in buff && 1 <= k <= |inbox| && |buff| + k <= BUFF_SIZE
    ensures var r := Take(buff, inbox[..k]);
            && (r.More? ==> '\n' !in r.buff)
            && (r.Line? ==> '\n' !in CText(r.text))
  {
    Cut(buff, inbox, k);
    var r := Take(buff, inbox[..k]);
    if r.More? {
      forall i | 0 <= i < |r.buff| ensures r.buff[i] != '\n' {
        if i >= |buff| { assert inbox[..|inbox| - 1][i - |buff|] != '\n'; }
      }
    }
    if r.Line? {
      forall i | 0 <= i < |r.text| ensures r.text[i] != '\n' {
        if i >= |buff| { assert inbox[..|inbox| - 1][i - |buff|] != '\n'; }
      }
      PartOf(r.text);
    }
  }

  lemma {:induction false} PartOf(b: string)
    requires '\n' !in b
    ensures '\n' !in CText(b)
  {
    if b != "" { PartOf(b[1..]); }
  }

  /** In every careful run each client has got one line for each line it has sent, but for a
      line that is still pending. */
  lemma OneReplyLineForEachLine(connNum: nat, interval: nat, conns: nat, run: seq<Label>, w: nat)
    requires 0 < connNum && Exec(Init(connNum, interval, conns), run).Some?
    requires CarefulRun(Init(connNum, interval, conns), run)
    requires w < |Exec(Init(connNum, interval, conns), run).value.workers|
    requires Exec(Init(connNum, interval, conns), run).value.workers[w].Serving?
    ensures var x := Exec(Init(connNum, interval, conns), run).value.workers[w];
            && x.session.asked - x.session.merged == |x.session.replies| + Due(x)
            && forall i :: 0 <= i < |x.session.replies| ==> '\n' !in x.session.replies[i]
  {
    hide Exec, Init, CarefulRun, Inv;
    EveryRunKeepsInv(connNum, interval, conns, run);
    CarefulRunIsNeat(connNum, interval, conns, run);
    SessionIn(Exec(Init(connNum, interval, conns), run).value, w);
  }

  lemma {:induction false} CarefulRunIsNeat(connNum: nat, interval: nat, conns: nat, run: seq<Label>)
    requires 0 < connNum && Exec(Init(connNum, interval, conns), run).Some?
    requires CarefulRun(Init(connNum, interval, conns), run)
    ensures AllNeat(Exec(Init(connNum, interval, conns), run).value)
    decreases |run|
  {
    hide Next, Careful, AllFit, Inv, AllNeat;
    var s := Init(connNum, interval, conns);
    if run == [] {
      InitNeat(connNum, interval, conns);
    } else {
      var k := |run| - 1;
      CarefulPrefix(s, run, k);
      CarefulRunIsNeat(connNum, interval, conns, run[..k]);
      CarefulRunFits(connNum, interval, conns, run[..k]);
      EveryRunKeepsInv(connNum, interval, conns, run[..k]);
      StepKeepsNeat(Exec(s, run[..k]).value, run[k]);
    }
  }

  lemma InitNeat(connNum: nat, interval: nat, conns: nat)
    ensures AllNeat(Init(connNum, interval, conns))
  {
  }
}
