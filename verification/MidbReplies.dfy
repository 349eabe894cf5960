/** The mail-index broker, its transfers and midb together: exactly when every client gets
    the reply to its own command. */
module MidbReplies {
  import opened Options
  import opened Texts
  import opened Pools
  import opened MidbPool
  import LineReader
  import Relay

  // ----- conversations -----

  predicate Quiet(b: Link) { b.queue == [] && b.inbox == [] }

  predicate AllOf(ls: seq<Letter>, of: Tag) { forall i :: 0 <= i < |ls| ==> ls[i].of == of }

  predicate UsedBy(s: State, c: Conn, w: nat) {
    w < |s.workers| && s.workers[w].Using? && s.workers[w].conn == c
  }

  predicate PingedAt(s: State, c: Conn) { s.scan.Awaiting? && s.scan.conn == c }

  ghost predicate Free(s: State, c: Conn) { !PingedAt(s, c) && forall w: nat :: !UsedBy(s, c, w) }

  /** One command is with midb, or just the reply to it is here, or midb has gone. */
  predicate Stage(b: Link, command: string, of: Tag, said: seq<string>) {
    || (b.up && b.queue == [Task(command, of)] && b.inbox == [] && said == [])
    || (b.queue == [] && AllOf(b.inbox, of) && said == [Text(b.inbox)])
    || (!b.up && b.queue == [] && b.inbox == [] && said == [])
  }

  predicate Pinged(b: Link, of: Tag) {
    || (b.up && b.queue == [Task("PING", of)] && b.inbox == [])
    || (b.queue == [] && AllOf(b.inbox, of))
  }

  predicate Talks(s: State, c: Conn, w: nat)
    requires UsedBy(s, c, w)
  {
    var x := s.workers[w];
    && x.n < |s.sent| && x.n < |s.said| && s.sent[x.n] == (x.line, c)
    && Stage(Get(s, c), CText(x.line), For(x.n), s.said[x.n])
  }

  ghost predicate Fits(s: State, c: Conn) {
    && (Free(s, c) ==> Quiet(Get(s, c)))
    && (PingedAt(s, c) ==> Pinged(Get(s, c), Ping(s.scan.k)))
    && (forall w: nat :: UsedBy(s, c, w) ==> Talks(s, c, w))
  }

  /** The client of the n-th line got the one reply that midb made to it, and nothing else. */
  predicate Own(s: State, a: Answer) {
    a.n < |s.said| && s.said[a.n] == [Text(a.got)] && AllOf(a.got, For(a.n))
  }

  predicate Over(s: State, n: nat) {
    forall w :: 0 <= w < |s.workers| ==> s.workers[w].Using? ==> s.workers[w].n != n
  }

  predicate Answered(s: State) {
    forall k :: 0 <= k < |s.answers| ==> Own(s, s.answers[k]) && Over(s, s.answers[k].n)
  }

  ghost predicate InStep(s: State) {
    && |s.said| == |s.sent| && |s.conns| == |s.psvr|
    && (forall c :: 0 <= c < |s.conns| ==> Fits(s, c))
    && Answered(s)
  }

  /** Three things the code does not see to: no CRLF is inside a line that is sent, the
      read of a PING reply takes all there is, and so does a transfer. */
  ghost predicate Careful(s: State, l: Label) {
    match l
    case Seek(w) =>
      CanSend(s, w) && Get(s, s.lists[s.workers[w].server][0]).up ==> Plain(CText(s.workers[w].line))
    case Finish(w, used) =>
      w < |s.workers| && s.workers[w].Using? ==> used == |Get(s, s.workers[w].conn).inbox|
    case Pong(used) => s.scan.Awaiting? ==> used == |Get(s, s.scan.conn).inbox|
    case _ => true
  }

  // ----- who else has a connection -----

  lemma UserIsAlone(s: State, c: Conn, w: nat)
    requires Conserved(s) && UsedBy(s, c, w)
    ensures c < |s.psvr| && !PingedAt(s, c) && forall v: nat :: v != w ==> !UsedBy(s, c, v)
    ensures c !in s.temp && c !in s.lost
  {
    hide InLists, Held;
    assert Places(s, c) == if c < |s.psvr| then 1 else 0;
    HeldCounts(s.workers, w, c);
    forall v: nat | v != w ensures !UsedBy(s, c, v) {
      if UsedBy(s, c, v) {
        OneWorker(s.workers, w, Reading, c);
        HeldCounts(s.workers[w := Reading], v, c);
      }
    }
  }

  lemma {:induction false} HeldCounts(ws: seq<Worker>, w: nat, c: Conn)
    requires w < |ws|
    ensures Held(ws, c) >= Has(ws[w], c)
  {
    if w > 0 { HeldCounts(ws[1..], w - 1, c); }
  }

  lemma NobodyUses(s: State, c: Conn)
    requires Held(s.workers, c) == 0
    ensures forall w: nat :: !UsedBy(s, c, w)
  {
    hide Held;
    forall w: nat ensures !UsedBy(s, c, w) { if w < |s.workers| { HeldCounts(s.workers, w, c); } }
  }

  lemma PingedIsAlone(s: State)
    requires Conserved(s) && s.scan.Awaiting?
    ensures s.scan.conn < |s.psvr| && forall w: nat :: !UsedBy(s, s.scan.conn, w)
    ensures s.scan.conn !in s.temp && s.scan.conn !in s.lost
  {
    hide InLists, Held;
    var c := s.scan.conn;
    assert Places(s, c) == if c < |s.psvr| then 1 else 0;
    NobodyUses(s, c);
  }

  lemma HeadIsFree(s: State, i: nat)
    requires Conserved(s) && i < |s.lists| && s.lists[i] != []
    ensures s.lists[i][0] < |s.psvr| && Free(s, s.lists[i][0])
    ensures s.lists[i][0] !in s.temp && s.lists[i][0] !in s.lost
  {
    hide InLists, Held;
    var c := s.lists[i][0];
    assert Places(s, c) == if c < |s.psvr| then 1 else 0;
    ListCounts(s.lists, i, c);
    NobodyUses(s, c);
  }

  lemma {:induction false} ListCounts(ls: seq<seq<Conn>>, i: nat, c: Conn)
    requires i < |ls|
    ensures InLists(ls, c) >= Times(ls[i], c)
  {
    hide Times;
    if i > 0 { ListCounts(ls[1..], i - 1, c); }
  }

  lemma TempIsFree(s: State)
    requires Conserved(s) && s.temp != []
    ensures s.temp[0] < |s.psvr| && Free(s, s.temp[0])
    ensures s.temp[0] !in s.temp[1..] && s.temp[0] !in s.lost
  {
    hide InLists, Held;
    var c := s.temp[0];
    assert Places(s, c) == if c < |s.psvr| then 1 else 0;
    FirstOut(s.temp, c);
    NobodyUses(s, c);
  }

  // ----- each step -----

  /** A connection that a step does not touch. */
  lemma Untouched(s: State, t: State, c: Conn)
    requires Fits(s, c) && Get(t, c) == Get(s, c)
    requires PingedAt(s, c) || PingedAt(t, c) ==> t.scan == s.scan
    requires forall w: nat :: UsedBy(s, c, w) || UsedBy(t, c, w) ==>
               w < |s.workers| && w < |t.workers| && t.workers[w] == s.workers[w]
    requires s.sent <= t.sent && |s.said| <= |t.said|
    requires forall w: nat :: UsedBy(s, c, w) && s.workers[w].n < |s.said| ==>
               t.said[s.workers[w].n] == s.said[s.workers[w].n]
    ensures Fits(t, c)
  {
    hide Stage, Pinged, Get;
    assert forall w: nat :: UsedBy(t, c, w) ==> UsedBy(s, c, w);
    assert forall w: nat :: UsedBy(s, c, w) ==> UsedBy(t, c, w);
  }

  lemma StepKeepsInStep(s: State, l: Label)
    requires InStep(s) && Conserved(s) && Next(s, l).Some? && Careful(s, l)
    ensures InStep(Next(s, l).value)
  {
    hide InStep, Conserved, Next, Careful;
    match l
    case Seek(w) => if CanSend(s, w) { SendInStep(s, w); } else { IdleInStep(s, l); }
    case Finish(w, used) => FinishInStep(s, w, used);
    case FinishFails(w) => FailInStep(s, w);
    case SendPing => PingInStep(s);
    case Pong(used) => PongInStep(s, used);
    case PingFails => NoPongInStep(s);
    case Reconnect(ok) => ReconnectInStep(s, ok);
    case Handle(c, how) => HandleInStep(s, c, how);
    case HangUp(c) => HangUpInStep(s, c);
    case _ => IdleInStep(s, l);
  }

  /** The steps that touch no conversation. */
  lemma IdleInStep(s: State, l: Label)
    requires InStep(s) && Next(s, l).Some?
    requires l.Command? || l.Rotate? || l.Collect? || (l.Seek? && !CanSend(s, l.w))
    ensures InStep(Next(s, l).value)
  {
    hide Fits, Own, KeepEach, PickEach, ServerFor;
    var t := Next(s, l).value;
    forall c | 0 <= c < |t.conns| ensures Fits(t, c) { Untouched(s, t, c); }
    SameAnswers(s, t);
  }

  lemma SameAnswers(s: State, t: State)
    requires Answered(s) && t.said == s.said && t.answers == s.answers
    requires forall w :: 0 <= w < |t.workers| && t.workers[w].Using? ==> w < |s.workers| && t.workers[w] == s.workers[w]
    ensures Answered(t)
  {
  }

  lemma SendInStep(s: State, w: nat)
    requires InStep(s) && Conserved(s) && CanSend(s, w) && Careful(s, Seek(w))
    ensures Next(s, Seek(w)) == Some(Send(s, w)) && InStep(Send(s, w))
  {
    hide Fits, Own, Conserved, CommandsIn;
    var t, c, line := Send(s, w), s.lists[s.workers[w].server][0], s.workers[w].line;
    HeadIsFree(s, s.workers[w].server);
    forall d | 0 <= d < |t.conns| ensures Fits(t, d) {
      if d == c { SentFits(s, w); } else { Untouched(s, t, d); }
    }
    forall k | 0 <= k < |t.answers| ensures Own(t, t.answers[k]) && Over(t, t.answers[k].n) {
      assert Own(s, s.answers[k]) && Over(s, s.answers[k].n);
      OwnIsSaid(s, s.answers[k]);
      StillOwn(s, t, s.answers[k]);
    }
  }

  lemma StillOwn(s: State, t: State, a: Answer)
    requires Own(s, a) && a.n < |t.said| && t.said[a.n] == s.said[a.n]
    ensures Own(t, a)
  {
  }

  lemma OwnIsSaid(s: State, a: Answer)
    requires Own(s, a)
    ensures a.n < |s.said|
  {
  }

  /** Only worker w lets go of a connection. */
  lemma LetGo(s: State, t: State, c: Conn, w: nat)
    requires w < |s.workers| && t.workers == s.workers[w := Reading]
    requires forall v: nat :: v != w ==> !UsedBy(s, c, v)
    ensures forall v: nat :: !UsedBy(t, c, v)
  {
    forall v: nat ensures !UsedBy(t, c, v) { assert v != w ==> !UsedBy(s, c, v); }
  }

  lemma SameUsers(s: State, t: State, c: Conn)
    requires t.workers == s.workers
    ensures forall w: nat :: UsedBy(s, c, w) <==> UsedBy(t, c, w)
  {
  }

  lemma SentFits(s: State, w: nat)
    requires InStep(s) && CanSend(s, w) && Careful(s, Seek(w))
    requires var c := s.lists[s.workers[w].server][0]; c < |s.conns| && Free(s, c)
    ensures Fits(Send(s, w), s.lists[s.workers[w].server][0])
  {
    hide Lines, Plain, Text;
    var t, c, line := Send(s, w), s.lists[s.workers[w].server][0], s.workers[w].line;
    assert Fits(s, c);
    if Get(s, c).up {
      OneLineExactlyWhenPlain(CText(line));
      assert Tasks(CommandsIn(line), For(|s.sent|)) == [Task(CText(line), For(|s.sent|))];
    }
    assert UsedBy(t, c, w) && Talks(t, c, w);
    assert forall v: nat :: UsedBy(t, c, v) ==> v == w || UsedBy(s, c, v);
  }

  lemma FinishInStep(s: State, w: nat, used: nat)
    requires InStep(s) && Conserved(s) && Next(s, Finish(w, used)).Some? && Careful(s, Finish(w, used))
    ensures InStep(Next(s, Finish(w, used)).value)
  {
    hide Fits, Conserved, Talks, Give, Relay.Judge, Own, Text, ManyLines;
    var t, c, b := Next(s, Finish(w, used)).value, s.workers[w].conn, Get(s, s.workers[w].conn);
    assert UsedBy(s, c, w);
    UserIsAlone(s, c, w);
    GiveKeeps(s, c, true, b.(inbox := b.inbox[used..]));
    assert b.inbox[..used] == b.inbox;
    TakenWhole(s, w);
    LetGo(s, t, c, w);
    forall d | 0 <= d < |t.conns| ensures Fits(t, d) {
      if d == c { QuietFits(t, c); } else { Untouched(s, t, d); }
    }
    forall k | 0 <= k < |t.answers| ensures Own(t, t.answers[k]) && Over(t, t.answers[k].n) {
      if k < |s.answers| {
        assert Own(s, s.answers[k]) && Over(s, s.answers[k].n);
        OwnIsSaid(s, s.answers[k]);
        StillOwn(s, t, s.answers[k]);
      } else {
        OwnIsSaid(s, t.answers[k]);
        StillOwn(s, t, t.answers[k]);
        OthersDiffer(s, w);
      }
    }
  }

  /** A transfer that takes all of what is here. */
  lemma TakenWhole(s: State, w: nat)
    requires InStep(s) && w < |s.workers| && s.workers[w].Using? && s.workers[w].conn < |s.conns|
    requires Relay.Judge(ManyLines(s.workers[w].line), s.atoi, Text(Get(s, s.workers[w].conn).inbox)) == Relay.Done
    ensures var x, b := s.workers[w], Get(s, s.workers[w].conn);
            Own(s, Answer(x.n, b.inbox)) && b.queue == []
  {
    hide ManyLines, Answered;
    var x := s.workers[w];
    assert Fits(s, x.conn) && UsedBy(s, x.conn, w);
    EmptyIsPending(ManyLines(x.line), s.atoi);
    hide Relay.Judge;
    assert Text([]) == "";
  }

  lemma EmptyIsPending(multi: bool, atoi: string -> int)
    ensures Relay.Judge(multi, atoi, "") == Relay.Pending
  {
  }

  lemma OthersDiffer(s: State, w: nat)
    requires InStep(s) && Conserved(s) && w < |s.workers| && s.workers[w].Using?
    ensures forall v: nat :: v != w && v < |s.workers| && s.workers[v].Using? ==> s.workers[v].n != s.workers[w].n
  {
    hide Conserved, Answered, Stage;
    var c := s.workers[w].conn;
    assert UsedBy(s, c, w);
    UserIsAlone(s, c, w);
    assert Fits(s, c);
    forall v: nat | v != w && v < |s.workers| && s.workers[v].Using? ensures s.workers[v].n != s.workers[w].n {
      var d := s.workers[v].conn;
      assert UsedBy(s, d, v) && !UsedBy(s, c, v);
      UserIsAlone(s, d, v);
      assert Fits(s, d);
    }
  }

  lemma QuietFits(t: State, c: Conn)
    requires Quiet(Get(t, c)) && Free(t, c)
    ensures Fits(t, c)
  {
  }

  lemma FailInStep(s: State, w: nat)
    requires InStep(s) && Conserved(s) && Next(s, FinishFails(w)).Some?
    ensures InStep(Next(s, FinishFails(w)).value)
  {
    hide Fits, Conserved, Give, Own;
    var t, c := Next(s, FinishFails(w)).value, s.workers[w].conn;
    assert UsedBy(s, c, w);
    UserIsAlone(s, c, w);
    GiveKeeps(s, c, false, CLOSED);
    LetGo(s, t, c, w);
    forall d | 0 <= d < |t.conns| ensures Fits(t, d) {
      if d == c { QuietFits(t, c); } else { Untouched(s, t, d); }
    }
    SameAnswers(s, t);
  }

  lemma PingInStep(s: State)
    requires InStep(s) && Conserved(s) && Next(s, SendPing).Some?
    ensures InStep(Next(s, SendPing).value)
  {
    hide Conserved, Own, Text, Answered;
    var t, c := Next(s, SendPing).value, s.temp[0];
    TempIsFree(s);
    assert Fits(s, c);
    forall d | 0 <= d < |t.conns| ensures Fits(t, d) {
      if d == c {
        SameUsers(s, t, c);
        assert [] + [Task("PING", Ping(s.pings))] == [Task("PING", Ping(s.pings))];
      } else {
        hide Fits;
        assert Fits(s, d);
        Untouched(s, t, d);
      }
    }
    SameAnswers(s, t);
  }

  lemma PongInStep(s: State, used: nat)
    requires InStep(s) && Conserved(s) && Next(s, Pong(used)).Some? && Careful(s, Pong(used))
    ensures InStep(Next(s, Pong(used)).value)
  {
    hide Conserved, Own, Text, Give, Answered, Talks;
    var t, c, b := Next(s, Pong(used)).value, s.scan.conn, Get(s, s.scan.conn);
    PingedIsAlone(s);
    GiveKeeps(s, c, true, b.(inbox := b.inbox[used..]));
    assert Fits(s, c) && PingedAt(s, c);
    assert Quiet(Get(t, c));
    AfterPong(s, t, c);
  }

  lemma AfterPong(s: State, t: State, c: Conn)
    requires InStep(s) && PingedAt(s, c) && t.scan.Pinging? && forall w: nat :: !UsedBy(s, c, w)
    requires t.workers == s.workers && t.sent == s.sent && t.said == s.said && t.answers == s.answers
    requires t.psvr == s.psvr && |t.conns| == |s.conns| && Quiet(Get(t, c))
    requires forall d :: 0 <= d < |s.conns| && d != c ==> t.conns[d] == s.conns[d]
    ensures InStep(t)
  {
    hide Fits, Own;
    SameUsers(s, t, c);
    forall d | 0 <= d < |t.conns| ensures Fits(t, d) {
      if d == c { QuietFits(t, c); } else { Untouched(s, t, d); }
    }
    SameAnswers(s, t);
  }

  lemma NoPongInStep(s: State)
    requires InStep(s) && Conserved(s) && Next(s, PingFails).Some?
    ensures InStep(Next(s, PingFails).value)
  {
    hide Conserved, Own, Give, Answered, Fits;
    PingedIsAlone(s);
    GiveKeeps(s, s.scan.conn, false, CLOSED);
    AfterPong(s, Next(s, PingFails).value, s.scan.conn);
  }

  lemma ReconnectInStep(s: State, ok: bool)
    requires InStep(s) && Conserved(s) && Next(s, Reconnect(ok)).Some?
    ensures InStep(Next(s, Reconnect(ok)).value)
  {
    hide Conserved, Own, Give, Fits;
    var t, c := Next(s, Reconnect(ok)).value, s.temp[0];
    TempIsFree(s);
    GiveKeeps(s, c, ok, NEW);
    SameUsers(s, t, c);
    forall d | 0 <= d < |t.conns| ensures Fits(t, d) {
      if d == c { QuietFits(t, c); } else { Untouched(s, t, d); }
    }
    SameAnswers(s, t);
  }

  lemma HangUpInStep(s: State, c: Conn)
    requires InStep(s) && Next(s, HangUp(c)).Some?
    ensures InStep(Next(s, HangUp(c)).value)
  {
    hide Own, Text;
    var t := Next(s, HangUp(c)).value;
    assert Fits(s, c);
    forall d | 0 <= d < |t.conns| ensures Fits(t, d) {
      if d == c {
        SameUsers(s, t, c);
      } else {
        hide Fits;
        assert Fits(s, d);
        Untouched(s, t, d);
      }
    }
    SameAnswers(s, t);
  }

  /** midb handles a command: whose it is, and what is known then. */
  lemma HandleInStep(s: State, c: Conn, how: Outcome)
    requires InStep(s) && Conserved(s) && Next(s, Handle(c, how)).Some?
    ensures InStep(Next(s, Handle(c, how)).value)
  {
    hide Conserved, Fits, Own, Reply, SameText;
    var t := Next(s, Handle(c, how)).value;
    assert Fits(s, c);
    HandledFits(s, c, how);
    forall d | 0 <= d < |t.conns| ensures Fits(t, d) {
      if d != c {
        OtherReplies(s, c, d);
        Untouched(s, t, d);
      }
    }
    OtherAnswers(s, c);
    forall k | 0 <= k < |t.answers| ensures Own(t, t.answers[k]) && Over(t, t.answers[k].n) {
      assert Own(s, s.answers[k]) && Over(s, s.answers[k].n);
      OwnIsSaid(s, s.answers[k]);
      StillOwn(s, t, s.answers[k]);
    }
  }

  lemma HandledFits(s: State, c: Conn, how: Outcome)
    requires c < |s.conns| && Fits(s, c) && Next(s, Handle(c, how)).Some?
    ensures Fits(Next(s, Handle(c, how)).value, c)
  {
    hide Reply, SameText, Text;
    var t, b := Next(s, Handle(c, how)).value, Get(s, c);
    var of := b.queue[0].of;
    var reply := Reply(b.queue[0].command, how);
    TextOf(reply, of);
    assert [] + Spell(reply, of) == Spell(reply, of);
    SameUsers(s, t, c);
    forall w: nat | UsedBy(t, c, w) ensures Talks(t, c, w) {
      assert Talks(s, c, w);
      assert [] + [reply] == [reply];
    }
  }

  lemma TextOf(text: string, of: Tag)
    ensures Text(Spell(text, of)) == text && AllOf(Spell(text, of), of)
  {
  }

  /** The task that midb is at belongs to the connection's own worker. */
  lemma OtherReplies(s: State, c: Conn, d: Conn)
    requires InStep(s) && c < |s.conns| && d < |s.conns| && c != d && Get(s, c).queue != []
    ensures forall v: nat :: UsedBy(s, d, v) ==> Get(s, c).queue[0].of != For(s.workers[v].n)
  {
    hide Answered, Text;
    assert Fits(s, c) && Fits(s, d);
    forall v: nat | UsedBy(s, d, v) ensures Get(s, c).queue[0].of != For(s.workers[v].n) {
      assert Talks(s, d, v);
      if !PingedAt(s, c) {
        var w: nat :| UsedBy(s, c, w);
        assert Talks(s, c, w);
      }
    }
  }

  lemma OtherAnswers(s: State, c: Conn)
    requires InStep(s) && c < |s.conns| && Get(s, c).queue != []
    ensures forall k :: 0 <= k < |s.answers| ==> Get(s, c).queue[0].of != For(s.answers[k].n)
  {
    hide Own, Text;
    assert Fits(s, c);
    forall k | 0 <= k < |s.answers| ensures Get(s, c).queue[0].of != For(s.answers[k].n) {
      if !PingedAt(s, c) {
        var w: nat :| UsedBy(s, c, w);
        assert Talks(s, c, w) && Over(s, s.answers[k].n);
      }
    }
  }

  // ----- a careless step is seen at once -----

  lemma CarelessIsSeen(s: State, l: Label)
    requires Conserved(s) && Next(s, l).Some? && InStep(Next(s, l).value) && |s.conns| == |s.psvr|
    ensures Careful(s, l)
  {
    hide Conserved, Next, InStep;
    match l
    case Seek(w) => if CanSend(s, w) { SendSeen(s, w); }
    case Finish(w, used) => FinishSeen(s, w, used);
    case Pong(used) => PongSeen(s, used);
    case _ =>
  }

  lemma SendSeen(s: State, w: nat)
    requires Conserved(s) && CanSend(s, w) && Next(s, Seek(w)).Some? && InStep(Next(s, Seek(w)).value)
    requires |s.conns| == |s.psvr|
    ensures Careful(s, Seek(w))
  {
    hide Conserved, Answered, Lines, Plain, Text;
    var t, c, line := Send(s, w), s.lists[s.workers[w].server][0], s.workers[w].line;
    HeadIsFree(s, s.workers[w].server);
    assert Fits(t, c) && UsedBy(t, c, w);
    assert Talks(t, c, w);
    OneLineExactlyWhenPlain(CText(line));
    if Get(s, c).up {
      assert Get(t, c).queue == Get(s, c).queue + Tasks(CommandsIn(line), For(|s.sent|));
      assert |Get(t, c).queue| <= 1;
    }
  }

  lemma FinishSeen(s: State, w: nat, used: nat)
    requires Conserved(s) && Next(s, Finish(w, used)).Some? && InStep(Next(s, Finish(w, used)).value)
    requires |s.conns| == |s.psvr|
    ensures Careful(s, Finish(w, used))
  {
    hide Conserved, Answered, Give, Relay.Judge, Text, ManyLines, Talks;
    var t, c, b := Next(s, Finish(w, used)).value, s.workers[w].conn, Get(s, s.workers[w].conn);
    assert UsedBy(s, c, w);
    UserIsAlone(s, c, w);
    GiveKeeps(s, c, true, b.(inbox := b.inbox[used..]));
    LetGo(s, t, c, w);
    assert Fits(t, c) && Free(t, c);
    assert |b.inbox[used..]| == 0;
  }

  lemma PongSeen(s: State, used: nat)
    requires Conserved(s) && Next(s, Pong(used)).Some? && InStep(Next(s, Pong(used)).value)
    requires |s.conns| == |s.psvr|
    ensures Careful(s, Pong(used))
  {
    hide Conserved, Answered, Give, Text, Talks;
    var t, c, b := Next(s, Pong(used)).value, s.scan.conn, Get(s, s.scan.conn);
    PingedIsAlone(s);
    GiveKeeps(s, c, true, b.(inbox := b.inbox[used..]));
    SameUsers(s, t, c);
    assert Fits(t, c) && Free(t, c);
    assert |b.inbox[used..]| == 0;
  }

  // ----- every run -----

  ghost predicate CarefulRun(s: State, run: seq<Label>) {
    forall i :: 0 <= i < |run| && Exec(s, run[..i]).Some? ==> Careful(Exec(s, run[..i]).value, run[i])
  }

  ghost predicate InStepRun(s: State, run: seq<Label>) {
    forall i :: 0 <= i <= |run| && Exec(s, run[..i]).Some? ==> InStep(Exec(s, run[..i]).value)
  }

  /** In every run: all conversations with midb stay in step, and every client gets the one
      reply to its own line, exactly when no line with a CRLF inside is sent, and every read
      of a PING reply and every transfer takes all there is. */
  lemma InStepExactlyWhenCareful(atoi: string -> int, prefixes: seq<string>, psvr: seq<nat>, workers: nat,
                                 run: seq<Label>)
    requires forall c :: 0 <= c < |psvr| ==> psvr[c] < |prefixes|
    requires Exec(Init(atoi, prefixes, psvr, workers), run).Some?
    ensures var s := Init(atoi, prefixes, psvr, workers); InStepRun(s, run) <==> CarefulRun(s, run)
  {
    hide Exec, Next, Careful, InStep, Conserved, Routed, Init;
    var s := Init(atoi, prefixes, psvr, workers);
    if CarefulRun(s, run) {
      forall i | 0 <= i <= |run| && Exec(s, run[..i]).Some? ensures InStep(Exec(s, run[..i]).value) {
        CarefulPrefix(s, run, i);
        CarefulRunInStep(atoi, prefixes, psvr, workers, run[..i]);
      }
    }
    if InStepRun(s, run) {
      forall i | 0 <= i < |run| && Exec(s, run[..i]).Some? ensures Careful(Exec(s, run[..i]).value, run[i]) {
        RunStep(s, run, i);
        EveryRunRoutes(atoi, prefixes, psvr, workers, run[..i]);
        EveryRunConns(atoi, prefixes, psvr, workers, run[..i]);
        CarelessIsSeen(Exec(s, run[..i]).value, run[i]);
      }
    }
  }

  lemma {:induction false} CarefulRunInStep(atoi: string -> int, prefixes: seq<string>, psvr: seq<nat>, workers: nat,
                                            run: seq<Label>)
    requires forall c :: 0 <= c < |psvr| ==> psvr[c] < |prefixes|
    requires Exec(Init(atoi, prefixes, psvr, workers), run).Some?
    requires CarefulRun(Init(atoi, prefixes, psvr, workers), run)
    ensures InStep(Exec(Init(atoi, prefixes, psvr, workers), run).value)
    decreases |run|
  {
    hide Next, Careful, InStep, Conserved, Routed, Init;
    var s0 := Init(atoi, prefixes, psvr, workers);
    if run == [] {
      InitInStep(atoi, prefixes, psvr, workers);
    } else {
      var k := |run| - 1;
      CarefulPrefix(s0, run, k);
      CarefulRunInStep(atoi, prefixes, psvr, workers, run[..k]);
      EveryRunRoutes(atoi, prefixes, psvr, workers, run[..k]);
      StepKeepsInStep(Exec(s0, run[..k]).value, run[k]);
    }
  }

  lemma InitInStep(atoi: string -> int, prefixes: seq<string>, psvr: seq<nat>, workers: nat)
    ensures InStep(Init(atoi, prefixes, psvr, workers))
  {
  }

  lemma CarefulPrefix(s: State, run: seq<Label>, i: nat)
    requires CarefulRun(s, run) && i <= |run|
    ensures CarefulRun(s, run[..i])
  {
    hide Exec, Careful;
    forall j | 0 <= j < i && Exec(s, run[..i][..j]).Some? ensures Careful(Exec(s, run[..i][..j]).value, run[..i][j]) {
      assert run[..i][..j] == run[..j];
    }
  }

  /** A prefix of a run is a run. */
  lemma {:induction false} RunStep(s: State, run: seq<Label>, i: nat)
    requires Exec(s, run).Some? && i < |run|
    ensures Exec(s, run[..i]).Some? && Exec(s, run[..i + 1]).Some?
    ensures Next(Exec(s, run[..i]).value, run[i]) == Exec(s, run[..i + 1])
    decreases |run|
  {
    hide Next;
    var k := |run| - 1;
    if i == k {
      assert run[..i + 1] == run;
    } else {
      assert run[..k][..i] == run[..i] && run[..k][..i + 1] == run[..i + 1];
      RunStep(s, run[..k], i);
    }
  }

  /** What is unread or waiting on a connection belongs to lines and PINGs that were sent. */
  predicate TagsKnown(s: State, b: Link) {
    && (forall i :: 0 <= i < |b.queue| ==> Known(s, b.queue[i].of))
    && (forall i :: 0 <= i < |b.inbox| ==> Known(s, b.inbox[i].of))
  }

  predicate Known(s: State, of: Tag) { if of.For? then of.n < |s.sent| else of.k < s.pings }

  predicate Recorded(s: State) {
    && |s.conns| == |s.psvr| && |s.said| == |s.sent|
    && forall c :: 0 <= c < |s.conns| ==> TagsKnown(s, s.conns[c])
  }

  lemma StepKeepsRecords(s: State, l: Label)
    requires Recorded(s) && Next(s, l).Some?
    ensures Recorded(Next(s, l).value)
  {
    hide TagsKnown, Next;
    var t := Next(s, l).value;
    Growing(s, l);
    forall c | 0 <= c < |t.conns| ensures TagsKnown(t, t.conns[c]) { LinkStep(s, l, c); }
  }

  lemma Growing(s: State, l: Label)
    requires Recorded(s) && Next(s, l).Some?
    ensures var t := Next(s, l).value;
            && |t.conns| == |s.conns| && t.psvr == s.psvr && |t.said| == |t.sent|
            && s.sent <= t.sent && s.pings <= t.pings
  {
    hide ServerFor, KeepEach, PickEach, Relay.Judge, Reply, CommandsIn, TagsKnown;
  }

  lemma LinkStep(s: State, l: Label, c: Conn)
    requires Recorded(s) && Next(s, l).Some? && c < |s.conns| == |Next(s, l).value.conns|
    requires s.sent <= Next(s, l).value.sent && s.pings <= Next(s, l).value.pings
    ensures TagsKnown(Next(s, l).value, Next(s, l).value.conns[c])
  {
    hide TagsKnown, Next;
    assert TagsKnown(s, s.conns[c]);
    match l
    case Handle(d, how) => HandleTags(s, d, how, c);
    case Seek(w) => WriteTags(s, l, c);
    case SendPing => WriteTags(s, l, c);
    case _ => ReadTags(s, l, c);
  }

  lemma HandleTags(s: State, d: Conn, how: Outcome, c: Conn)
    requires c < |s.conns| && TagsKnown(s, s.conns[c]) && Next(s, Handle(d, how)).Some?
    ensures var t := Next(s, Handle(d, how)).value; TagsKnown(t, t.conns[c])
  {
    hide Reply, SameText, Log;
  }

  lemma WriteTags(s: State, l: Label, c: Conn)
    requires (l.Seek? || l.SendPing?) && c < |s.conns| && TagsKnown(s, s.conns[c]) && Next(s, l).Some?
    ensures var t := Next(s, l).value; TagsKnown(t, t.conns[c])
  {
    hide CommandsIn;
  }

  lemma KnownOf(s: State, t: State, b: Link, used: nat)
    requires TagsKnown(s, b) && t.sent == s.sent && t.pings == s.pings && used <= |b.inbox|
    ensures TagsKnown(t, b) && TagsKnown(t, CLOSED) && TagsKnown(t, NEW)
    ensures TagsKnown(t, b.(inbox := b.inbox[used..])) && TagsKnown(t, b.(up := false, queue := []))
  {
  }

  lemma ReadTags(s: State, l: Label, c: Conn)
    requires !l.Handle? && !l.Seek? && !l.SendPing? && c < |s.conns| && TagsKnown(s, s.conns[c]) && Next(s, l).Some?
    ensures var t := Next(s, l).value; TagsKnown(t, t.conns[c])
  {
    hide ServerFor, KeepEach, PickEach, Relay.Judge, Text, ManyLines, Give, TagsKnown;
    var t, x := Next(s, l).value, s.conns[c];
    match l
    case Finish(w, used) =>
      var b := Get(s, s.workers[w].conn);
      GiveKeeps(s, s.workers[w].conn, true, b.(inbox := b.inbox[used..]));
      KnownOf(s, t, x, if c == s.workers[w].conn then used else 0);
    case FinishFails(w) =>
      GiveKeeps(s, s.workers[w].conn, false, CLOSED);
      KnownOf(s, t, x, 0);
    case Pong(used) =>
      var b := Get(s, s.scan.conn);
      GiveKeeps(s, s.scan.conn, true, b.(inbox := b.inbox[used..]));
      KnownOf(s, t, x, if c == s.scan.conn then used else 0);
    case PingFails =>
      GiveKeeps(s, s.scan.conn, false, CLOSED);
      KnownOf(s, t, x, 0);
    case Reconnect(ok) =>
      GiveKeeps(s, s.temp[0], ok, NEW);
      KnownOf(s, t, x, 0);
    case Command(_, _) => KnownOf(s, t, x, 0);
    case Rotate(_) => KnownOf(s, t, x, 0);
    case Collect => KnownOf(s, t, x, 0);
    case HangUp(_) => KnownOf(s, t, x, 0);
    case _ =>
  }

  lemma {:induction false} EveryRunConns(atoi: string -> int, prefixes: seq<string>, psvr: seq<nat>, workers: nat,
                                         run: seq<Label>)
    requires Exec(Init(atoi, prefixes, psvr, workers), run).Some?
    ensures Recorded(Exec(Init(atoi, prefixes, psvr, workers), run).value)
    decreases |run|
  {
    hide Next, Recorded;
    if run == [] {
      InitRecords(atoi, prefixes, psvr, workers);
    } else {
      var k := |run| - 1;
      EveryRunConns(atoi, prefixes, psvr, workers, run[..k]);
      StepKeepsRecords(Exec(Init(atoi, prefixes, psvr, workers), run[..k]).value, run[k]);
    }
  }

  lemma InitRecords(atoi: string -> int, prefixes: seq<string>, psvr: seq<nat>, workers: nat)
    ensures Recorded(Init(atoi, prefixes, psvr, workers))
  {
  }

  // ----- what the clients get -----

  /** In every careful run, each client has got the text of the one reply that midb made to
      its own line, letter by letter from that reply. */
  lemma EveryClientGetsItsOwnReply(atoi: string -> int, prefixes: seq<string>, psvr: seq<nat>, workers: nat,
                                   run: seq<Label>, k: nat)
    requires forall c :: 0 <= c < |psvr| ==> psvr[c] < |prefixes|
    requires Exec(Init(atoi, prefixes, psvr, workers), run).Some?
    requires CarefulRun(Init(atoi, prefixes, psvr, workers), run)
    requires k < |Exec(Init(atoi, prefixes, psvr, workers), run).value.answers|
    ensures var s := Exec(Init(atoi, prefixes, psvr, workers), run).value;
            var a := s.answers[k];
            && a.n < |s.said| && s.said[a.n] == [Text(a.got)]
            && forall i :: 0 <= i < |a.got| ==> a.got[i].of == For(a.n)
  {
    hide Exec, Init, Fits, Conserved, Text, CarefulRun;
    CarefulRunInStep(atoi, prefixes, psvr, workers, run);
    var s := Exec(Init(atoi, prefixes, psvr, workers), run).value;
    assert Own(s, s.answers[k]);
  }

  /** A successful transfer of what midb has written is a step of the pools. */
  lemma TransferFinishes(s: State, w: nat, sizes: seq<nat>, cuts: seq<nat>, written: string)
    requires w < |s.workers| && s.workers[w].Using?
    requires var x := s.workers[w];
             Relay.Transferred(ManyLines(x.line), s.atoi, Text(Get(s, x.conn).inbox), sizes, cuts, 0, written)
    ensures var x, r := s.workers[w], Next(s, Finish(w, Relay.Last(cuts)));
            && r.Some? && |r.value.answers| == |s.answers| + 1
            && r.value.answers[|s.answers|].n == x.n && Text(r.value.answers[|s.answers|].got) == written
  {
    hide ManyLines, Relay.Judge;
    var x := s.workers[w];
    var inbox, used := Get(s, x.conn).inbox, Relay.Last(cuts);
    assert Text(inbox)[..used] == Text(inbox[..used]);
  }

  /** Midb's side of the third condition: the reply of a command in hand is complete. */
  ghost predicate Tidy(s: State, l: Label) {
    match l
    case Handle(c, how) =>
      Get(s, c).queue != [] ==>
        forall w: nat :: UsedBy(s, c, w) ==>
          Relay.Complete(ManyLines(s.workers[w].line), s.atoi, Reply(Get(s, c).queue[0].command, how))
    case Finish(_, _) => true
    case _ => Careful(s, l)
  }

  ghost predicate TidyRun(s: State, run: seq<Label>) {
    forall i :: 0 <= i < |run| && Exec(s, run[..i]).Some? ==> Tidy(Exec(s, run[..i]).value, run[i])
  }

  /** What midb has said to a line that is still being answered is complete. */
  ghost predicate Whole(s: State) {
    forall w: nat :: w < |s.workers| && s.workers[w].Using? && s.workers[w].n < |s.said| ==>
      forall i :: 0 <= i < |s.said[s.workers[w].n]| ==> WholeReply(s, w, i)
  }

  predicate WholeReply(s: State, w: nat, i: nat)
    requires w < |s.workers| && s.workers[w].Using? && s.workers[w].n < |s.said| && i < |s.said[s.workers[w].n]|
  {
    Relay.Complete(ManyLines(s.workers[w].line), s.atoi, s.said[s.workers[w].n][i])
  }

  /** A complete reply is taken whole, whatever the transfer's reads are. */
  lemma TidyIsCareful(s: State, l: Label)
    requires InStep(s) && Conserved(s) && Whole(s) && Next(s, l).Some? && Tidy(s, l)
    ensures Careful(s, l)
  {
    hide Conserved, Relay.Judge, ManyLines, Answered;
    if l.Finish? {
      var x := s.workers[l.w];
      var b := Get(s, x.conn);
      assert UsedBy(s, x.conn, l.w);
      UserIsAlone(s, x.conn, l.w);
      assert Fits(s, x.conn);
      EmptyIsPending(ManyLines(x.line), s.atoi);
      assert Text([]) == "" && Text(b.inbox)[..l.used] == Text(b.inbox[..l.used]);
      assert b.inbox[..0] == [];
      assert WholeReply(s, l.w, 0);
    }
  }

  lemma StepKeepsWhole(s: State, l: Label)
    requires InStep(s) && Conserved(s) && Whole(s) && Next(s, l).Some? && Tidy(s, l)
    ensures Whole(Next(s, l).value)
  {
    hide Conserved, Relay.Complete, ManyLines, Answered, InStep, Next, Tidy;
    match l
    case Handle(c, how) => HandledWhole(s, c, how);
    case _ => Sizes(s); OthersStayWhole(s, l);
  }

  lemma Sizes(s: State)
    requires InStep(s)
    ensures |s.said| == |s.sent| && |s.conns| == |s.psvr|
  {
  }

  lemma OthersStayWhole(s: State, l: Label)
    requires Whole(s) && |s.said| == |s.sent| && Next(s, l).Some? && !l.Handle?
    ensures Whole(Next(s, l).value)
  {
    hide Relay.Complete, Relay.Judge, ManyLines, ServerFor, KeepEach, PickEach, CommandsIn;
    var t := Next(s, l).value;
    forall w: nat, i: nat | w < |t.workers| && t.workers[w].Using? && t.workers[w].n < |t.said|
                            && i < |t.said[t.workers[w].n]|
      ensures WholeReply(t, w, i)
    {
      if t.workers[w].n < |s.said| && w < |s.workers| && t.workers[w] == s.workers[w] { assert WholeReply(s, w, i); }
    }
  }

  lemma HandledWhole(s: State, c: Conn, how: Outcome)
    requires InStep(s) && Conserved(s) && Whole(s) && Next(s, Handle(c, how)).Some? && Tidy(s, Handle(c, how))
    ensures Whole(Next(s, Handle(c, how)).value)
  {
    hide Conserved, Relay.Complete, ManyLines, Answered, Text, SameText, Reply;
    var t, b := Next(s, Handle(c, how)).value, Get(s, c);
    assert Fits(s, c);
    forall w: nat, i: nat | w < |t.workers| && t.workers[w].Using? && t.workers[w].n < |t.said|
                            && i < |t.said[t.workers[w].n]|
      ensures WholeReply(t, w, i)
    {
      if b.queue[0].of != For(s.workers[w].n) {
        assert WholeReply(s, w, i);
      } else {
        OwnTask(s, c, w);
        assert Talks(s, c, w);
      }
    }
  }

  /** The worker that a task was written for is the one that uses the connection. */
  lemma OwnTask(s: State, c: Conn, w: nat)
    requires InStep(s) && Conserved(s) && c < |s.conns| && Get(s, c).queue != []
    requires w < |s.workers| && s.workers[w].Using? && Get(s, c).queue[0].of == For(s.workers[w].n)
    ensures UsedBy(s, c, w)
  {
    hide Conserved, Answered, Text;
    var d := s.workers[w].conn;
    assert UsedBy(s, d, w);
    UserIsAlone(s, d, w);
    if d != c { OtherReplies(s, c, d); }
  }

  /** Every run in which no line with a CRLF inside is sent, PING replies are read whole and
      midb's replies are complete is careful, however the replies are cut up on the way. */
  lemma {:induction false} TidyRunsAreCareful(atoi: string -> int, prefixes: seq<string>, psvr: seq<nat>, workers: nat,
                                              run: seq<Label>)
    requires forall c :: 0 <= c < |psvr| ==> psvr[c] < |prefixes|
    requires Exec(Init(atoi, prefixes, psvr, workers), run).Some?
    requires TidyRun(Init(atoi, prefixes, psvr, workers), run)
    ensures CarefulRun(Init(atoi, prefixes, psvr, workers), run)
    ensures Whole(Exec(Init(atoi, prefixes, psvr, workers), run).value)
    decreases |run|
  {
    hide Next, Tidy, Careful, Whole, InStep, Conserved, Routed, Init;
    var s0 := Init(atoi, prefixes, psvr, workers);
    if run == [] {
      InitWhole(atoi, prefixes, psvr, workers);
    } else {
      var k := |run| - 1;
      forall i | 0 <= i < k && Exec(s0, run[..k][..i]).Some?
        ensures Tidy(Exec(s0, run[..k][..i]).value, run[..k][i])
      {
        assert run[..k][..i] == run[..i];
      }
      TidyRunsAreCareful(atoi, prefixes, psvr, workers, run[..k]);
      CarefulRunInStep(atoi, prefixes, psvr, workers, run[..k]);
      EveryRunRoutes(atoi, prefixes, psvr, workers, run[..k]);
      var s := Exec(s0, run[..k]).value;
      TidyIsCareful(s, run[k]);
      StepKeepsWhole(s, run[k]);
      forall i | 0 <= i < |run| && Exec(s0, run[..i]).Some? ensures Careful(Exec(s0, run[..i]).value, run[i]) {
        if i < k { assert run[..k][..i] == run[..i] && run[..k][i] == run[i]; }
      }
    }
  }

  lemma InitWhole(atoi: string -> int, prefixes: seq<string>, psvr: seq<nat>, workers: nat)
    ensures Whole(Init(atoi, prefixes, psvr, workers))
  {
  }

  // ----- one exchange, in all states -----

  /** The client's line is sent, midb handles one command, and the transfer takes so much. */
  function Exchange(s: State, w: nat, c: Conn, how: Outcome, used: nat): Option<State> {
    var sent :- Next(s, Seek(w));
    var handled :- Next(sent, Handle(c, how));
    Next(handled, Finish(w, used))
  }

  /** For a plain line and any reply that is complete for it: the client gets the one reply
      to its line, and leaves nothing behind, exactly when there was nothing before, unread
      or waiting to be handled. */
  lemma OwnReplyExactlyWhenQuiet(s: State, w: nat, how: Outcome, used: nat)
    requires Recorded(s) && CanSend(s, w) && Plain(CText(s.workers[w].line))
    requires var c := s.lists[s.workers[w].server][0];
             c < |s.conns| && s.conns[c].up && Exchange(s, w, c, how, used).Some?
    requires var line := s.workers[w].line;
             Relay.Complete(ManyLines(line), s.atoi, Reply(CText(line), how)) && Reply(CText(line), how) != ""
    ensures var c := s.lists[s.workers[w].server][0];
            var t := Exchange(s, w, c, how, used).value;
            && |t.answers| == |s.answers| + 1
            && (Own(t, t.answers[|s.answers|]) && Quiet(Get(t, c)) <==> Quiet(Get(s, c)))
  {
    hide Relay.Complete, Relay.Judge, ManyLines, Reply, Plain, Lines, SameText, Text, Give;
    var c, line, n := s.lists[s.workers[w].server][0], s.workers[w].line, |s.sent|;
    var b, sent := Get(s, c), Send(s, w);
    OneLineExactlyWhenPlain(CText(line));
    assert Tasks(CommandsIn(line), For(n)) == [Task(CText(line), For(n))];
    assert Get(sent, c).queue == b.queue + [Task(CText(line), For(n))];
    var handled := Next(sent, Handle(c, how)).value;
    var left := Get(handled, c);
    GiveKeeps(handled, c, true, left.(inbox := left.inbox[used..]));
    if b.queue == [] {
      assert left.queue == [] && [] + [Reply(CText(line), how)] == [Reply(CText(line), how)];
      WholeExactlyWhenFirst(ManyLines(line), s.atoi, b.inbox, Reply(CText(line), how), For(n), used);
    } else {
      assert TagsKnown(s, b) && Known(s, b.queue[0].of);
      assert (b.queue + [Task(CText(line), For(n))])[1..] != [];
    }
  }

  /** A reply behind what is unread: the transfer takes just that reply, and all of it,
      exactly when nothing is unread. */
  lemma WholeExactlyWhenFirst(multi: bool, atoi: string -> int, inbox: seq<Letter>, reply: string, of: Tag, used: nat)
    requires Relay.Complete(multi, atoi, reply) && reply != "" && used <= |inbox + Spell(reply, of)|
    requires Relay.Judge(multi, atoi, Text((inbox + Spell(reply, of))[..used])) == Relay.Done
    ensures var left := inbox + Spell(reply, of);
            Text(left[..used]) == reply && AllOf(left[..used], of) && left[used..] == [] <==> inbox == []
  {
    hide Relay.Judge;
    var left := inbox + Spell(reply, of);
    EmptyIsPending(multi, atoi);
    TextOf(reply, of);
    assert |Text(left[..used])| == used && |left[used..]| == |inbox| + |reply| - used;
    if inbox == [] {
      assert left == Spell(reply, of);
      assert Text(left[..used]) == reply[..used];
      assert reply[..0] == "";
      assert used == |reply| && left[..used] == left && reply[..used] == reply;
    }
  }

  // ----- a reply that is not complete -----

  /** midb reports a missing mailbox in two lines. A transfer that reads the first of them
      leaves the other one behind. */
  lemma MissingMailboxLeavesALine(s: State, c: Conn, w: nat)
    requires InStep(s) && c < |s.conns| && UsedBy(s, c, w) && Get(s, c).up && Get(s, c).queue != []
    requires ArgCount(CText(s.workers[w].line)) >= 2
    ensures var r := Next(s, Handle(c, NoEnvironment));
            && r.Some? && Next(r.value, Finish(w, 9)).Some? && !Careful(r.value, Finish(w, 9))
            && var t := Next(r.value, Finish(w, 9)).value;
               t.answers == s.answers + [Answer(s.workers[w].n, Spell("FALSE 0" + CRLF, For(s.workers[w].n)))]
               && Get(t, c).inbox == Spell("FALSE 0" + CRLF, For(s.workers[w].n))
  {
    hide Answered, Relay.Judge, ManyLines, Text, Give, ArgCount, Spell;
    assert Fits(s, c) && Talks(s, c, w);
    var x, line := s.workers[w], "FALSE 0" + CRLF;
    NotQuit(CText(x.line));
    assert Reply(CText(x.line), NoEnvironment) == line + line;
    var r := Next(s, Handle(c, NoEnvironment)).value;
    assert [] + Spell(line + line, For(x.n)) == Spell(line + line, For(x.n));
    SpelledTwice(line, For(x.n));
    TextOf(line, For(x.n));
    RefusalIsDone(ManyLines(x.line), s.atoi);
    GiveKeeps(r, c, true, Get(r, c).(inbox := Get(r, c).inbox[9..]));
  }

  lemma SpelledTwice(line: string, of: Tag)
    ensures var ls := Spell(line + line, of);
            |ls| == 2 * |line| && ls[..|line|] == Spell(line, of) && ls[|line|..] == Spell(line, of)
  {
  }

  lemma NotQuit(t: string)
    requires ArgCount(t) >= 2
    ensures !SameText(t, "QUIT")
  {
    if SameText(t, "QUIT") {
      assert forall i :: 0 <= i < 4 ==> Lower(t[i]) == Lower("QUIT"[i]);
      assert t[0] != ' ' && t[1] != ' ' && t[2] != ' ' && t[3] != ' ';
      OneWord(t, false);
    }
  }

  lemma {:induction false} OneWord(t: string, inWord: bool)
    requires forall i :: 0 <= i < |t| ==> t[i] != ' '
    ensures Words(t, inWord) <= 1
  {
    if t != "" { OneWord(t[1..], true); }
  }

  lemma RefusalIsDone(multi: bool, atoi: string -> int)
    ensures Relay.Judge(multi, atoi, "FALSE 0" + CRLF) == Relay.Done
  {
    var t := "FALSE 0" + CRLF;
    assert |t| == 9 && t[7] == '\r' && t[8] == '\n' && t[..6] == "FALSE " && t[..5] == "FALSE";
    RefusalFrom(atoi, t, 0);
  }

  lemma {:induction false} RefusalFrom(atoi: string -> int, t: string, i: nat)
    requires t == "FALSE 0" + CRLF && i <= 7
    ensures Relay.HeadFrom(atoi, t, i) == Relay.Refusal
    decreases 7 - i
  {
    assert |t| == 9 && t[7] == '\r' && t[8] == '\n' && t[..6] == "FALSE " && t[..5] == "FALSE";
    if i < 7 {
      assert t[i] == "FALSE 0"[i];
      RefusalFrom(atoi, t, i + 1);
    }
  }
}
