/** Two runs of the lock broker, from its start, that leave a granted lock in back_list. */
module LockSplit {
  import opened Options
  import opened Texts
  import opened LineReader
  import opened Pools
  import opened LockBroker
  import opened LockSafety
  import opened LockLeak

  const CONNECTED: seq<Label> := [Rotate({}), Collect, Reconnect(true), Accept(0), Wake(0)]
  const SPLIT: seq<Label> := [Rotate({0}), SendPing, Answer(0, false), Pong(2)]

  /** The scanner reads half a reply to PING. The next LOCK is granted, but its worker reads
      the other half with the answer and puts the backend into back_list. */
  lemma SplitPongLeavesAGrant()
    ensures exists run :: LeavesAGrant(CONNECTED + SPLIT + [AskLine(0, "a")] + run)
  {
    hide Next, Exec, Leaves;
    Connected();
    Halved();
    PlainLeaksExactlyWhenStale(HALF, 0, 0, "a");
    var run :| Leaves(HALF, 0, 0, "a", run);
    Grants(CONNECTED + SPLIT, HALF, "a", run);
  }

  /** No PING is involved: a client sends two commands in one packet. The broker takes them
      for one line, the locker for two, and the broker reads both answers as one. */
  lemma TwoCommandsLeaveAGrant()
    ensures exists run: seq<Label> ::
              && LeavesAGrant(CONNECTED + [AskLine(0, "a" + CRLF + "LOCK b")] + run)
              && forall i :: 0 <= i < |run| ==> !run[i].Pong?
  {
    hide Next, Exec, Leaves;
    Connected();
    var name := "a" + CRLF + "LOCK b";
    assert Leaky(name) by { LeakyPair(); }
    LinesAreFew(LockText(name));
    LeaksExactlyWhenStaleOrLeaky(IDLE, 0, 0, name);
    var run :| Leaves(IDLE, 0, 0, name, run);
    Grants(CONNECTED, IDLE, name, run);
    OnlyExchange(IDLE, name, run);
  }

  ghost predicate LeavesAGrant(run: seq<Label>) {
    var r := Exec(Init(2, 60, 1), run);
    r.Some? && LeftHeld(r.value, 0)
  }

  lemma LeakyPair()
    ensures Leaky("a" + CRLF + "LOCK b")
  {
    TwoLineNames("a", "LOCK b");
    assert |"LOCK b"| == 6 && Lower("LOCK b"[0]) != Lower("UNLOCK"[0]);
  }

  lemma OnlyExchange(s: State, name: string, run: seq<Label>)
    requires Leaves(s, 0, 0, name, run)
    ensures forall i :: 0 <= i < |run| ==> !run[i].Pong?
  {
  }

  lemma Grants(before: seq<Label>, s: State, name: string, run: seq<Label>)
    requires Exec(Init(2, 60, 1), before) == Some(s) && Leaves(s, 0, 0, name, run)
    ensures LeavesAGrant(before + [AskLine(0, name)] + run)
  {
    hide Exec;
    Appended(Init(2, 60, 1), before, [AskLine(0, name)] + run);
    assert before + ([AskLine(0, name)] + run) == before + [AskLine(0, name)] + run;
  }

  lemma {:induction false} Appended(s: State, a: seq<Label>, b: seq<Label>)
    requires Exec(s, a).Some?
    ensures Exec(s, a + b) == Exec(Exec(s, a).value, b)
    decreases |b|
  {
    hide Next;
    if b == [] {
      assert a + b == a;
    } else {
      var k := |b| - 1;
      assert (a + b)[..|a| + k] == a + b[..k] && (a + b)[|a| + k] == b[k];
      Appended(s, a, b[..k]);
    }
  }

  const READY := Session(Ready, None, "", "", 0, 0, [])

  /** One backend, one session, and the scanner after its round. */
  const IDLE := State(2, 60, [], [0], [Serving(0, READY, Loop(0)), Waiting], [0], [], [], Reconnecting, [NEW])
  const HALF := IDLE.(scan := Pinging, conns := [NEW.(inbox := "UE\r\n")])

  lemma OneStep(s0: State, run: seq<Label>, s: State, l: Label, longer: seq<Label>, t: State)
    requires Exec(s0, run) == Some(s) && longer == run + [l] && Next(s, l) == Some(t)
    ensures Exec(s0, longer) == Some(t)
  {
    hide Next;
    assert longer[..|run|] == run;
  }

  lemma Connected()
    ensures Exec(Init(2, 60, 1), CONNECTED) == Some(IDLE)
  {
    hide Exec, Next;
    var s0 := Init(2, 60, 1);
    FirstRound();
    FirstClient();
    Nothing(s0);
    OneStep(s0, [], s0, Rotate({}), CONNECTED[..1], ROUND);
    OneStep(s0, CONNECTED[..1], ROUND, Collect, CONNECTED[..2], GATHERED);
    OneStep(s0, CONNECTED[..2], GATHERED, Reconnect(true), CONNECTED[..3], OPENED);
    OneStep(s0, CONNECTED[..3], OPENED, Accept(0), CONNECTED[..4], ADMITTED);
    OneStep(s0, CONNECTED[..4], ADMITTED, Wake(0), CONNECTED, IDLE);
  }

  const ROUND := State(2, 60, [], [], [Waiting, Waiting], [], [0], [], Pinging, [CLOSED])
  const GATHERED := ROUND.(temp := [0], lost := [], scan := Reconnecting)
  const OPENED := GATHERED.(temp := [], back := [0], conns := [NEW])
  const ADMITTED := OPENED.(front1 := [0])

  lemma FirstRound()
    ensures Next(Init(2, 60, 1), Rotate({})) == Some(ROUND) && Next(ROUND, Collect) == Some(GATHERED)
    ensures Next(GATHERED, Reconnect(true)) == Some(OPENED)
  {
    hide ReadyLine, LockedLine, QueueTick, NextChunk, NextReturn, NextAnswer, NextPong, NextHangUp, Release, Leave,
         Lose;
    var s0 := Init(2, 60, 1);
    assert s0.lost == [0] && s0.conns == [CLOSED] && s0.workers == [Waiting, Waiting];
    assert GATHERED.temp[1..] == [] && GATHERED.back + [0] == [0] && GATHERED.conns[0 := NEW] == [NEW];
  }

  lemma FirstClient()
    ensures Next(OPENED, Accept(0)) == Some(ADMITTED) && Next(ADMITTED, Wake(0)) == Some(IDLE)
  {
    hide ReadyLine, LockedLine, QueueTick, NextChunk, NextReturn, NextAnswer, NextPong, NextHangUp, Release, Leave,
         Lose;
    assert OPENED.front1 + [0] == [0] && ADMITTED.front1[1..] == [] && ADMITTED.front + [0] == [0];
    assert ADMITTED.workers[0 := Serving(0, READY, Loop(0))] == IDLE.workers;
  }

  lemma Nothing(s: State)
    ensures Exec(s, []) == Some(s)
  {
  }

  lemma Halved()
    requires Exec(Init(2, 60, 1), CONNECTED) == Some(IDLE)
    ensures Exec(Init(2, 60, 1), CONNECTED + SPLIT) == Some(HALF)
  {
    hide Exec, Next;
    PingSteps();
    PongSteps();
    var s0, run := Init(2, 60, 1), CONNECTED;
    OneStep(s0, run, IDLE, Rotate({0}), run + SPLIT[..1], TAKEN);
    OneStep(s0, run + SPLIT[..1], TAKEN, SendPing, run + SPLIT[..2], PINGED);
    OneStep(s0, run + SPLIT[..2], PINGED, Answer(0, false), run + SPLIT[..3], ANSWERED);
    OneStep(s0, run + SPLIT[..3], ANSWERED, Pong(2), run + SPLIT, HALF);
  }

  const TAKEN := IDLE.(back := [], temp := [0], scan := Pinging)
  const PINGED := TAKEN.(temp := [], scan := Awaiting(0), conns := [NEW.(requests := ["PING"])])
  const ANSWERED := PINGED.(conns := [NEW.(inbox := "TRUE\r\n")])

  lemma PingSteps()
    ensures Next(IDLE, Rotate({0})) == Some(TAKEN) && Next(TAKEN, SendPing) == Some(PINGED)
  {
    hide Lines;
    CommandLines();
    assert Keep([0], {0}) == [] && Pick([0], {0}) == [0];
    assert TAKEN.temp[1..] == [] && NEW.requests + ["PING"] == ["PING"] && Write(TAKEN, 0, PING) == PINGED.conns;
  }

  lemma PongSteps()
    ensures Next(PINGED, Answer(0, false)) == Some(ANSWERED) && Next(ANSWERED, Pong(2)) == Some(HALF)
  {
    PingIsAnswered();
    assert PINGED.conns[0 := ANSWERED.conns[0]] == ANSWERED.conns && "TRUE\r\n"[2..] == "UE\r\n";
    assert ANSWERED.back + [0] == [0] && ANSWERED.conns[0 := HALF.conns[0]] == HALF.conns;
  }

  lemma PingIsAnswered()
    ensures forall taken :: Serve(PINGED.conns[0], false, taken) == Some(ANSWERED.conns[0])
  {
    WholeText("PING");
    assert "" + "TRUE" + CRLF == "TRUE\r\n" && PINGED.conns[0].requests[1..] == [];
    assert Lower("PING"[0]) != Lower("QUIT"[0]);
  }
}
