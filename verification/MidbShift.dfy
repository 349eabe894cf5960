/** A connection to midb on which something is left over: every later client gets what was
    meant for an earlier one, until the connection is closed. */
module MidbShift {
  import opened Options
  import opened Texts
  import opened Pools
  import opened MidbPool
  import opened MidbReplies
  import Relay

  /** What the next byte on a connection will be a reply to. */
  function First(b: Link): Tag
    requires !Quiet(b)
  {
    if b.inbox != [] then b.inbox[0].of else b.queue[0].of
  }

  predicate Owes(b: Link, of: Tag) {
    || (exists i :: 0 <= i < |b.inbox| && b.inbox[i].of == of)
    || (exists i :: 0 <= i < |b.queue| && b.queue[i].of == of)
  }

  /** Something else comes before the reply to this. */
  predicate Late(b: Link, of: Tag) { !Quiet(b) && First(b) != of && Owes(b, of) }

  /** An open connection with something left over from before. */
  ghost predicate Behind(s: State, c: Conn) {
    && c < |s.conns| && c < |s.psvr| && s.psvr[c] < |s.lists|
    && Get(s, c).up && !Quiet(Get(s, c))
    && (PingedAt(s, c) ==> Late(Get(s, c), Ping(s.scan.k)))
    && (forall w: nat :: UsedBy(s, c, w) ==> Late(Get(s, c), For(s.workers[w].n)))
    && c !in s.lost && (s.scan.Reconnecting? ==> c !in s.temp)
  }

  /** Each read of the connection takes bytes of one reply, and midb does reply. */
  predicate OneReply(s: State, l: Label, c: Conn) {
    var b := Get(s, c);
    match l
    case Finish(w, used) => UsedBy(s, c, w) && used <= |b.inbox| && !Quiet(b) ==> AllOf(b.inbox[..used], First(b))
    case Pong(used) => PingedAt(s, c) && used <= |b.inbox| && !Quiet(b) ==> AllOf(b.inbox[..used], First(b))
    case Handle(d, how) => d == c && b.queue != [] ==> Reply(b.queue[0].command, how) != ""
    case _ => true
  }

  // ----- one connection -----

  lemma WriteLate(b: Link, tasks: seq<Task>, of: Tag)
    requires !Quiet(b) && First(b) != of && tasks != [] && forall i :: 0 <= i < |tasks| ==> tasks[i].of == of
    ensures Late(b.(queue := b.queue + tasks), of)
  {
    var q := b.queue + tasks;
    assert q[|b.queue|] == tasks[0];
  }

  lemma ReadLate(b: Link, used: nat, of: Tag)
    requires Late(b, of) && used <= |b.inbox| && AllOf(b.inbox[..used], First(b))
    ensures !Quiet(b.(inbox := b.inbox[used..]))
    ensures forall i :: 0 <= i < used ==> b.inbox[i].of != of
  {
    forall i | 0 <= i < used ensures b.inbox[i].of != of { assert b.inbox[..used][i] == b.inbox[i]; }
    if b.queue == [] {
      var i :| 0 <= i < |b.inbox| && b.inbox[i].of == of;
      assert b.inbox[used..][i - used] == b.inbox[i];
    }
  }

  /** A link after midb has handled a command and not quit. */
  function AfterReply(b: Link, reply: string): Link
    requires b.queue != []
  {
    Link(b.up, b.queue[1..], b.inbox + Spell(reply, b.queue[0].of))
  }

  lemma HandleLate(b: Link, reply: string, of: Tag)
    requires b.queue != [] && reply != ""
    ensures !Quiet(AfterReply(b, reply)) && First(AfterReply(b, reply)) == First(b)
    ensures Owes(b, of) ==> Owes(AfterReply(b, reply), of)
  {
    var said, d := Spell(reply, b.queue[0].of), AfterReply(b, reply);
    assert d.inbox[|b.inbox|] == said[0];
    if i :| 0 <= i < |b.inbox| && b.inbox[i].of == of {
      assert d.inbox[i] == b.inbox[i];
    } else if i :| 0 <= i < |b.queue| && b.queue[i].of == of {
      if i > 0 { assert d.queue[i - 1] == b.queue[i]; }
    }
  }

  // ----- one step -----

  lemma BehindStaysBehind(s: State, l: Label, c: Conn)
    requires Recorded(s) && Conserved(s) && Behind(s, c) && OneReply(s, l, c)
    requires Next(s, l).Some? && Get(Next(s, l).value, c).up
    ensures Behind(Next(s, l).value, c)
  {
    hide Recorded, Conserved, Behind, Next, OneReply;
    match l
    case Seek(w) => if CanSend(s, w) { SendStays(s, w, c); } else { NothingHappens(s, l, c); }
    case SendPing => PingStays(s, c);
    case Finish(w, used) => FinishStays(s, w, used, c);
    case FinishFails(w) => FailStays(s, w, c);
    case Pong(used) => PongStays(s, used, c);
    case PingFails => NoPongStays(s, c);
    case Reconnect(ok) => ReconnectStays(s, ok, c);
    case Handle(d, how) => HandleStays(s, d, how, c);
    case HangUp(d) => HangUpStays(s, d, c);
    case _ => NothingHappens(s, l, c);
  }

  /** A connection that a step leaves as it is, and with the same user. */
  lemma StillBehind(s: State, t: State, c: Conn)
    requires Behind(s, c) && Get(t, c) == Get(s, c) && |t.conns| == |s.conns| && |t.lists| == |s.lists|
             && t.psvr == s.psvr
    requires PingedAt(t, c) ==> t.scan == s.scan
    requires forall w: nat :: UsedBy(t, c, w) ==> UsedBy(s, c, w) && t.workers[w] == s.workers[w]
    requires c !in t.lost && (t.scan.Reconnecting? ==> c !in t.temp)
    ensures Behind(t, c)
  {
    hide Late, Get;
  }

  lemma NothingHappens(s: State, l: Label, c: Conn)
    requires Behind(s, c) && Next(s, l).Some?
    requires l.Command? || l.Rotate? || l.Collect? || (l.Seek? && !CanSend(s, l.w))
    ensures Behind(Next(s, l).value, c)
  {
    hide Late, KeepEach, PickEach, ServerFor;
    var t := Next(s, l).value;
    forall w: nat | UsedBy(t, c, w) ensures UsedBy(s, c, w) && t.workers[w] == s.workers[w] {}
    StillBehind(s, t, c);
  }

  lemma SendStays(s: State, w: nat, c: Conn)
    requires Recorded(s) && Conserved(s) && Behind(s, c) && CanSend(s, w)
    ensures Next(s, Seek(w)) == Some(Send(s, w)) && Behind(Send(s, w), c)
  {
    hide Conserved, Late, CommandsIn, Tasks, TagsKnown;
    var t, d, of := Send(s, w), s.lists[s.workers[w].server][0], For(|s.sent|);
    var tasks := Tasks(CommandsIn(s.workers[w].line), of);
    HeadIsFree(s, s.workers[w].server);
    if d == c {
      Fresh(s, c);
      SomeTasks(s.workers[w].line, of);
      WriteLate(Get(s, c), tasks, of);
      NewUser(s, t, c, w);
      hide Late;
      assert !Quiet(Get(t, c));
    } else {
      forall v: nat | UsedBy(t, c, v) ensures UsedBy(s, c, v) && t.workers[v] == s.workers[v] {}
      StillBehind(s, t, c);
    }
  }

  lemma Fresh(s: State, c: Conn)
    requires Recorded(s) && c < |s.conns| && !Quiet(Get(s, c))
    ensures First(Get(s, c)) != For(|s.sent|) && First(Get(s, c)) != Ping(s.pings)
  {
    assert TagsKnown(s, s.conns[c]);
  }

  lemma SomeTasks(line: string, of: Tag)
    ensures var tasks := Tasks(CommandsIn(line), of);
            tasks != [] && forall i :: 0 <= i < |tasks| ==> tasks[i].of == of
  {
    hide Lines;
    AnotherLine(CText(line));
  }

  lemma NewUser(s: State, t: State, c: Conn, w: nat)
    requires w < |s.workers| == |t.workers| && t.workers == s.workers[w := t.workers[w]]
    requires forall v: nat :: !UsedBy(s, c, v)
    ensures forall v: nat :: UsedBy(t, c, v) ==> v == w
  {
    forall v: nat | UsedBy(t, c, v) ensures v == w { assert !UsedBy(s, c, v); }
  }

  lemma PingStays(s: State, c: Conn)
    requires Recorded(s) && Conserved(s) && Behind(s, c) && Next(s, SendPing).Some?
    ensures Behind(Next(s, SendPing).value, c)
  {
    hide Conserved, Late, TagsKnown;
    var t := Next(s, SendPing).value;
    TempIsFree(s);
    SameUsers(s, t, c);
    if s.temp[0] == c {
      Fresh(s, c);
      WriteLate(Get(s, c), [Task("PING", Ping(s.pings))], Ping(s.pings));
    } else {
      StillBehind(s, t, c);
    }
  }

  lemma FinishStays(s: State, w: nat, used: nat, c: Conn)
    requires Conserved(s) && Behind(s, c) && OneReply(s, Finish(w, used), c) && Next(s, Finish(w, used)).Some?
    ensures Behind(Next(s, Finish(w, used)).value, c)
  {
    hide Conserved, Late, Relay.Judge, Text, ManyLines;
    var t, d := Next(s, Finish(w, used)).value, s.workers[w].conn;
    assert UsedBy(s, d, w);
    UserIsAlone(s, d, w);
    forall v: nat | UsedBy(t, c, v) ensures UsedBy(s, c, v) && t.workers[v] == s.workers[v] {}
    if d == c {
      LateIs(Get(s, c), For(s.workers[w].n));
      ReadLate(Get(s, c), used, For(s.workers[w].n));
      LetGo(s, t, c, w);
    } else {
      StillBehind(s, t, c);
    }
  }

  lemma LateIs(b: Link, of: Tag)
    ensures Late(b, of) ==> !Quiet(b)
  {
  }

  lemma FailStays(s: State, w: nat, c: Conn)
    requires Conserved(s) && Behind(s, c) && Next(s, FinishFails(w)).Some? && Get(Next(s, FinishFails(w)).value, c).up
    ensures Behind(Next(s, FinishFails(w)).value, c)
  {
    hide Conserved, Late;
    var t, d := Next(s, FinishFails(w)).value, s.workers[w].conn;
    forall v: nat | UsedBy(t, c, v) ensures UsedBy(s, c, v) && t.workers[v] == s.workers[v] {}
    assert d != c;
    StillBehind(s, t, c);
  }

  lemma PongStays(s: State, used: nat, c: Conn)
    requires Conserved(s) && Behind(s, c) && OneReply(s, Pong(used), c) && Next(s, Pong(used)).Some?
    ensures Behind(Next(s, Pong(used)).value, c)
  {
    hide Conserved, Late;
    var t := Next(s, Pong(used)).value;
    PingedIsAlone(s);
    SameUsers(s, t, c);
    if s.scan.conn == c {
      LateIs(Get(s, c), Ping(s.scan.k));
      ReadLate(Get(s, c), used, Ping(s.scan.k));
    } else {
      StillBehind(s, t, c);
    }
  }

  lemma NoPongStays(s: State, c: Conn)
    requires Behind(s, c) && Next(s, PingFails).Some? && Get(Next(s, PingFails).value, c).up
    ensures Behind(Next(s, PingFails).value, c)
  {
    hide Late;
    var t := Next(s, PingFails).value;
    SameUsers(s, t, c);
    assert s.scan.conn != c;
    StillBehind(s, t, c);
  }

  lemma ReconnectStays(s: State, ok: bool, c: Conn)
    requires Behind(s, c) && Next(s, Reconnect(ok)).Some?
    ensures Behind(Next(s, Reconnect(ok)).value, c)
  {
    hide Late;
    var t := Next(s, Reconnect(ok)).value;
    SameUsers(s, t, c);
    assert s.temp[0] in s.temp;
    StillBehind(s, t, c);
  }

  lemma HandleStays(s: State, d: Conn, how: Outcome, c: Conn)
    requires Behind(s, c) && OneReply(s, Handle(d, how), c) && Next(s, Handle(d, how)).Some?
    requires Get(Next(s, Handle(d, how)).value, c).up
    ensures Behind(Next(s, Handle(d, how)).value, c)
  {
    hide Late, Reply, SameText, Spell;
    var t := Next(s, Handle(d, how)).value;
    SameUsers(s, t, c);
    if d == c {
      var b := Get(s, c);
      var reply := Reply(b.queue[0].command, how);
      assert Get(t, c) == AfterReply(b, reply);
      forall of: Tag | Late(b, of) ensures Late(AfterReply(b, reply), of) { LateHandled(b, reply, of); }
      HandleLate(b, reply, For(0));
    } else {
      StillBehind(s, t, c);
    }
  }

  lemma LateHandled(b: Link, reply: string, of: Tag)
    requires b.queue != [] && reply != "" && Late(b, of)
    ensures Late(AfterReply(b, reply), of)
  {
    HandleLate(b, reply, of);
  }

  lemma HangUpStays(s: State, d: Conn, c: Conn)
    requires Behind(s, c) && Next(s, HangUp(d)).Some? && Get(Next(s, HangUp(d)).value, c).up
    ensures Behind(Next(s, HangUp(d)).value, c)
  {
    hide Late;
    var t := Next(s, HangUp(d)).value;
    SameUsers(s, t, c);
    StillBehind(s, t, c);
  }

  // ----- how it begins, and how it goes on -----

  /** A connection that a read gives back open is behind exactly when it is not quiet then. */
  lemma GivenBackBehindExactlyWhenNotQuiet(s: State, l: Label, c: Conn)
    requires Recorded(s) && Conserved(s) && Next(s, l).Some? && c < |s.psvr| && s.psvr[c] < |s.lists|
    requires (l.Finish? && UsedBy(s, c, l.w)) || (l.Pong? && PingedAt(s, c))
    requires Get(s, c).up
    ensures Behind(Next(s, l).value, c) <==> !Quiet(Get(Next(s, l).value, c))
  {
    hide Conserved, Late, Relay.Judge, Text, ManyLines, TagsKnown;
    var t := Next(s, l).value;
    if l.Finish? {
      UserIsAlone(s, c, l.w);
      LetGo(s, t, c, l.w);
    } else {
      PingedIsAlone(s);
      SameUsers(s, t, c);
    }
  }

  /** As long as the connection is not closed, each read takes bytes of one reply, and midb
      does reply. */
  ghost predicate Keeps(s: State, run: seq<Label>, c: Conn) {
    forall i :: 0 <= i < |run| && Exec(s, run[..i]).Some? && Exec(s, run[..i + 1]).Some? ==>
      OneReply(Exec(s, run[..i]).value, run[i], c) && Get(Exec(s, run[..i + 1]).value, c).up
  }

  /** The answers to lines on c since then: none of their bytes replies to their own line. */
  predicate Strangers(s: State, t: State, c: Conn) {
    && |s.answers| <= |t.answers|
    && forall k :: |s.answers| <= k < |t.answers| ==> Stranger(t, t.answers[k], c)
  }

  predicate Stranger(t: State, a: Answer, c: Conn) {
    a.n < |t.sent| && (t.sent[a.n].1 == c ==> forall i :: 0 <= i < |a.got| ==> a.got[i].of != For(a.n))
  }

  /** In every continuation of every run in which a connection falls behind, it stays so and
      each of its clients gets somebody else's bytes, until it is closed or a read takes
      more than one reply. */
  lemma {:induction false} BehindForGood(s: State, c: Conn, run: seq<Label>)
    requires Recorded(s) && Conserved(s) && Routed(s) && Behind(s, c) && Exec(s, run).Some? && Keeps(s, run, c)
    ensures var t := Exec(s, run).value;
            Recorded(t) && Conserved(t) && Routed(t) && Behind(t, c) && Strangers(s, t, c)
    decreases |run|
  {
    hide Recorded, Conserved, Routed, Behind, Next, OneReply, Stranger, Get;
    if run == [] {
    } else {
      var k := |run| - 1;
      KeepsPrefix(s, run, c, k);
      BehindForGood(s, c, run[..k]);
      var t := Exec(s, run[..k]).value;
      assert run[..k + 1] == run;
      StepKeepsRouted(t, run[k]);
      StepKeepsRecords(t, run[k]);
      StepConserves(t, run[k]);
      BehindStaysBehind(t, run[k], c);
      ServesStrangers(s, t, run[k], c);
    }
  }

  lemma KeepsPrefix(s: State, run: seq<Label>, c: Conn, k: nat)
    requires Keeps(s, run, c) && k <= |run|
    ensures Keeps(s, run[..k], c)
  {
    hide Exec, OneReply, Get;
    forall i | 0 <= i < k && Exec(s, run[..k][..i]).Some? && Exec(s, run[..k][..i + 1]).Some?
      ensures OneReply(Exec(s, run[..k][..i]).value, run[..k][i], c)
      ensures Get(Exec(s, run[..k][..i + 1]).value, c).up
    {
      assert run[..k][..i] == run[..i] && run[..k][..i + 1] == run[..i + 1];
    }
  }

  lemma StepConserves(s: State, l: Label)
    requires Conserved(s) && Next(s, l).Some?
    ensures Conserved(Next(s, l).value)
  {
    hide Next, Places;
    var t := Next(s, l).value;
    SameConfig(s, l);
    forall c: Conn ensures Places(t, c) == if c < |t.psvr| then 1 else 0 { StepKeepsPlaces(s, l, c); }
  }

  lemma ServesStrangers(s: State, t: State, l: Label, c: Conn)
    requires Strangers(s, t, c) && Routed(t) && Behind(t, c) && OneReply(t, l, c) && Next(t, l).Some?
    ensures Strangers(s, Next(t, l).value, c)
  {
    hide Routed, Behind, Next, OneReply, Stranger;
    var u := Next(t, l).value;
    AnswersGrow(t, l);
    forall k | |s.answers| <= k < |u.answers| ensures Stranger(u, u.answers[k], c) {
      if k < |t.answers| {
        StrangerStays(t, u, t.answers[k], c);
      } else {
        NewStranger(t, l, c);
      }
    }
  }

  lemma AnswersGrow(s: State, l: Label)
    requires Next(s, l).Some?
    ensures var t := Next(s, l).value;
            && s.sent <= t.sent && s.answers <= t.answers && |t.answers| <= |s.answers| + 1
            && (!l.Finish? ==> t.answers == s.answers)
  {
    hide ServerFor, KeepEach, PickEach, Relay.Judge, Reply, CommandsIn, Text, ManyLines;
  }

  lemma StrangerStays(s: State, t: State, a: Answer, c: Conn)
    requires Stranger(s, a, c) && s.sent <= t.sent
    ensures Stranger(t, a, c)
  {
  }

  lemma NewStranger(s: State, l: Label, c: Conn)
    requires Routed(s) && Behind(s, c) && OneReply(s, l, c) && l.Finish? && Next(s, l).Some?
    ensures var t := Next(s, l).value;
            |t.answers| == |s.answers| + 1 && Stranger(t, t.answers[|s.answers|], c)
  {
    hide ListsRight, SentRight, ServerFor, Late, Relay.Judge, Text, ManyLines;
    var x, b := s.workers[l.w], Get(s, c);
    if x.conn == c {
      assert UsedBy(s, c, l.w);
      LateIs(b, For(x.n));
      ReadLate(b, l.used, For(x.n));
    }
  }
}
