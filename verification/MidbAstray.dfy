/** Runs of the mail-index broker in which a command reaches the wrong server, and a reply
    the wrong client. */
module MidbAstray {
  import opened Options
  import opened Texts
  import opened Pools
  import opened MidbPool
  import opened MidbReplies
  import LineReader
  import Relay

  const SERVERS: seq<string> := ["/a", "/b"]
  const TWO_COMMANDS: string := "M-SUMY /a x" + CRLF + "M-SUMY /b y"
  const CONNECTED: seq<Label> := [Rotate({}), Collect, Reconnect(true), Reconnect(true)]

  /** Two commands in one packet: the first decides, and the second reaches the wrong server. */
  lemma SecondCommandGoesAstray(atoi: string -> int)
    ensures var r := Exec(Init(atoi, SERVERS, [0, 1], 1), CONNECTED + [Command(0, TWO_COMMANDS), Seek(0)]);
            && r.Some? && r.value.sent == [(TWO_COMMANDS, 0)] && !CommandsRight(r.value)
            && CommandsIn(TWO_COMMANDS) == ["M-SUMY /a x", "M-SUMY /b y"]
            && ServerFor(SERVERS, "M-SUMY /b y") == Some(1)
  {
    hide Exec, Next, ServerFor, CommandsIn;
    Connects(atoi);
    SendsBoth(atoi);
    Reads();
    ServersOf();
    var s0, line := Init(atoi, SERVERS, [0, 1], 1), TWO_COMMANDS;
    OneStep(s0, CONNECTED, Connected(atoi), Command(0, line), CONNECTED + [Command(0, line)], Seeks(atoi));
    OneStep(s0, CONNECTED + [Command(0, line)], Seeks(atoi), Seek(0), CONNECTED + [Command(0, line), Seek(0)],
            Sent(atoi));
    assert !RightServer(Sent(atoi), CommandsIn(line)[1], Sent(atoi).sent[0].1);
  }

  function Connected(atoi: string -> int): State {
    State(atoi, SERVERS, [0, 1], [[0], [1]], [], [], Reconnecting, 0, [Reading], [NEW, NEW], [], [], [])
  }

  function Seeks(atoi: string -> int): State { Connected(atoi).(workers := [Seeking(TWO_COMMANDS, 0, 0)]) }

  const BOTH: seq<Task> := [Task("M-SUMY /a x", For(0)), Task("M-SUMY /b y", For(0))]

  function Sent(atoi: string -> int): State {
    Connected(atoi).(lists := [[], [1]], workers := [Using(TWO_COMMANDS, 0, 0)], conns := [NEW.(queue := BOTH), NEW],
                     sent := [(TWO_COMMANDS, 0)], said := [[]])
  }

  lemma OneStep(s0: State, run: seq<Label>, s: State, l: Label, longer: seq<Label>, t: State)
    requires Exec(s0, run) == Some(s) && longer == run + [l] && Next(s, l) == Some(t)
    ensures Exec(s0, longer) == Some(t)
  {
    hide Next;
    assert longer[..|run|] == run;
  }

  lemma Connects(atoi: string -> int)
    ensures Exec(Init(atoi, SERVERS, [0, 1], 1), CONNECTED) == Some(Connected(atoi))
  {
    hide Exec, Next;
    var s0 := Init(atoi, SERVERS, [0, 1], 1);
    assert s0.lists == [[], []] && s0.lost == [0, 1] && s0.conns == [CLOSED, CLOSED] && s0.workers == [Reading];
    var s1 := s0.(scan := Pinging);
    var s2 := s1.(temp := [0, 1], lost := [], scan := Reconnecting);
    var s3 := s2.(temp := [1], lists := [[0], []], conns := [NEW, CLOSED]);
    Scans(s0, s1, s2);
    Reconnects(s2, s3, Connected(atoi));
    assert Exec(s0, []) == Some(s0) by { Nothing(s0); }
    OneStep(s0, [], s0, Rotate({}), CONNECTED[..1], s1);
    OneStep(s0, CONNECTED[..1], s1, Collect, CONNECTED[..2], s2);
    OneStep(s0, CONNECTED[..2], s2, Reconnect(true), CONNECTED[..3], s3);
    OneStep(s0, CONNECTED[..3], s3, Reconnect(true), CONNECTED, Connected(atoi));
  }

  lemma Nothing(s: State)
    ensures Exec(s, []) == Some(s)
  {
  }

  lemma Scans(s0: State, s1: State, s2: State)
    requires s0.lists == [[], []] && s0.lost == [0, 1] && s0.temp == [] && s0.scan.Reconnecting?
    requires s1 == s0.(scan := Pinging) && s2 == s1.(temp := [0, 1], lost := [], scan := Reconnecting)
    ensures Next(s0, Rotate({})) == Some(s1) && Next(s1, Collect) == Some(s2)
  {
    hide NextCommand, NextSeek, NextFinish, NextPong, NextHandle, Give;
    assert s0.lists[1..] == [[]] && s0.lists[1..][1..] == [];
    assert PickEach(s0.lists[1..], {}) == Pick(s0.lists[1], {}) + PickEach([], {}) == [];
    assert KeepEach(s0.lists, {}) == s0.lists && PickEach(s0.lists, {}) == [];
  }

  lemma Reconnects(s2: State, s3: State, s4: State)
    requires s2.temp == [0, 1] && s2.scan.Reconnecting? && s2.lists == [[], []] && s2.conns == [CLOSED, CLOSED]
             && s2.psvr == [0, 1]
    requires s3 == s2.(temp := [1], lists := [[0], []], conns := [NEW, CLOSED])
    requires s4 == s3.(temp := [], lists := [[0], [1]], conns := [NEW, NEW])
    ensures Next(s2, Reconnect(true)) == Some(s3) && Next(s3, Reconnect(true)) == Some(s4)
  {
    hide NextCommand, NextSeek, NextFinish, NextPong, NextHandle;
    assert s2.temp[1..] == [1] && s3.temp[1..] == [];
    assert s2.conns[0 := NEW] == s3.conns && s3.conns[1 := NEW] == s4.conns;
    assert s2.lists[0] + [0] == [0] && s2.lists[0 := [0]] == s3.lists;
    assert s3.lists[1] + [1] == [1] && s3.lists[1 := [1]] == s4.lists;
  }

  lemma SendsBoth(atoi: string -> int)
    ensures Next(Connected(atoi), Command(0, TWO_COMMANDS)) == Some(Seeks(atoi))
    ensures Next(Seeks(atoi), Seek(0)) == Some(Sent(atoi))
  {
    hide ServerFor, CommandsIn, NextFinish, NextPong, NextHandle, Give;
    ServersOf();
    Reads();
    var s, t := Connected(atoi), Seeks(atoi);
    assert s.workers[0 := Seeking(TWO_COMMANDS, 0, 0)] == t.workers;
    assert Tasks(CommandsIn(TWO_COMMANDS), For(0)) == BOTH;
    assert [] + BOTH == BOTH && t.conns[0 := NEW.(queue := BOTH)] == Sent(atoi).conns;
    Takes(t, TWO_COMMANDS, Sent(atoi));
  }

  lemma Takes(t: State, line: string, u: State)
    requires t.workers == [Seeking(line, 0, 0)] && t.lists == [[0], [1]] && u.lists == [[], [1]]
    requires u.workers == [Using(line, 0, |t.sent|)] && u.sent == t.sent + [(line, 0)] && u.said == t.said + [[]]
    requires u == t.(lists := u.lists, workers := u.workers, sent := u.sent, said := u.said, conns := u.conns)
    requires u.conns == Write(t, 0, Tasks(CommandsIn(line), For(|t.sent|)))
    ensures Next(t, Seek(0)) == Some(u)
  {
    hide CommandsIn, Tasks, Write;
    assert t.lists[0][1..] == [] && t.lists[0 := []] == u.lists;
    assert t.workers[0 := Using(line, 0, |t.sent|)] == u.workers;
  }

  lemma Reads()
    ensures CommandsIn(TWO_COMMANDS) == ["M-SUMY /a x", "M-SUMY /b y"]
  {
    hide Lines;
    WholeText(TWO_COMMANDS);
    FirstLine("M-SUMY /a x", "M-SUMY /b y" + CRLF);
    OneLineExactlyWhenPlain("M-SUMY /b y");
    assert TWO_COMMANDS + CRLF == "M-SUMY /a x" + CRLF + ("M-SUMY /b y" + CRLF);
  }

  lemma ServersOf()
    ensures ServerFor(SERVERS, TWO_COMMANDS) == Some(0) && ServerFor(SERVERS, "M-SUMY /b y") == Some(1)
  {
    hide Multi, PathOf, CText;
    WholeText(TWO_COMMANDS);
    WholeText("M-SUMY /b y");
    assert TWO_COMMANDS == "M-SUMY " + "/a" + (" x" + CRLF + "M-SUMY /b y");
    assert "M-SUMY /b y" == "M-SUMY " + "/b" + " y";
    PathIsTheWord("M-SUMY ", "/a", " x" + CRLF + "M-SUMY /b y");
    PathIsTheWord("M-SUMY ", "/b", " y");
    Summary(TWO_COMMANDS);
    Summary("M-SUMY /b y");
    assert "/a"[..2] == "/a" && "/b"[..2] == "/b" && "/a"[1] != "/b"[1];
    assert FirstServer(SERVERS, "/b", 1) == Some(1);
  }

  lemma Summary(t: string)
    requires Starts(t, "M-SUMY ")
    ensures Multi(t) == Some(false)
  {
    assert ONE_LINE[1] == "M-SUMY " && SameText(t[..7], ONE_LINE[1]);
  }

  // ----- a reply for the wrong client -----

  const TWO_ALIKE: string := "M-SUMY /a x" + CRLF + "M-SUMY /a y"
  const LATER: string := "M-SUMY /a z"
  const ONE: string := "TRUE 1" + CRLF
  const TWO: string := "TRUE 2" + CRLF
  const FIRST_CLIENT: seq<Label> := [Command(0, TWO_ALIKE), Seek(0), Handle(0, Handled(ONE)), Finish(0, 8)]
  const NEXT_CLIENT: seq<Label> := [Command(0, LATER), Seek(0), Handle(0, Handled(TWO)), Finish(0, 8)]

  /** Two commands for the same server in one packet: the client gets the reply to the first,
      with nothing unread. The next client's line makes midb handle the second one, and that
      client gets the reply to it; its own command is still waiting. */
  lemma NextClientGetsTheSecondReply(atoi: string -> int)
    ensures var r := Exec(Init(atoi, SERVERS, [0, 1], 1), CONNECTED + FIRST_CLIENT + NEXT_CLIENT);
            && r.Some? && r.value.answers == [Answer(0, Spell(ONE, For(0))), Answer(1, Spell(TWO, For(0)))]
            && r.value.conns[..1] == [Link(true, [Task(LATER, For(1))], [])]
            && !Own(r.value, r.value.answers[1]) && Agrees(SERVERS, TWO_ALIKE)
  {
    hide Exec, Next, ServerFor, CommandsIn, Spell, Text;
    var s0 := Init(atoi, SERVERS, [0, 1], 1);
    Connects(atoi);
    Alike();
    SixLetters();
    FirstServed(atoi);
    NextServed(atoi);
    Four(s0, CONNECTED, FIRST_CLIENT, Connected(atoi), Asking(atoi), Asked(atoi), Replied(atoi), Served(atoi));
    Four(s0, CONNECTED + FIRST_CLIENT, NEXT_CLIENT,
         Served(atoi), Asking2(atoi), Asked2(atoi), Replied2(atoi), Served2(atoi));
  }

  function Asking(atoi: string -> int): State { Connected(atoi).(workers := [Seeking(TWO_ALIKE, 0, 0)]) }

  function Asked(atoi: string -> int): State {
    Connected(atoi).(lists := [[], [1]], workers := [Using(TWO_ALIKE, 0, 0)], sent := [(TWO_ALIKE, 0)], said := [[]],
                     conns := [Link(true, [Task("M-SUMY /a x", For(0)), Task("M-SUMY /a y", For(0))], []), NEW])
  }

  function Replied(atoi: string -> int): State {
    Asked(atoi).(conns := [Link(true, [Task("M-SUMY /a y", For(0))], Spell(ONE, For(0))), NEW], said := [[ONE]])
  }

  function Served(atoi: string -> int): State {
    Connected(atoi).(sent := [(TWO_ALIKE, 0)], said := [[ONE]], answers := [Answer(0, Spell(ONE, For(0)))],
                     conns := [Link(true, [Task("M-SUMY /a y", For(0))], []), NEW])
  }

  function Asking2(atoi: string -> int): State { Served(atoi).(workers := [Seeking(LATER, 0, 0)]) }

  function Asked2(atoi: string -> int): State {
    Served(atoi).(lists := [[], [1]], workers := [Using(LATER, 0, 1)], sent := [(TWO_ALIKE, 0), (LATER, 0)],
                  said := [[ONE], []],
                  conns := [Link(true, [Task("M-SUMY /a y", For(0)), Task(LATER, For(1))], []), NEW])
  }

  function Replied2(atoi: string -> int): State {
    Asked2(atoi).(conns := [Link(true, [Task(LATER, For(1))], Spell(TWO, For(0))), NEW], said := [[ONE, TWO], []])
  }

  function Served2(atoi: string -> int): State {
    Connected(atoi).(sent := [(TWO_ALIKE, 0), (LATER, 0)], said := [[ONE, TWO], []],
                     answers := [Answer(0, Spell(ONE, For(0))), Answer(1, Spell(TWO, For(0)))],
                     conns := [Link(true, [Task(LATER, For(1))], []), NEW])
  }

  /** Four steps more. */
  lemma Four(s0: State, before: seq<Label>, ls: seq<Label>, a: State, b: State, c: State, d: State, e: State)
    requires |ls| == 4 && Exec(s0, before) == Some(a)
    requires Next(a, ls[0]) == Some(b) && Next(b, ls[1]) == Some(c)
    requires Next(c, ls[2]) == Some(d) && Next(d, ls[3]) == Some(e)
    ensures Exec(s0, before + ls) == Some(e)
  {
    hide Exec, Next;
    assert before + ls[..1] == before + [ls[0]];
    assert before + ls[..2] == before + ls[..1] + [ls[1]];
    assert before + ls[..3] == before + ls[..2] + [ls[2]];
    assert before + ls == before + ls[..3] + [ls[3]];
    OneStep(s0, before, a, ls[0], before + ls[..1], b);
    OneStep(s0, before + ls[..1], b, ls[1], before + ls[..2], c);
    OneStep(s0, before + ls[..2], c, ls[2], before + ls[..3], d);
    OneStep(s0, before + ls[..3], d, ls[3], before + ls, e);
  }

  lemma FirstServed(atoi: string -> int)
    ensures Next(Connected(atoi), Command(0, TWO_ALIKE)) == Some(Asking(atoi))
    ensures Next(Asking(atoi), Seek(0)) == Some(Asked(atoi))
    ensures Next(Asked(atoi), Handle(0, Handled(ONE))) == Some(Replied(atoi))
    ensures Next(Replied(atoi), Finish(0, 8)) == Some(Served(atoi))
  {
    hide Next, ServerFor, CommandsIn, Spell, Text, Multi, ArgCount;
    Alike();
    SixLetters();
    Commands2(Connected(atoi), TWO_ALIKE, Asking(atoi));
    var tasks := [Task("M-SUMY /a x", For(0)), Task("M-SUMY /a y", For(0))];
    assert Tasks(CommandsIn(TWO_ALIKE), For(0)) == tasks && [] + tasks == tasks;
    assert Asking(atoi).conns[0 := NEW.(queue := tasks)] == Asked(atoi).conns;
    Takes(Asking(atoi), TWO_ALIKE, Asked(atoi));
    assert [] + [ONE] == [ONE] && [[]][0 := [ONE]] == [[ONE]];
    Handles(Asked(atoi), tasks, ONE, Replied(atoi));
    Finishes(Replied(atoi), TWO_ALIKE, 0, ONE, Served(atoi));
  }

  lemma NextServed(atoi: string -> int)
    ensures Next(Served(atoi), Command(0, LATER)) == Some(Asking2(atoi))
    ensures Next(Asking2(atoi), Seek(0)) == Some(Asked2(atoi))
    ensures Next(Asked2(atoi), Handle(0, Handled(TWO))) == Some(Replied2(atoi))
    ensures Next(Replied2(atoi), Finish(0, 8)) == Some(Served2(atoi))
  {
    hide Next, ServerFor, CommandsIn, Spell, Text, Multi, ArgCount;
    Alike();
    SixLetters();
    Commands2(Served(atoi), LATER, Asking2(atoi));
    var task, tasks := [Task("M-SUMY /a y", For(0))], [Task("M-SUMY /a y", For(0)), Task(LATER, For(1))];
    assert Tasks(CommandsIn(LATER), For(1)) == [Task(LATER, For(1))] && task + [Task(LATER, For(1))] == tasks;
    assert Asking2(atoi).conns[0 := NEW.(queue := tasks)] == Asked2(atoi).conns;
    Takes(Asking2(atoi), LATER, Asked2(atoi));
    assert [ONE] + [TWO] == [ONE, TWO] && [[ONE], []][0 := [ONE, TWO]] == [[ONE, TWO], []];
    Handles(Asked2(atoi), tasks, TWO, Replied2(atoi));
    Finishes(Replied2(atoi), LATER, 1, TWO, Served2(atoi));
  }

  lemma Commands2(t: State, line: string, u: State)
    requires t.workers == [Reading] && ServerFor(t.prefixes, line) == Some(0)
    requires u == t.(workers := [Seeking(line, 0, 0)])
    ensures Next(t, Command(0, line)) == Some(u)
  {
    hide ServerFor;
    assert t.workers[0 := Seeking(line, 0, 0)] == u.workers;
  }

  lemma Handles(t: State, tasks: seq<Task>, text: string, u: State)
    requires |tasks| > 0 && t.conns == [Link(true, tasks, []), NEW] && ArgCount(tasks[0].command) >= 2
    requires u.conns == [Link(true, tasks[1..], Spell(text, tasks[0].of)), NEW]
    requires u == t.(conns := u.conns, said := u.said) && u.said == Log(t.said, tasks[0].of, text)
    ensures Next(t, Handle(0, Handled(text))) == Some(u)
  {
    hide ArgCount, Spell, SameText;
    NotQuit(tasks[0].command);
    assert [] + Spell(text, tasks[0].of) == Spell(text, tasks[0].of);
    assert t.conns[0 := Link(true, tasks[1..], Spell(text, tasks[0].of))] == u.conns;
  }

  lemma Finishes(t: State, line: string, n: nat, text: string, u: State)
    requires t.workers == [Using(line, 0, n)] && t.lists == [[], [1]] && t.psvr == [0, 1]
    requires |t.conns| == 2 && t.conns[0].up && t.conns[0].inbox == Spell(text, For(0)) && |text| == 8
    requires Multi(CText(line)) == Some(false) && LineReader.EndsLine(text)
    requires u.workers == [Reading] && u.lists == [[0], [1]]
             && u.answers == t.answers + [Answer(n, Spell(text, For(0)))]
    requires u.conns == [Link(true, t.conns[0].queue, []), t.conns[1]]
    requires u == t.(workers := u.workers, lists := u.lists, answers := u.answers, conns := u.conns)
    ensures Next(t, Finish(0, 8)) == Some(u)
  {
    hide Multi;
    var ls := Spell(text, For(0));
    assert ls[..8] == ls && ls[8..] == [];
    TextOf(text, For(0));
    assert t.conns[0 := Link(true, t.conns[0].queue, [])] == u.conns;
    assert t.lists[0] + [0] == [0] && t.lists[0 := [0]] == u.lists && t.workers[0 := Reading] == u.workers;
  }

  lemma SixLetters()
    ensures |ONE| == 8 && |TWO| == 8 && LineReader.EndsLine(ONE) && LineReader.EndsLine(TWO)
  {
  }

  lemma Alike()
    ensures ServerFor(SERVERS, TWO_ALIKE) == Some(0) && ServerFor(SERVERS, LATER) == Some(0)
    ensures CommandsIn(TWO_ALIKE) == ["M-SUMY /a x", "M-SUMY /a y"] && CommandsIn(LATER) == [LATER]
    ensures Multi(CText(TWO_ALIKE)) == Some(false) && Multi(CText(LATER)) == Some(false)
    ensures ArgCount("M-SUMY /a x") >= 2 && ArgCount("M-SUMY /a y") >= 2
    ensures Agrees(SERVERS, TWO_ALIKE)
  {
    hide Lines, ServerFor, Multi, ArgCount, CText;
    WholeText(TWO_ALIKE);
    FirstLine("M-SUMY /a x", "M-SUMY /a y" + CRLF);
    OneLineExactlyWhenPlain("M-SUMY /a y");
    assert TWO_ALIKE + CRLF == "M-SUMY /a x" + CRLF + ("M-SUMY /a y" + CRLF);
    WholeText(LATER);
    OneLineExactlyWhenPlain(LATER);
    ForA(" x" + CRLF + "M-SUMY /a y");
    ForA(" x");
    ForA(" y");
    ForA(" z");
    assert TWO_ALIKE == "M-SUMY /a" + (" x" + CRLF + "M-SUMY /a y") && LATER == "M-SUMY /a" + " z";
    assert "M-SUMY /a x" == "M-SUMY /a" + " x" && "M-SUMY /a y" == "M-SUMY /a" + " y";
    ThreeWords('x');
    ThreeWords('y');
    assert "M-SUMY /a " + ['x'] == "M-SUMY /a x" && "M-SUMY /a " + ['y'] == "M-SUMY /a y";
  }

  lemma ForA(rest: string)
    requires rest != "" && rest[0] == ' ' && '\0' !in rest
    ensures ServerFor(SERVERS, "M-SUMY /a" + rest) == Some(0) && Multi(CText("M-SUMY /a" + rest)) == Some(false)
  {
    hide Multi, PathOf, CText;
    var line := "M-SUMY /a" + rest;
    WholeText(line);
    assert line == "M-SUMY " + "/a" + rest;
    PathIsTheWord("M-SUMY ", "/a", rest);
    Summary(line);
    assert "/a"[..2] == "/a";
  }

  lemma ThreeWords(c: char)
    requires c != ' ' && c != '{'
    ensures ArgCount("M-SUMY /a " + [c]) >= 2
  {
    var t := "M-SUMY /a " + [c];
    WordThenSpace(t, 0, 6, false);
    WordThenSpace(t, 7, 9, false);
  }

  lemma {:induction false} WordThenSpace(t: string, i: nat, j: nat, inWord: bool)
    requires i <= j < |t| && t[j] == ' ' && (i < j || inWord)
    requires forall k :: i <= k < j ==> t[k] != ' ' && t[k] != '{'
    ensures Words(t[i..], inWord) == 1 + Words(t[j + 1..], false)
    decreases j - i
  {
    assert t[i..][1..] == t[i + 1..];
    if i < j { WordThenSpace(t, i + 1, j, true); }
  }
}
