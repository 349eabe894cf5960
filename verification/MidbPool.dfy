/** The mail-index broker: commands go to the server whose prefix fits the mailbox
    path, over connections that the servers' pools lend to the workers. */
module MidbPool {
  import opened Options
  import opened Texts
  import opened LineReader
  import opened Pools
  import Relay

  const TIMEOUT: nat := 60

  /** What a command that midb receives was written for: the n-th line ever sent, or a PING. */
  datatype Tag = For(n: nat) | Ping(k: nat)

  datatype Task = Task(command: string, of: Tag)

  /** A byte of a reply, and what the reply was made to. */
  datatype Letter = Letter(c: char, of: Tag)

  /** A connection and the midb behind it: whether midb is there, the commands it has not
      handled yet, and the bytes it has written that nobody has read yet. */
  datatype Link = Link(up: bool, queue: seq<Task>, inbox: seq<Letter>)

  const CLOSED := Link(false, [], [])
  const NEW := Link(true, [], [])

  /** Reading a command; waiting for a connection of a server; using one for the n-th line. */
  datatype Worker = Reading | Seeking(line: string, server: nat, tries: nat) | Using(line: string, conn: Conn, n: nat)

  datatype Scan = Pinging | Awaiting(conn: Conn, k: nat) | Reconnecting

  /** What the client of the n-th line got. */
  datatype Answer = Answer(n: nat, got: seq<Letter>)

  /** Each server has a prefix and a list of idle connections; psvr says which server a
      connection belongs to. sent records every line and the connection it went to, said
      what midb has replied to each line, answers what the clients got. */
  datatype State = State(atoi: string -> int, prefixes: seq<string>, psvr: seq<nat>, lists: seq<seq<Conn>>,
                         lost: seq<Conn>, temp: seq<Conn>, scan: Scan, pings: nat, workers: seq<Worker>,
                         conns: seq<Link>, sent: seq<(string, Conn)>, said: seq<seq<string>>, answers: seq<Answer>)

  /** What midb does with a command: its handler writes some text, or it cannot find the
      mailbox, or it does not know the command. */
  datatype Outcome = Handled(text: string) | NoEnvironment | Unknown

  datatype Label =
    | Command(w: nat, line: string)
    | Seek(w: nat)                   // one look at the server's list, a second after the last
    | Finish(w: nat, used: nat)      // transfer_response succeeds on so many bytes
    | FinishFails(w: nat)
    | Rotate(idle: set<Conn>)
    | SendPing
    | Pong(used: nat)                // one read of the reply to PING
    | PingFails
    | Collect
    | Reconnect(ok: bool)
    | Handle(c: Conn, how: Outcome)  // midb handles a command
    | HangUp(c: Conn)                // midb closes the connection

  /** main: all connections start out lost. */
  function Init(atoi: string -> int, prefixes: seq<string>, psvr: seq<nat>, workers: nat): State {
    State(atoi, prefixes, psvr, seq(|prefixes|, i => []), seq(|psvr|, c => c), [], Reconnecting, 0,
          seq(workers, i => Reading), seq(|psvr|, c => CLOSED), [], [], [])
  }

  // ----- from a command line to a server -----

  const ONE_LINE: seq<string> := [
    "M-QUTA ", "M-SUMY ", "M-FREE ", "M-MTCH ", "M-INST ", "M-DELE ", "M-MOVE ", "M-COPY ", "M-UPDT ", "M-MAKF ",
    "M-REMF ", "M-RENF ", "M-PING ", "M-CKFL ", "P-OFST ", "P-UNID ", "P-FDDT ", "P-SUBF ", "P-UNSF ", "P-SFLG ",
    "P-RFLG ", "P-GFLG "
  ]

  const MANY_LINES: seq<string> := [
    "M-LIST ", "M-UIDL ", "M-INFO ", "M-ENUM ", "P-SUBL ", "P-SIML ", "P-DELL ", "P-SIMU ", "P-DTLU "
  ]

  predicate IsOneOf(t: string, words: seq<string>) {
    |t| >= 7 && exists i :: 0 <= i < |words| && SameText(t[..7], words[i])
  }

  /** Whether a command is answered by many lines; None for an unknown command. */
  function Multi(t: string): Option<bool> {
    if IsOneOf(t, ONE_LINE) then Some(false) else if IsOneOf(t, MANY_LINES) then Some(true) else None
  }

  function UpToSpace(t: string): string {
    if t == "" || t[0] == ' ' then "" else [t[0]] + UpToSpace(t[1..])
  }

  function TrimLeft(t: string): string {
    if t != "" && (t[0] == ' ' || t[0] == '\t') then TrimLeft(t[1..]) else t
  }

  function TrimRight(t: string): string {
    if t != "" && (t[|t| - 1] == ' ' || t[|t| - 1] == '\t') then TrimRight(t[..|t| - 1]) else t
  }

  /** parse_prefix: the word behind the command, trimmed, unless it is too long. */
  function PathOf(t: string): Option<string>
    requires |t| >= 7
  {
    var word := UpToSpace(t[7..]);
    if |word| > 255 then None else Some(TrimRight(TrimLeft(word)))
  }

  /** get_connection's search: the first server, from k on, whose prefix starts the path. */
  function FirstServer(prefixes: seq<string>, path: string, k: nat): (r: Option<nat>)
    requires k <= |prefixes|
    ensures r.Some? ==> k <= r.value < |prefixes| && Starts(path, prefixes[r.value])
                        && forall j :: k <= j < r.value ==> !Starts(path, prefixes[j])
    ensures r.None? ==> forall j :: k <= j < |prefixes| ==> !Starts(path, prefixes[j])
    decreases |prefixes| - k
  {
    if k == |prefixes| then None
    else if Starts(path, prefixes[k]) then Some(k)
    else FirstServer(prefixes, path, k + 1)
  }

  /** A known command for a server of ours. */
  function ServerFor(prefixes: seq<string>, line: string): Option<nat> {
    var t := CText(line);
    if Multi(t).None? then None
    else
      var path :- PathOf(t);
      FirstServer(prefixes, path, 0)
  }

  /** The path is the word behind the command, whatever follows it. */
  lemma PathIsTheWord(command: string, path: string, rest: string)
    requires |command| == 7 && ' ' !in path && '\t' !in path && (rest == "" || rest[0] == ' ')
    ensures PathOf(command + path + rest) == if |path| > 255 then None else Some(path)
  {
    assert (command + path + rest)[7..] == path + rest;
    WordEnds(path, rest);
  }

  lemma {:induction false} WordEnds(path: string, rest: string)
    requires ' ' !in path && (rest == "" || rest[0] == ' ')
    ensures UpToSpace(path + rest) == path
  {
    if path != "" {
      assert (path + rest)[1..] == path[1..] + rest;
      WordEnds(path[1..], rest);
    } else {
      assert path + rest == rest;
    }
  }

  /** The commands that midb finds in what it is sent for a line. */
  function CommandsIn(line: string): seq<string> { Lines(CText(line) + CRLF) }

  // ----- steps -----

  function Next(s: State, l: Label): Option<State> {
    match l
    case Command(w, line) => NextCommand(s, w, line)
    case Seek(w) => NextSeek(s, w)
    case Finish(w, used) => NextFinish(s, w, used)
    case FinishFails(w) =>
      if w >= |s.workers| || !s.workers[w].Using? then None
      else Some(Give(s, s.workers[w].conn, false, CLOSED).(workers := s.workers[w := Reading]))
    case Rotate(idle) =>
      if !s.scan.Reconnecting? || s.temp != [] then None
      else Some(s.(lists := KeepEach(s.lists, idle), temp := PickEach(s.lists, idle), scan := Pinging))
    case SendPing =>
      if !s.scan.Pinging? || s.temp == [] then None
      else
        var c := s.temp[0];
        Some(s.(temp := s.temp[1..], scan := Awaiting(c, s.pings), pings := s.pings + 1,
                conns := Write(s, c, [Task("PING", Ping(s.pings))])))
    case Pong(used) => NextPong(s, used)
    case PingFails =>
      if !s.scan.Awaiting? then None else Some(Give(s, s.scan.conn, false, CLOSED).(scan := Pinging))
    case Collect =>
      if !s.scan.Pinging? || s.temp != [] then None else Some(s.(temp := s.lost, lost := [], scan := Reconnecting))
    case Reconnect(ok) =>
      if !s.scan.Reconnecting? || s.temp == [] then None
      else Some(Give(s, s.temp[0], ok, NEW).(temp := s.temp[1..]))
    case Handle(c, how) => NextHandle(s, c, how)
    case HangUp(c) =>
      if !Get(s, c).up then None else Some(s.(conns := Put(s, c, Get(s, c).(up := false, queue := []))))
  }

  /** An unknown command, a path too long or one without a server leaves the pools alone. */
  function NextCommand(s: State, w: nat, line: string): Option<State> {
    if w >= |s.workers| || !s.workers[w].Reading? then None
    else
      match ServerFor(s.prefixes, line)
      case None => Some(s)
      case Some(i) => Some(s.(workers := s.workers[w := Seeking(line, i, 0)]))
  }

  /** Takes the head of the list and sends the line; gives up after sixty empty seconds. */
  function NextSeek(s: State, w: nat): Option<State> {
    if w >= |s.workers| || !s.workers[w].Seeking? || s.workers[w].server >= |s.lists| then None
    else
      var i, line, tries := s.workers[w].server, s.workers[w].line, s.workers[w].tries;
      if s.lists[i] != [] then Some(Send(s, w))
      else if tries >= TIMEOUT then Some(s.(workers := s.workers[w := Reading]))
      else Some(s.(workers := s.workers[w := Seeking(line, i, tries + 1)]))
  }

  /** Worker w takes the first connection of its server and writes its line. */
  predicate CanSend(s: State, w: nat) {
    && w < |s.workers| && s.workers[w].Seeking? && s.workers[w].server < |s.lists|
    && s.lists[s.workers[w].server] != []
  }

  function Send(s: State, w: nat): State
    requires CanSend(s, w)
  {
    var i, line, n := s.workers[w].server, s.workers[w].line, |s.sent|;
    var c := s.lists[i][0];
    s.(lists := s.lists[i := s.lists[i][1..]], workers := s.workers[w := Using(line, c, n)],
       conns := Write(s, c, Tasks(CommandsIn(line), For(n))), sent := s.sent + [(line, c)], said := s.said + [[]])
  }

  // ----- connections -----

  function Get(s: State, c: Conn): Link { if c < |s.conns| then s.conns[c] else CLOSED }

  function Put(s: State, c: Conn, b: Link): seq<Link> { if c < |s.conns| then s.conns[c := b] else s.conns }

  function Tasks(commands: seq<string>, of: Tag): seq<Task> {
    seq(|commands|, i requires 0 <= i < |commands| => Task(commands[i], of))
  }

  function Write(s: State, c: Conn, tasks: seq<Task>): seq<Link> {
    var b := Get(s, c);
    if b.up then Put(s, c, b.(queue := b.queue + tasks)) else s.conns
  }

  function Text(ls: seq<Letter>): string { seq(|ls|, i requires 0 <= i < |ls| => ls[i].c) }

  function Spell(text: string, of: Tag): seq<Letter> {
    seq(|text|, i requires 0 <= i < |text| => Letter(text[i], of))
  }

  // ----- reads -----

  /** The transfer stops where the bytes so far make a reply; the client gets just those. */
  function NextFinish(s: State, w: nat, used: nat): Option<State> {
    if w >= |s.workers| || !s.workers[w].Using? then None
    else
      var line, c, n := s.workers[w].line, s.workers[w].conn, s.workers[w].n;
      var b := Get(s, c);
      if !(used <= |b.inbox| && Relay.Judge(ManyLines(line), s.atoi, Text(b.inbox[..used])) == Relay.Done) then None
      else
        Some(Give(s, c, true, b.(inbox := b.inbox[used..])).(workers := s.workers[w := Reading],
                                                           answers := s.answers + [Answer(n, b.inbox[..used])]))
  }

  function NextPong(s: State, used: nat): Option<State> {
    if !s.scan.Awaiting? then None
    else
      var c := s.scan.conn;
      var b := Get(s, c);
      if !(0 < used <= |b.inbox| && used <= 1024) then None
      else Some(Give(s, c, true, b.(inbox := b.inbox[used..])).(scan := Pinging))
  }

  predicate ManyLines(line: string) { Multi(CText(line)) == Some(true) }

  /** To the list of its own server, or closed to lost_list. */
  function Give(s: State, c: Conn, ok: bool, b: Link): State {
    var t := s.(conns := Put(s, c, if ok then b else CLOSED));
    if ok && c < |s.psvr| && s.psvr[c] < |s.lists| then
      var i := s.psvr[c];
      t.(lists := s.lists[i := s.lists[i] + [c]])
    else t.(lost := s.lost + [c])
  }

  // ----- midb -----

  /** midb's thread takes the first command it has been sent and writes a reply. */
  function NextHandle(s: State, c: Conn, how: Outcome): Option<State> {
    var b := Get(s, c);
    if !b.up || b.queue == [] then None
    else
      var task := b.queue[0];
      var quits, reply := SameText(task.command, "QUIT"), Reply(task.command, how);
      Some(s.(conns := Put(s, c, Link(!quits, if quits then [] else b.queue[1..], b.inbox + Spell(reply, task.of))),
              said := Log(s.said, task.of, reply)))
  }

  function Log(said: seq<seq<string>>, of: Tag, reply: string): seq<seq<string>> {
    if of.For? && of.n < |said| then said[of.n := said[of.n] + [reply]] else said
  }

  /** A command without arguments is refused. A missing mailbox is reported twice: the search
      goes on behind the command's entry and ends as for an unknown command. */
  function Reply(command: string, how: Outcome): string {
    if SameText(command, "QUIT") then "BYE" + CRLF
    else if ArgCount(command) < 2 then "FALSE 1" + CRLF
    else
      match how
      case Handled(text) => text
      case NoEnvironment => "FALSE 0" + CRLF + "FALSE 0" + CRLF
      case Unknown => "FALSE 0" + CRLF
  }

  /** Words between spaces, up to a brace, which must be closed at the end. */
  function ArgCount(t: string): nat {
    if '{' in t && t[|t| - 1] != '}' then 0 else Words(t, false)
  }

  function Words(t: string, inWord: bool): nat {
    if t == "" then (if inWord then 1 else 0)
    else if t[0] == '{' then 1
    else if t[0] == ' ' then (if inWord then 1 else 0) + Words(t[1..], false)
    else Words(t[1..], true)
  }

  /** The scanner's rotation, list by list. */
  function KeepEach(ls: seq<seq<Conn>>, idle: set<Conn>): (r: seq<seq<Conn>>)
    ensures |r| == |ls| && forall i :: 0 <= i < |ls| ==> r[i] == Keep(ls[i], idle)
  {
    if ls == [] then [] else [Keep(ls[0], idle)] + KeepEach(ls[1..], idle)
  }

  function PickEach(ls: seq<seq<Conn>>, idle: set<Conn>): seq<Conn> {
    if ls == [] then [] else Pick(ls[0], idle) + PickEach(ls[1..], idle)
  }

  function Exec(s: State, run: seq<Label>): Option<State>
    decreases |run|
  {
    if run == [] then Some(s)
    else
      var t :- Exec(s, run[..|run| - 1]);
      Next(t, run[|run| - 1])
  }

  /** The search loop of get_connection. */
  method FindServer(prefixes: seq<string>, path: string) returns (r: Option<nat>)
    ensures r == FirstServer(prefixes, path, 0)
  {
    var k := 0;
    while k < |prefixes|
      invariant k <= |prefixes| && FirstServer(prefixes, path, k) == FirstServer(prefixes, path, 0)
    {
      if Starts(path, prefixes[k]) { return Some(k); }
      k := k + 1;
    }
    return None;
  }

  // ----- routing -----

  /** Connection c belongs to the first server whose prefix starts the command's path. */
  predicate RightServer(s: State, line: string, c: Conn) {
    c < |s.psvr| && ServerFor(s.prefixes, line) == Some(s.psvr[c])
  }

  /** Every list holds its own server's connections. */
  predicate ListsRight(s: State) {
    && |s.lists| == |s.prefixes|
    && forall i, k :: 0 <= i < |s.lists| && 0 <= k < |s.lists[i]| ==>
                        s.lists[i][k] < |s.psvr| && s.psvr[s.lists[i][k]] == i
  }

  /** Every command that is being answered is on a connection of the right server. */
  predicate WorkersRight(s: State) {
    forall w :: 0 <= w < |s.workers| ==> WorkerRight(s, s.workers[w])
  }

  predicate WorkerRight(s: State, x: Worker) {
    match x
    case Reading => true
    case Seeking(line, i, _) => ServerFor(s.prefixes, line) == Some(i)
    case Using(line, c, n) => RightServer(s, line, c) && n < |s.sent| && s.sent[n] == (line, c)
  }

  /** So was every command ever sent. */
  predicate SentRight(s: State) { forall k :: 0 <= k < |s.sent| ==> RightServer(s, s.sent[k].0, s.sent[k].1) }

  predicate Routed(s: State) { ListsRight(s) && WorkersRight(s) && SentRight(s) }

  lemma StepKeepsRouted(s: State, l: Label)
    requires Routed(s) && Next(s, l).Some?
    ensures Routed(Next(s, l).value)
  {
    hide Next;
    StepKeepsLists(s, l);
    StepKeepsUse(s, l);
  }

  lemma StepKeepsLists(s: State, l: Label)
    requires ListsRight(s) && Next(s, l).Some?
    ensures ListsRight(Next(s, l).value)
  {
    hide ServerFor, PickEach, Keep, Relay.Judge, Reply, Log, CommandsIn, Write, Put, Get, Text, ManyLines;
    if l.Rotate? { KeptMembers(s.lists, l.idle); }
  }

  lemma StepKeepsUse(s: State, l: Label)
    requires Routed(s) && Next(s, l).Some?
    ensures WorkersRight(Next(s, l).value) && SentRight(Next(s, l).value)
  {
    hide Next, Routed;
    if l.Seek? && CanSend(s, l.w) { SendIsRight(s, l.w); } else { UseStays(s, l); }
  }

  lemma SendIsRight(s: State, w: nat)
    requires Routed(s) && CanSend(s, w)
    ensures Next(s, Seek(w)) == Some(Send(s, w))
    ensures WorkersRight(Send(s, w)) && SentRight(Send(s, w))
  {
    hide ServerFor, CommandsIn;
    assert s.lists[s.workers[w].server][0] < |s.psvr|;
  }

  lemma UseStays(s: State, l: Label)
    requires Routed(s) && Next(s, l).Some? && !(l.Seek? && CanSend(s, l.w))
    ensures WorkersRight(Next(s, l).value) && SentRight(Next(s, l).value)
  {
    hide ServerFor, KeepEach, PickEach, Give, Relay.Judge, Reply, Log, CommandsIn, Write, Put, Get, Text, ManyLines;
    match l
    case Finish(w, used) =>
      var b := Get(s, s.workers[w].conn);
      GiveKeeps(s, s.workers[w].conn, true, b.(inbox := b.inbox[used..]));
    case FinishFails(w) => GiveKeeps(s, s.workers[w].conn, false, CLOSED);
    case Pong(used) =>
      var b := Get(s, s.scan.conn);
      GiveKeeps(s, s.scan.conn, true, b.(inbox := b.inbox[used..]));
    case PingFails => GiveKeeps(s, s.scan.conn, false, CLOSED);
    case Reconnect(ok) => GiveKeeps(s, s.temp[0], ok, NEW);
    case _ =>
  }

  lemma KeptMembers(ls: seq<seq<Conn>>, idle: set<Conn>)
    ensures forall i, k :: 0 <= i < |ls| && 0 <= k < |KeepEach(ls, idle)[i]| ==> KeepEach(ls, idle)[i][k] in ls[i]
  {
    forall i | 0 <= i < |ls|
      ensures forall k :: 0 <= k < |KeepEach(ls, idle)[i]| ==> KeepEach(ls, idle)[i][k] in ls[i]
    {
      Among(ls[i], idle);
    }
  }

  // ----- conservation -----

  function InLists(ls: seq<seq<Conn>>, c: Conn): nat {
    if ls == [] then 0 else Times(ls[0], c) + InLists(ls[1..], c)
  }

  function Held(ws: seq<Worker>, c: Conn): nat {
    if ws == [] then 0 else Has(ws[0], c) + Held(ws[1..], c)
  }

  function Has(x: Worker, c: Conn): nat { if x.Using? && x.conn == c then 1 else 0 }

  /** The number of places a connection is in. */
  function Places(s: State, c: Conn): nat {
    InLists(s.lists, c) + Times(s.lost, c) + Times(s.temp, c) + (if s.scan.Awaiting? && s.scan.conn == c then 1 else 0)
    + Held(s.workers, c)
  }

  /** Each connection is in exactly one place: its server's list, lost_list, the
      scanner's hands or one worker's. */
  ghost predicate Conserved(s: State) { forall c: Conn :: Places(s, c) == if c < |s.psvr| then 1 else 0 }

  lemma {:induction false} OneList(ls: seq<seq<Conn>>, i: nat, x: seq<Conn>, c: Conn)
    requires i < |ls|
    ensures InLists(ls[i := x], c) + Times(ls[i], c) == InLists(ls, c) + Times(x, c)
  {
    hide Times;
    if i == 0 {
      assert ls[0 := x][1..] == ls[1..];
    } else {
      assert ls[i := x][1..] == ls[1..][i - 1 := x];
      OneList(ls[1..], i - 1, x, c);
    }
  }

  lemma {:induction false} OneWorker(ws: seq<Worker>, w: nat, x: Worker, c: Conn)
    requires w < |ws|
    ensures Held(ws[w := x], c) + Has(ws[w], c) == Held(ws, c) + Has(x, c)
  {
    if w == 0 {
      assert ws[0 := x][1..] == ws[1..];
    } else {
      assert ws[w := x][1..] == ws[1..][w - 1 := x];
      OneWorker(ws[1..], w - 1, x, c);
    }
  }

  lemma Given(s: State, x: Conn, ok: bool, b: Link, c: Conn)
    ensures Places(Give(s, x, ok, b), c) == Places(s, c) + if x == c then 1 else 0
  {
    hide Times, InLists, Held;
    LastIn(s.lost, x, c);
    if x < |s.psvr| && s.psvr[x] < |s.lists| {
      var i := s.psvr[x];
      LastIn(s.lists[i], x, c);
      OneList(s.lists, i, s.lists[i] + [x], c);
    }
  }

  lemma {:induction false} Rotated(ls: seq<seq<Conn>>, idle: set<Conn>, c: Conn)
    ensures InLists(KeepEach(ls, idle), c) + Times(PickEach(ls, idle), c) == InLists(ls, c)
  {
    hide Times, Pick, Keep;
    if ls != [] {
      Shared(ls[0], idle, c);
      Rotated(ls[1..], idle, c);
      Appended(Pick(ls[0], idle), PickEach(ls[1..], idle), c);
    } else {
      NoTimes(c);
    }
  }

  lemma Appended(a: seq<Conn>, b: seq<Conn>, c: Conn)
    ensures Times(a + b, c) == Times(a, c) + Times(b, c)
  {
  }

  lemma StepKeepsPlaces(s: State, l: Label, c: Conn)
    requires Next(s, l).Some?
    ensures Places(Next(s, l).value, c) == Places(s, c)
  {
    hide Times, InLists, Held, ServerFor, KeepEach, PickEach, Give;
    var t := Next(s, l).value;
    match l
    case Command(w, line) =>
      OneWorker(s.workers, w, t.workers[w], c);
    case Seek(w) =>
      var i := s.workers[w].server;
      OneWorker(s.workers, w, t.workers[w], c);
      if s.lists[i] != [] {
        FirstOut(s.lists[i], c);
        OneList(s.lists, i, s.lists[i][1..], c);
      }
    case Finish(w, used) =>
      var b := Get(s, s.workers[w].conn);
      GaveBack(s, w, true, b.(inbox := b.inbox[used..]), t.answers, c);
    case FinishFails(w) => GaveBack(s, w, false, CLOSED, s.answers, c);
    case Rotate(idle) => Rotated(s.lists, idle, c); NoTimes(c);
    case SendPing => FirstOut(s.temp, c);
    case Pong(used) =>
      var b := Get(s, s.scan.conn);
      PongGave(s, true, b.(inbox := b.inbox[used..]), c);
    case PingFails => PongGave(s, false, CLOSED, c);
    case Collect => NoTimes(c);
    case Reconnect(ok) => Given(s, s.temp[0], ok, NEW, c); GiveKeeps(s, s.temp[0], ok, NEW); FirstOut(s.temp, c);
    case _ =>
  }

  lemma GaveBack(s: State, w: nat, ok: bool, b: Link, answers: seq<Answer>, c: Conn)
    requires w < |s.workers| && s.workers[w].Using?
    ensures var t := Give(s, s.workers[w].conn, ok, b).(workers := s.workers[w := Reading], answers := answers);
            Places(t, c) == Places(s, c)
  {
    hide Times, InLists, Held, Give;
    Given(s, s.workers[w].conn, ok, b, c);
    GiveKeeps(s, s.workers[w].conn, ok, b);
    OneWorker(s.workers, w, Reading, c);
  }

  lemma PongGave(s: State, ok: bool, b: Link, c: Conn)
    requires s.scan.Awaiting?
    ensures Places(Give(s, s.scan.conn, ok, b).(scan := Pinging), c) == Places(s, c)
  {
    hide Times, InLists, Held, Give;
    Given(s, s.scan.conn, ok, b, c);
    GiveKeeps(s, s.scan.conn, ok, b);
  }

  lemma GiveKeeps(s: State, x: Conn, ok: bool, b: Link)
    ensures var t := Give(s, x, ok, b);
            t == s.(conns := Put(s, x, if ok then b else CLOSED), lists := t.lists, lost := t.lost)
  {
  }

  // ----- every run -----

  lemma {:induction false} EveryRunRoutes(atoi: string -> int, prefixes: seq<string>, psvr: seq<nat>, workers: nat,
                                          run: seq<Label>)
    requires forall c :: 0 <= c < |psvr| ==> psvr[c] < |prefixes|
    requires Exec(Init(atoi, prefixes, psvr, workers), run).Some?
    ensures var s := Exec(Init(atoi, prefixes, psvr, workers), run).value;
            Routed(s) && Conserved(s) && s.prefixes == prefixes && s.psvr == psvr
    decreases |run|
  {
    hide Next, Routed, Places;
    var s0 := Init(atoi, prefixes, psvr, workers);
    if run == [] {
      InitRouted(atoi, prefixes, psvr, workers);
    } else {
      var k := |run| - 1;
      EveryRunRoutes(atoi, prefixes, psvr, workers, run[..k]);
      var s := Exec(s0, run[..k]).value;
      StepKeepsRouted(s, run[k]);
      SameConfig(s, run[k]);
      forall c: Conn ensures Places(Next(s, run[k]).value, c) == Places(s, c) { StepKeepsPlaces(s, run[k], c); }
    }
  }

  /** In every run each line went to a connection of the first server, in list order, whose
      prefix starts the mailbox path that the broker finds in the line. */
  lemma EveryLineGoesToTheFirstMatch(atoi: string -> int, prefixes: seq<string>, psvr: seq<nat>, workers: nat,
                                     run: seq<Label>, k: nat)
    requires forall c :: 0 <= c < |psvr| ==> psvr[c] < |prefixes|
    requires Exec(Init(atoi, prefixes, psvr, workers), run).Some?
    requires k < |Exec(Init(atoi, prefixes, psvr, workers), run).value.sent|
    ensures var (line, c) := Exec(Init(atoi, prefixes, psvr, workers), run).value.sent[k];
            var t := CText(line);
            && Multi(t).Some? && c < |psvr| && psvr[c] < |prefixes| && PathOf(t).Some?
            && Starts(PathOf(t).value, prefixes[psvr[c]])
            && forall j :: 0 <= j < psvr[c] ==> !Starts(PathOf(t).value, prefixes[j])
  {
    hide Exec, Init, Multi, PathOf, CText, Starts, IsOneOf;
    EveryRunRoutes(atoi, prefixes, psvr, workers, run);
    var s := Exec(Init(atoi, prefixes, psvr, workers), run).value;
    assert RightServer(s, s.sent[k].0, s.sent[k].1);
  }

  // ----- several commands in one line -----

  /** Each command in a line that names one of our servers names the line's server. */
  predicate Agrees(prefixes: seq<string>, line: string) {
    forall m :: 0 <= m < |CommandsIn(line)| ==>
      ServerFor(prefixes, CommandsIn(line)[m]).Some? ==>
          ServerFor(prefixes, CommandsIn(line)[m]) == ServerFor(prefixes, line)
  }

  /** Every command that has reached a server and names one of ours has reached that one. */
  predicate CommandsRight(s: State) {
    forall k, m :: 0 <= k < |s.sent| && 0 <= m < |CommandsIn(s.sent[k].0)| ==>
      ServerFor(s.prefixes, CommandsIn(s.sent[k].0)[m]).Some? ==>
          RightServer(s, CommandsIn(s.sent[k].0)[m], s.sent[k].1)
  }

  /** In every run: every command reaches the server it names exactly when the commands in
      each line agree on the server. */
  lemma CommandsAreRightExactlyWhenLinesAgree(atoi: string -> int, prefixes: seq<string>, psvr: seq<nat>, workers: nat,
                                              run: seq<Label>)
    requires forall c :: 0 <= c < |psvr| ==> psvr[c] < |prefixes|
    requires Exec(Init(atoi, prefixes, psvr, workers), run).Some?
    ensures var s := Exec(Init(atoi, prefixes, psvr, workers), run).value;
            CommandsRight(s) <==> forall k :: 0 <= k < |s.sent| ==> Agrees(prefixes, s.sent[k].0)
  {
    hide Exec, Init, ServerFor, CommandsIn;
    EveryRunRoutes(atoi, prefixes, psvr, workers, run);
    var s := Exec(Init(atoi, prefixes, psvr, workers), run).value;
    forall k | 0 <= k < |s.sent| ensures RightServer(s, s.sent[k].0, s.sent[k].1) {}
  }

  /** A line without a CRLF inside is one command and agrees with itself. */
  lemma PlainLinesAgree(prefixes: seq<string>, line: string)
    requires Plain(CText(line))
    ensures CommandsIn(line) == [CText(line)] && Agrees(prefixes, line)
  {
    hide Multi, PathOf, Lines, Plain;
    OneLineExactlyWhenPlain(CText(line));
    TextOfText(line);
  }

  lemma {:induction false} TextOfText(b: string)
    ensures CText(CText(b)) == CText(b)
  {
    if b != "" && b[0] != '\0' {
      TextOfText(b[1..]);
      assert CText(b)[1..] == CText(b[1..]);
    }
  }

  lemma SameConfig(s: State, l: Label)
    requires Next(s, l).Some?
    ensures Next(s, l).value.prefixes == s.prefixes && Next(s, l).value.psvr == s.psvr
  {
    hide ServerFor;
  }

  lemma InitRouted(atoi: string -> int, prefixes: seq<string>, psvr: seq<nat>, workers: nat)
    ensures Routed(Init(atoi, prefixes, psvr, workers)) && Conserved(Init(atoi, prefixes, psvr, workers))
  {
    var s := Init(atoi, prefixes, psvr, workers);
    forall c: Conn ensures Places(s, c) == if c < |psvr| then 1 else 0 {
      Numbered(|psvr|, c);
      NoTimes(c);
      Empty(s.lists, c);
      NoneHeld(s.workers, c);
    }
  }

  lemma {:induction false} Empty(ls: seq<seq<Conn>>, c: Conn)
    requires forall i :: 0 <= i < |ls| ==> ls[i] == []
    ensures InLists(ls, c) == 0
  {
    if ls != [] { Empty(ls[1..], c); }
  }

  lemma {:induction false} NoneHeld(ws: seq<Worker>, c: Conn)
    requires forall w :: 0 <= w < |ws| ==> ws[w].Reading?
    ensures Held(ws, c) == 0
  {
    if ws != [] { NoneHeld(ws[1..], c); }
  }
}
