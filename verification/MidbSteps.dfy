/** What each step of the mail-index broker does, and what it leaves alone. */
module MidbSteps {
  import opened Options
  import opened Texts
  import opened LineReader
  import opened Pools
  import opened MidbPool
  import Relay

  // ----- commands -----

  /** Which commands there are, in any case, and how they are answered: by one line, or by many. */
  lemma CommandWords(t: string)
    ensures Multi(t) == Some(false) <==>
              |t| >= 7 && exists w ::
                SameText(t[..7], w) &&
                w in [
                  "M-QUTA ", "M-SUMY ", "M-FREE ", "M-MTCH ", "M-INST ", "M-DELE ", "M-MOVE ", "M-COPY ", "M-UPDT ",
                  "M-MAKF ", "M-REMF ", "M-RENF ", "M-PING ", "M-CKFL ", "P-OFST ", "P-UNID ", "P-FDDT ", "P-SUBF ",
                  "P-UNSF ", "P-SFLG ", "P-RFLG ", "P-GFLG "]
    ensures Multi(t) == Some(true) <==>
              |t| >= 7 && exists w ::
                SameText(t[..7], w) &&
                w in [
                  "M-LIST ", "M-UIDL ", "M-INFO ", "M-ENUM ", "P-SUBL ", "P-SIML ", "P-DELL ", "P-SIMU ", "P-DTLU "]
  {
    hide SameText, ByLetters;
    if |t| >= 7 {
      forall i: nat | i < |ONE_LINE| && SameText(t[..7], ONE_LINE[i]) ensures !ByLetters(t[..7]) {
        Letters(t[..7], ONE_LINE[i]);
        OneLineLetters(i);
      }
      forall i: nat | i < |MANY_LINES| && SameText(t[..7], MANY_LINES[i]) ensures ByLetters(t[..7]) {
        Letters(t[..7], MANY_LINES[i]);
        ManyLinesLetters(i);
      }
    }
  }

  /** Two letters tell the two kinds of command apart. */
  predicate ByLetters(c: string)
    requires |c| == 7
  {
    var a, z := Lower(c[2]), Lower(c[5]);
    z == 'o' || z == 'm' || z == 'u' || (z == 't' && a == 'l') || (z == 'l' && a != 'c')
  }

  lemma Letters(c: string, w: string)
    requires |c| == 7 && SameText(c, w)
    ensures |w| == 7 && (ByLetters(c) <==> ByLetters(w))
  {
  }

  lemma OneLineLetters(i: nat)
    requires i < |ONE_LINE|
    ensures |ONE_LINE[i]| == 7 && !ByLetters(ONE_LINE[i])
  {
  }

  lemma ManyLinesLetters(i: nat)
    requires i < |MANY_LINES|
    ensures |MANY_LINES[i]| == 7 && ByLetters(MANY_LINES[i])
  {
  }

  predicate AllAre(t: string, c: char) { forall i :: 0 <= i < |t| ==> t[i] == c }

  /** The path is the word behind the command, without the tabs around it; a word of more than
      255 characters, tabs and all, is refused. */
  lemma PathIsTrimmed(command: string, left: string, path: string, right: string, rest: string)
    requires |command| == 7 && AllAre(left, '\t') && AllAre(right, '\t') && ' ' !in path
    requires path != "" ==> path[0] != '\t' && path[|path| - 1] != '\t'
    requires path == "" ==> right == ""
    requires rest == "" || rest[0] == ' '
    ensures PathOf(command + left + path + right + rest)
            == if |left| + |path| + |right| > 255 then None else Some(path)
  {
    hide TrimLeft, TrimRight;
    var word := left + path + right;
    assert (command + left + path + right + rest)[7..] == word + rest;
    assert ' ' !in word;
    WordEnds(word, rest);
    TrimmedLeft(left, path + right);
    assert left + (path + right) == word;
    TrimmedRight(path, right);
  }

  lemma {:induction false} TrimmedLeft(left: string, t: string)
    requires AllAre(left, '\t') && (t == "" || (t[0] != '\t' && t[0] != ' '))
    ensures TrimLeft(left + t) == t
  {
    if left != "" {
      assert (left + t)[1..] == left[1..] + t;
      TrimmedLeft(left[1..], t);
    } else {
      assert left + t == t;
    }
  }

  lemma {:induction false} TrimmedRight(t: string, right: string)
    requires AllAre(right, '\t')
    requires t == "" || (t[|t| - 1] != '\t' && t[|t| - 1] != ' ')
    ensures TrimRight(t + right) == t
  {
    if right != "" {
      var n := |right| - 1;
      assert (t + right)[..|t + right| - 1] == t + right[..n];
      TrimmedRight(t, right[..n]);
    } else {
      assert t + right == t;
    }
  }

  lemma StartsIsPrefix(t: string, p: string)
    ensures Starts(t, p) <==> p <= t
  {
  }

  // ----- a worker -----

  ghost predicate OnlyWorker(s: State, t: State, w: nat) {
    && w < |s.workers| == |t.workers| && t == s.(workers := t.workers)
    && forall v :: 0 <= v < |s.workers| && v != w ==> t.workers[v] == s.workers[v]
  }

  /** Only connection c is different. */
  ghost predicate OnlyLink(s: State, t: State, c: Conn) {
    && t == s.(conns := t.conns) && |t.conns| == |s.conns|
    && forall d :: 0 <= d < |s.conns| && d != c ==> t.conns[d] == s.conns[d]
  }

  /** A command without a server is answered at once, and changes nothing here; another one
      waits for a connection of the first server whose prefix starts its path. */
  lemma CommandTaken(s: State, w: nat, line: string)
    requires w < |s.workers| && s.workers[w].Reading?
    ensures var t := Next(s, Command(w, line));
            && t.Some?
            && (Multi(CText(line)).None? || PathOf(CText(line)).None? ==> t.value == s)
            && (Multi(CText(line)).Some? && PathOf(CText(line)).Some? ==>
                  var path := PathOf(CText(line)).value;
                  if forall j :: 0 <= j < |s.prefixes| ==> !Starts(path, s.prefixes[j]) then t.value == s
                  else
                    && OnlyWorker(s, t.value, w) && t.value.workers[w].Seeking? && t.value.workers[w].line == line
                    && t.value.workers[w].tries == 0
                    && var i := t.value.workers[w].server;
                       && i < |s.prefixes| && Starts(path, s.prefixes[i])
                       && forall j :: 0 <= j < i ==> !Starts(path, s.prefixes[j]))
  {
    hide CText, Multi, PathOf, Starts;
  }

  predicate IsSeeking(s: State, w: nat) {
    w < |s.workers| && s.workers[w].Seeking? && s.workers[w].server < |s.lists|
  }

  /** With a connection idle, the first one is taken and the line written to it; midb gets
      the commands it divides into. */
  lemma ConnectionTaken(s: State, w: nat)
    requires IsSeeking(s, w) && s.lists[s.workers[w].server] != []
    ensures var i, line, n, r := s.workers[w].server, s.workers[w].line, |s.sent|, Next(s, Seek(w));
            var c := s.lists[i][0];
            && r.Some?
            && var t := r.value;
               && OnlyWorker(s.(lists := s.lists[i := s.lists[i][1..]], conns := t.conns,
                                sent := s.sent + [(line, c)], said := s.said + [[]]), t, w)
               && t.workers[w] == Using(line, c, n)
               && |t.conns| == |s.conns| && (forall d :: 0 <= d < |s.conns| && d != c ==> t.conns[d] == s.conns[d])
               && (c < |s.conns| ==>
                     && t.conns[c].up == s.conns[c].up && t.conns[c].inbox == s.conns[c].inbox
                     && if s.conns[c].up then Queued(s.conns[c].queue, t.conns[c].queue, Lines(CText(line) + CRLF), n)
                        else t.conns[c].queue == s.conns[c].queue)
  {
    hide CText, Lines;
  }

  /** The commands have joined the queue, in order, for the n-th line. */
  predicate Queued(before: seq<Task>, after: seq<Task>, commands: seq<string>, n: nat) {
    && |after| == |before| + |commands| && after[..|before|] == before
    && forall k :: 0 <= k < |commands| ==> after[|before| + k] == Task(commands[k], For(n))
  }

  /** Without one the worker looks again after a second, sixty times; then the client is let go. */
  lemma NoneIdle(s: State, w: nat)
    requires IsSeeking(s, w) && s.lists[s.workers[w].server] == []
    ensures var x, t := s.workers[w], Next(s, Seek(w));
            && t.Some? && OnlyWorker(s, t.value, w)
            && t.value.workers[w] == if x.tries < 60 then Seeking(x.line, x.server, x.tries + 1) else Reading
  {
  }

  // ----- giving a connection back -----

  /** The server of connection c. */
  predicate Belongs(s: State, c: Conn, i: nat) { c < |s.psvr| && c < |s.conns| && s.psvr[c] == i && i < |s.lists| }

  /** A transfer may end after so many bytes exactly when they make up a reply. The client
      gets these, the rest stays unread, and the connection is idle again. */
  lemma ReplyTransferred(s: State, w: nat, used: nat, i: nat)
    requires w < |s.workers| && s.workers[w].Using? && Belongs(s, s.workers[w].conn, i)
    ensures var x, r := s.workers[w], Next(s, Finish(w, used));
            var c, inbox := x.conn, s.conns[x.conn].inbox;
            && (r.Some? <==>
                  && used <= |inbox|
                  && Relay.Judge(Multi(CText(x.line)) == Some(true), s.atoi, Text(inbox[..used])) == Relay.Done)
            && (r.Some? ==>
                  && r.value == s.(conns := s.conns[c := s.conns[c].(inbox := inbox[used..])],
                                   lists := s.lists[i := s.lists[i] + [c]], workers := s.workers[w := Reading],
                                   answers := s.answers + [Answer(x.n, inbox[..used])]))
  {
    hide Relay.Judge, Multi, CText;
  }

  /** Failing closes the connection for good, until it is reconnected. */
  lemma TransferFailed(s: State, w: nat)
    requires w < |s.workers| && s.workers[w].Using? && s.workers[w].conn < |s.conns|
    ensures var c := s.workers[w].conn;
            Next(s, FinishFails(w)) == Some(s.(conns := s.conns[c := Link(false, [], [])], lost := s.lost + [c],
                                               workers := s.workers[w := Reading]))
  {
  }

  // ----- the scanner -----

  /** What is not idle. */
  ghost predicate Rest(cs: seq<Conn>, idle: set<Conn>, rest: seq<Conn>) {
    forall c: Conn :: c in rest <==> c in cs && c !in idle
  }

  lemma Rotated(s: State, idle: set<Conn>)
    ensures Next(s, Rotate(idle)).Some? <==> s.scan == Reconnecting && s.temp == []
    ensures Next(s, Rotate(idle)).Some? ==>
              var t := Next(s, Rotate(idle)).value;
              && t == s.(lists := t.lists, temp := t.temp, scan := Pinging) && |t.lists| == |s.lists|
              && (forall i :: 0 <= i < |s.lists| ==> Rest(s.lists[i], idle, t.lists[i]))
              && (forall c: Conn :: c in t.temp <==> c in idle && exists i :: 0 <= i < |s.lists| && c in s.lists[i])
  {
    if Next(s, Rotate(idle)).Some? {
      var t := Next(s, Rotate(idle)).value;
      forall i | 0 <= i < |s.lists| ensures Rest(s.lists[i], idle, t.lists[i]) {
        assert t.lists[i] == Keep(s.lists[i], idle);
        forall c: Conn ensures c in t.lists[i] <==> c in s.lists[i] && c !in idle { Placed(s.lists[i], idle, c); }
      }
    }
    forall c: Conn
      ensures c in PickEach(s.lists, idle) <==> c in idle && exists i :: 0 <= i < |s.lists| && c in s.lists[i]
    {
      PlacedInEach(s.lists, idle, c);
    }
  }

  lemma {:induction false} PlacedInEach(ls: seq<seq<Conn>>, idle: set<Conn>, c: Conn)
    ensures c in PickEach(ls, idle) <==> c in idle && exists i :: 0 <= i < |ls| && c in ls[i]
  {
    if ls != [] {
      Placed(ls[0], idle, c);
      PlacedInEach(ls[1..], idle, c);
      if i: nat :| i < |ls| && c in ls[i] { if i > 0 { assert c in ls[1..][i - 1]; } }
    }
  }

  lemma PingSent(s: State)
    ensures Next(s, SendPing).Some? <==> s.scan == Pinging && s.temp != []
    ensures Next(s, SendPing).Some? ==>
              var c, t := s.temp[0], Next(s, SendPing).value;
              && OnlyLink(s.(temp := s.temp[1..], scan := Awaiting(c, s.pings), pings := s.pings + 1), t, c)
              && (c < |s.conns| ==>
                    t.conns[c] == if s.conns[c].up then
                                    s.conns[c].(queue := s.conns[c].queue + [Task("PING", Ping(s.pings))])
                                  else s.conns[c])
  {
  }

  /** Any bytes, at most 1024 at once, are taken for the answer. */
  lemma PingAnswered(s: State, used: nat, i: nat)
    requires s.scan.Awaiting? && Belongs(s, s.scan.conn, i)
    ensures var c, t := s.scan.conn, Next(s, Pong(used));
            && (t.Some? <==> 1 <= used <= 1024 && used <= |s.conns[c].inbox|)
            && (t.Some? ==>
                  t.value == s.(conns := s.conns[c := s.conns[c].(inbox := s.conns[c].inbox[used..])],
                                lists := s.lists[i := s.lists[i] + [c]], scan := Pinging))
  {
  }

  lemma PingUnanswered(s: State)
    requires s.scan.Awaiting? && s.scan.conn < |s.conns|
    ensures var c := s.scan.conn;
            Next(s, PingFails) == Some(s.(conns := s.conns[c := Link(false, [], [])], lost := s.lost + [c],
                                          scan := Pinging))
  {
  }

  lemma Collected(s: State)
    ensures Next(s, Collect) == if s.scan == Pinging && s.temp == [] then
                                  Some(s.(temp := s.lost, lost := [], scan := Reconnecting))
                                else None
  {
  }

  /** A connection that can be opened again joins its own server's list, with nothing unread. */
  lemma Reconnected(s: State, ok: bool, i: nat)
    requires s.scan == Reconnecting && s.temp != [] && Belongs(s, s.temp[0], i)
    ensures var c := s.temp[0];
            Next(s, Reconnect(ok))
            == Some(if ok then
                      s.(conns := s.conns[c := Link(true, [], [])], lists := s.lists[i := s.lists[i] + [c]],
                         temp := s.temp[1..])
                    else
                      s.(conns := s.conns[c := Link(false, [], [])], lost := s.lost + [c], temp := s.temp[1..]))
  {
  }

  // ----- midb -----

  /** midb handles the first command in its queue: the reply goes to the unread bytes, tagged
      with what the command was sent for. QUIT ends the conversation. */
  lemma CommandHandled(s: State, c: Conn, how: Outcome)
    requires c < |s.conns| && s.conns[c].up && s.conns[c].queue != []
    ensures var task, r := s.conns[c].queue[0], Next(s, Handle(c, how));
            var quits := SameText(task.command, "QUIT");
            var reply := if quits then "BYE" + CRLF
                         else if ArgCount(task.command) < 2 then "FALSE 1" + CRLF
                         else if how.Handled? then how.text
                         else if how.Unknown? then "FALSE 0" + CRLF
                         else "FALSE 0" + CRLF + "FALSE 0" + CRLF;
            && r.Some?
            && var t := r.value;
               && OnlyLink(s.(said := t.said), t, c)
               && t.conns[c].up == !quits && t.conns[c].queue == (if quits then [] else s.conns[c].queue[1..])
               && Tagged(s.conns[c].inbox, t.conns[c].inbox, reply, task.of)
               && t.said == if task.of.For? && task.of.n < |s.said| then
                              s.said[task.of.n := s.said[task.of.n] + [reply]]
                            else s.said
  {
    hide SameText, ArgCount;
  }

  /** The reply has joined the unread bytes. */
  predicate Tagged(before: seq<Letter>, after: seq<Letter>, reply: string, of: Tag) {
    && |after| == |before| + |reply| && after[..|before|] == before
    && forall k :: 0 <= k < |reply| ==> after[|before| + k] == Letter(reply[k], of)
  }

  lemma NothingToHandle(s: State, c: Conn, how: Outcome)
    ensures Next(s, Handle(c, how)).None? <==> c >= |s.conns| || !s.conns[c].up || s.conns[c].queue == []
  {
    hide Reply, Log;
  }

  lemma HungUp(s: State, c: Conn)
    ensures Next(s, HangUp(c)) == if c < |s.conns| && s.conns[c].up then
                                    Some(s.(conns := s.conns[c := Link(false, [], s.conns[c].inbox)]))
                                  else None
  {
  }

  /** Words are counted between spaces, however many: one is not enough for a command. */
  lemma WordsAreCounted(before: string, a: string, between: string, b: string, behind: string)
    requires AllAre(before, ' ') && AllAre(between, ' ') && AllAre(behind, ' ') && between != ""
    requires a != "" && b != "" && ' ' !in a && ' ' !in b && '{' !in a && '{' !in b
    ensures ArgCount(before) == 0 && ArgCount(before + a + behind) == 1
    ensures ArgCount(before + a + between + b + behind) == 2
  {
    assert before + "" == before && behind + "" == behind;
    SpacesArePassed(before, "", false);
    SpacesArePassed(behind, "", true);
    WordIsPassed(a, behind, false);
    SpacesArePassed(before, a + behind, false);
    assert before + a + behind == before + (a + behind);
    var rest := b + behind;
    WordIsPassed(b, behind, false);
    SpacesArePassed(between, rest, true);
    WordIsPassed(a, between + rest, false);
    SpacesArePassed(before, a + (between + rest), false);
    assert before + a + between + b + behind == before + (a + (between + rest));
  }

  lemma {:induction false} WordIsPassed(a: string, rest: string, inWord: bool)
    requires a != "" && ' ' !in a && '{' !in a
    ensures Words(a + rest, inWord) == Words(rest, true)
  {
    assert (a + rest)[1..] == a[1..] + rest && a[0] in a;
    if |a| > 1 {
      WordIsPassed(a[1..], rest, true);
    } else {
      assert a[1..] + rest == rest;
    }
  }

  lemma {:induction false} SpacesArePassed(spaces: string, rest: string, inWord: bool)
    requires AllAre(spaces, ' ')
    ensures Words(spaces + rest, inWord)
            == if spaces != "" && inWord then 1 + Words(rest, false) else Words(rest, inWord)
  {
    if spaces != "" {
      assert (spaces + rest)[1..] == spaces[1..] + rest;
      SpacesArePassed(spaces[1..], rest, false);
    } else {
      assert spaces + rest == rest;
    }
  }

  /** A brace ends the words, if the command ends with its counterpart; if not, there are none. */
  lemma BracesEndTheWords(a: string, b: string)
    requires a != "" && ' ' !in a && '{' !in a
    ensures ArgCount(a + " {" + b + "}") == 2
    ensures b == "" || b[|b| - 1] != '}' ==> ArgCount(a + " {" + b) == 0
  {
    BraceIsLast(a, b + "}");
    assert a + " {" + b + "}" == a + " {" + (b + "}");
    var u := a + " {" + b;
    assert u[|a| + 1] == '{' && '{' in u;
    assert u[|u| - 1] == if b == "" then '{' else b[|b| - 1];
  }

  lemma BraceIsLast(a: string, b: string)
    requires a != "" && ' ' !in a && '{' !in a
    ensures Words(a + " {" + b, false) == 2
  {
    var rest := " {" + b;
    assert a + " {" + b == a + rest;
    WordIsPassed(a, rest, false);
    assert rest[1..] == "{" + b && (("{" + b)[0] == '{');
    assert Words(rest, true) == 1 + Words(rest[1..], false);
  }

  /** A worker takes only the steps of the place it is at. */
  lemma OutOfTurn(s: State, w: nat, line: string, used: nat)
    ensures w >= |s.workers| || !s.workers[w].Reading? ==> Next(s, Command(w, line)) == None
    ensures !IsSeeking(s, w) ==> Next(s, Seek(w)) == None
    ensures w >= |s.workers| || !s.workers[w].Using? ==> Next(s, Finish(w, used)) == Next(s, FinishFails(w)) == None
    ensures s.scan != Reconnecting || s.temp == [] ==> Next(s, Reconnect(used == 0)) == None
    ensures !s.scan.Awaiting? ==> Next(s, Pong(used)) == Next(s, PingFails) == None
  {
    hide Give, Send, ServerFor, Relay.Judge;
  }
}
