/** The lock broker's threads as atomic steps, one per critical section or read.
    A run is a sequence of labels; the labels carry what the code does not decide:
    which thread moves, what a socket delivers, which clocks have run out. */
module LockBroker {
  import opened Options
  import opened Texts
  import opened LineReader
  import opened Pools

  type Front = nat  // a FRONT_CONN

  /** A backend connection and the locker behind it: whether each end is there, the
      resource the locker has granted and not released, the command lines it has not
      handled yet, and the reply bytes nobody has read yet. */
  datatype Back = Back(open: bool, up: bool, held: Option<string>, requests: seq<string>, inbox: string)

  const CLOSED := Back(false, false, None, [], "")
  const NEW := Back(true, true, None, [], "")

  datatype Status = Ready | Locked | Queued

  /** What a worker does when read_backend returns. */
  datatype After = Continue | Drop(bye: bool)

  /** Where a worker is: at the head of its loop (after some seconds in the queue);
      in read_backend's read_line; or past the append that gives the backend back,
      with the session's fields still to be cleared. */
  datatype PC = Loop(tries: nat) | Talking(relay: bool, after: After) | Clearing(owed: bool, after: After)

  /** asked counts the commands that have arrived, merged those that came behind another one
      in the same line. */
  datatype Session = Session(status: Status, pback: Option<Conn>, buff: string, resource: string,
                             asked: nat, merged: nat, replies: seq<string>)

  datatype Worker = Waiting | Serving(front: Front, session: Session, pc: PC)

  datatype Scan = Pinging | Awaiting(conn: Conn) | Reconnecting

  datatype State = State(connNum: nat, interval: nat, front1: seq<Front>, front: seq<Front>, workers: seq<Worker>,
                         back: seq<Conn>, lost: seq<Conn>, temp: seq<Conn>, scan: Scan, conns: seq<Back>)

  datatype Label =
    | Accept(f: Front)
    | Wake(w: nat)
    | FrontLine(w: nat, line: string, expired: bool)  // a command line, and whether the lock time is over
    | FrontFails(w: nat, left: string)                // read_line fails, leaving part of a line in the buffer
    | Tick(w: nat)                                    // a second in the queue
    | Chunk(w: nat, k: nat)                           // k reply bytes reach read_backend
    | BackFails(w: nat)
    | Return(w: nat)
    | Rotate(idle: set<Conn>)
    | SendPing
    | Pong(k: nat)
    | PingFails
    | Collect
    | Reconnect(ok: bool)
    | Answer(c: Conn, late: bool)                     // the locker handles a line, perhaps after its lock time
    | HangUp(c: Conn)                                 // the locker closes the connection

  /** main: every connection starts out lost. */
  function Init(connNum: nat, interval: nat, conns: nat): State {
    State(connNum, interval, [], [], seq(connNum, i => Waiting), [], seq(conns, i => i), [], Reconnecting,
          seq(conns, i => CLOSED))
  }

  /** None when the label does not apply. */
  function Next(s: State, l: Label): Option<State> {
    match l
    case Accept(f) => NextAccept(s, f)
    case Wake(w) => NextWake(s, w)
    case FrontLine(w, line, expired) =>
      if !AtLoop(s, w) || s.workers[w].session.status.Queued? then None
      else Some(if s.workers[w].session.status.Ready? then ReadyLine(s, w, line) else LockedLine(s, w, line, expired))
    case FrontFails(w, left) =>
      if !AtLoop(s, w) || s.workers[w].session.status.Queued? || |left| > BUFF_SIZE then None
      else Some(if s.workers[w].session.status.Ready? then Leave(s, w)
                else Release(s, w, s.workers[w].session.(buff := left), Talking(false, Drop(false))))
    case Tick(w) =>
      if !AtLoop(s, w) || !s.workers[w].session.status.Queued? then None else Some(QueueTick(s, w))
    case Chunk(w, k) =>
      if !InTalk(s, w) then None else NextChunk(s, w, k)
    case BackFails(w) =>
      if !InTalk(s, w) then None else Some(Lose(s, w, s.workers[w].session.buff))
    case Return(w) =>
      if w >= |s.workers| || !s.workers[w].Serving? || !s.workers[w].pc.Clearing? then None else Some(NextReturn(s, w))
    case Rotate(idle) =>
      if !s.scan.Reconnecting? || s.temp != [] then None
      else Some(s.(back := Keep(s.back, idle), temp := Pick(s.back, idle), scan := Pinging))
    case SendPing =>
      if !s.scan.Pinging? || s.temp == [] then None
      else Some(s.(temp := s.temp[1..], scan := Awaiting(s.temp[0]), conns := Write(s, s.temp[0], PING)))
    case Pong(k) => NextPong(s, k)
    case PingFails =>
      if !s.scan.Awaiting? then None
      else Some(s.(conns := Put(s, s.scan.conn, CLOSED), lost := s.lost + [s.scan.conn], scan := Pinging))
    case Collect =>
      if !s.scan.Pinging? || s.temp != [] then None else Some(s.(temp := s.lost, lost := [], scan := Reconnecting))
    case Reconnect(ok) =>
      if !s.scan.Reconnecting? || s.temp == [] then None
      else if ok then Some(s.(temp := s.temp[1..], conns := Put(s, s.temp[0], NEW), back := s.back + [s.temp[0]]))
      else Some(s.(temp := s.temp[1..], lost := s.lost + [s.temp[0]]))
    case Answer(c, late) => NextAnswer(s, c, late)
    case HangUp(c) => NextHangUp(s, c)
  }

  // ----- connections -----

  function Get(s: State, c: Conn): Back { if c < |s.conns| then s.conns[c] else CLOSED }

  function Put(s: State, c: Conn, b: Back): seq<Back> { if c < |s.conns| then s.conns[c := b] else s.conns }

  const UNLOCK: string := "UNLOCK" + CRLF
  const PING: string := "PING" + CRLF

  function LockText(resource: string): string { "LOCK " + resource + CRLF }

  /** What is written reaches the locker as the lines it divides into. */
  function Write(s: State, c: Conn, text: string): seq<Back> {
    var b := Get(s, c);
    if b.up then Put(s, c, b.(requests := b.requests + Lines(text))) else s.conns
  }

  function Move(s: State, w: nat, x: Worker): seq<Worker>
    requires w < |s.workers|
  {
    s.workers[w := x]
  }

  predicate AtLoop(s: State, w: nat) { w < |s.workers| && s.workers[w].Serving? && s.workers[w].pc.Loop? }

  predicate InTalk(s: State, w: nat) {
    w < |s.workers| && s.workers[w].Serving? && s.workers[w].pc.Talking? && s.workers[w].session.pback.Some?
  }

  // ----- the acceptor and the wake-up -----

  function NextAccept(s: State, f: Front): Option<State> {
    if f in s.front1 || f in s.front then None
    else if |s.front| + 1 + |s.front1| >= s.connNum then Some(s)
    else Some(s.(front1 := s.front1 + [f]))
  }

  function NextWake(s: State, w: nat): Option<State> {
    if w >= |s.workers| || !s.workers[w].Waiting? then None
    else if s.front1 == [] then Some(s)
    else
      var f := s.front1[0];
      var x := Serving(f, Session(Ready, None, "", "", 0, 0, []), Loop(0));
      Some(s.(front1 := s.front1[1..], front := s.front + [f], workers := Move(s, w, x)))
  }

  // ----- a worker's loop -----

  function ReadyLine(s: State, w: nat, line: string): State
    requires AtLoop(s, w)
  {
    var f, se, t := s.workers[w].front, s.workers[w].session, CText(line);
    if IsLock(t) then
      var asking := Hear(se, line).(resource := Clip(t[5..]));
      if s.back == [] then s.(workers := Move(s, w, Serving(f, asking.(status := Queued), Loop(0))))
      else Grab(s, w, asking)
    else if SameText(t, "QUIT") then Leave(s, w)
    else s.(workers := Move(s, w, Serving(f, Hear(se, line).(replies := se.replies + ["FALSE"]), Loop(0))))
  }

  function Hear(se: Session, line: string): Session {
    se.(asked := se.asked + Commands(line), merged := se.merged + (Commands(line) - 1))
  }

  /** The word LOCK and at least one more character; the locker tests the same. */
  predicate IsLock(t: string) { |t| > 5 && SameText(t[..5], "LOCK ") }

  /** strncpy into 256 bytes, the last of them the NUL. */
  function Clip(t: string): string { if |t| > 255 then t[..255] else t }

  /** Pops the first backend and asks it for the lock. */
  function Grab(s: State, w: nat, se: Session): State
    requires AtLoop(s, w) && s.back != []
  {
    var c := s.back[0];
    s.(back := s.back[1..], conns := Write(s, c, LockText(se.resource)),
       workers := Move(s, w, Serving(s.workers[w].front, se.(pback := Some(c)), Talking(true, Continue))))
  }

  /** After as many empty seconds as the interval the client is told TRUE all the same. */
  function QueueTick(s: State, w: nat): State
    requires AtLoop(s, w)
  {
    var f, se, tries := s.workers[w].front, s.workers[w].session, s.workers[w].pc.tries + 1;
    if s.back != [] then Grab(s, w, se)
    else if tries >= s.interval then
      s.(workers := Move(s, w, Serving(f, se.(status := Ready, buff := "", replies := se.replies + ["TRUE"]), Loop(0))))
    else s.(workers := Move(s, w, Serving(f, se, Loop(tries))))
  }

  function LockedLine(s: State, w: nat, line: string, expired: bool): State
    requires AtLoop(s, w)
  {
    var f, se, t := s.workers[w].front, s.workers[w].session, CText(line);
    var heard := Hear(se, line);
    if SameText(t, "QUIT") then Release(s, w, heard, Talking(false, Drop(true)))
    else if SameText(t, "UNLOCK") then Release(s, w, heard, Talking(true, Continue))
    else
      var refused := heard.(replies := se.replies + ["FALSE"]);
      if expired then Release(s, w, refused, Talking(false, Continue))
      else s.(workers := Move(s, w, Serving(f, refused, Loop(0))))
  }

  /** Sends UNLOCK to the session's backend. */
  function Release(s: State, w: nat, se: Session, pc: PC): State
    requires AtLoop(s, w)
  {
    s.(workers := Move(s, w, Serving(s.workers[w].front, se, pc)),
       conns := if se.pback.Some? then Write(s, se.pback.value, UNLOCK) else s.conns)
  }

  /** Removes the session from front_list; its worker waits for the next one. */
  function Leave(s: State, w: nat): State
    requires w < |s.workers| && s.workers[w].Serving?
  {
    s.(workers := Move(s, w, Waiting), front := Without(s.front, s.workers[w].front))
  }

  function Without(fs: seq<Front>, f: Front): seq<Front> {
    if fs == [] then [] else (if fs[0] == f then [] else [fs[0]]) + Without(fs[1..], f)
  }

  // ----- read_backend -----

  function NextChunk(s: State, w: nat, k: nat): Option<State>
    requires InTalk(s, w)
  {
    var se := s.workers[w].session;
    var c := se.pback.value;
    var inbox := Get(s, c).inbox;
    if !(1 <= k <= |inbox| && |se.buff| + k <= BUFF_SIZE) then None
    else
      var read := s.(conns := Put(s, c, Get(s, c).(inbox := inbox[k..])));
      Some(match Take(se.buff, inbox[..k])
           case More(b) => read.(workers := Move(s, w, s.workers[w].(session := se.(buff := b))))
           case Line(text) => ReplyLine(read, w, text)
           case Broken(b) => Lose(read, w, b))
  }

  /** A whole reply: TRUE to a LOCK keeps the backend, anything else gives it back. */
  function ReplyLine(s: State, w: nat, text: string): State
    requires InTalk(s, w)
  {
    var f, se, pc := s.workers[w].front, s.workers[w].session, s.workers[w].pc;
    var told := se.(buff := "", replies := if pc.relay then se.replies + [CText(text)] else se.replies);
    if !se.status.Locked? && IsTrue(text) then s.(workers := Move(s, w, Serving(f, told.(status := Locked), Loop(0))))
    else s.(workers := Move(s, w, Serving(f, told, Clearing(false, pc.after))), back := s.back + [se.pback.value])
  }

  /** No reply: the socket is closed and the connection goes to lost_list. */
  function Lose(s: State, w: nat, buff: string): State
    requires InTalk(s, w)
  {
    var f, se, pc := s.workers[w].front, s.workers[w].session, s.workers[w].pc;
    s.(workers := Move(s, w, Serving(f, se.(buff := buff), Clearing(pc.relay, pc.after))),
       conns := Put(s, se.pback.value, CLOSED), lost := s.lost + [se.pback.value])
  }

  /** The rest of read_backend, and of the branch that called it. */
  function NextReturn(s: State, w: nat): State
    requires w < |s.workers| && s.workers[w].Serving? && s.workers[w].pc.Clearing?
  {
    var f, se, pc := s.workers[w].front, s.workers[w].session, s.workers[w].pc;
    if pc.after.Drop? then Leave(s, w)
    else
      var replies := if pc.owed then se.replies + ["TRUE"] else se.replies;
      var ready := se.(status := Ready, pback := None, buff := "", replies := replies);
      s.(workers := Move(s, w, Serving(f, ready, Loop(0))))
  }

  // ----- the scanner -----

  /** One read of the reply to PING, whatever part of it has arrived. */
  function NextPong(s: State, k: nat): Option<State> {
    if !s.scan.Awaiting? then None
    else
      var c := s.scan.conn;
      var inbox := Get(s, c).inbox;
      if !(1 <= k <= |inbox| && k <= 1024) then None
      else Some(s.(conns := Put(s, c, Get(s, c).(inbox := inbox[k..])), back := s.back + [c], scan := Pinging))
  }

  // ----- the locker -----

  function IsHeld(s: State): set<string> {
    set c | 0 <= c < |s.conns| && s.conns[c].held.Some? :: s.conns[c].held.value
  }

  function NextAnswer(s: State, c: Conn, late: bool): Option<State> {
    var b := Get(s, c);
    if !b.up || b.requests == [] then None
    else
      var served :- Serve(b, late, IsHeld(s));
      Some(s.(conns := Put(s, c, served)))
  }

  /** The locker handles one line. A LOCK of a resource that is taken has to wait; with the
      lock time over, any line but UNLOCK and QUIT gives up the lock that is held. */
  function Serve(b: Back, late: bool, taken: set<string>): Option<Back>
    requires b.requests != []
  {
    var line, rest := CText(b.requests[0]), b.(requests := b.requests[1..]);
    if SameText(line, "QUIT") then
      Some(Back(b.open, false, None, [], b.inbox + "BYE" + CRLF))
    else if b.held.Some? then
      if SameText(line, "UNLOCK") then Some(Say(rest.(held := None), "TRUE"))
      else Some(Say(rest.(held := if late then None else b.held), "FALSE"))
    else if IsLock(line) then
      var r := Clip(line[5..]);
      if r in taken then None else Some(Say(rest.(held := Some(r)), "TRUE"))
    else Some(Say(rest, if SameText(line, "PING") then "TRUE" else "FALSE"))
  }

  function Say(b: Back, reply: string): Back { b.(inbox := b.inbox + reply + CRLF) }

  /** Its read fails or takes too long, or its table of locks stays full. */
  function NextHangUp(s: State, c: Conn): Option<State> {
    var b := Get(s, c);
    if !b.up then None else Some(s.(conns := Put(s, c, b.(up := false, held := None, requests := []))))
  }

  // ----- runs -----

  function Exec(s: State, run: seq<Label>): Option<State>
    decreases |run|
  {
    if run == [] then Some(s)
    else
      var t :- Exec(s, run[..|run| - 1]);
      Next(t, run[|run| - 1])
  }
}
