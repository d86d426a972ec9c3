/** net/TcpServer.cpp, net/TcpConnection.cpp and net/Channel.cpp: the life of connections across the base loop and
    the I/O loops, as a state machine in which all loops and all other threads interleave.

    Queued functors of a loop may run in any order here, so nothing below rests on queueing order. */
module ServerMachine {
  import opened ConnectionState
  import opened Wrappers

  type Conn = nat
  type Loop = nat
  const BASE: Loop := 0

  /** `watched`: the channel has events of interest, so that the poller may report it. */
  datatype Connection = Connection(loop: Loop, state: ConnState, watched: bool)

  datatype Task = Establish(conn: Conn) | Remove(conn: Conn) | Destroy(conn: Conn) | ForceClose(conn: Conn)

  /** revents_ of one channel */
  datatype Event = Event(conn: Conn, hup: bool, isIn: bool, pri: bool, rdhup: bool, err: bool, out: bool)

  /** How far handleEventWithGuard got. */
  datatype Stage = AtClose | AtRead | AtWrite
  datatype Dispatch = Dispatch(event: Event, stage: Stage)

  datatype Mode = Polling | Handling(current: Option<Dispatch>, todo: seq<Event>) | Functors

  datatype State = State(
    conns: map<Conn, Connection>,
    table: set<Conn>,               // the keys of connections_
    nextId: nat,                    // nextConnId_
    modes: map<Loop, Mode>,
    queued: multiset<Task>,         // the functors queued on all loops
    forced: set<Conn>,              // forceClose found these open: a thread may queue forceCloseInLoop
    established: multiset<Conn>,    // history: calls of connectEstablished
    closed: multiset<Conn>,         // history: calls of handleClose
    destroyed: multiset<Conn>,      // history: calls of connectDestroyed
    missed: multiset<Conn>)         // history: erasures from connections_ that found no entry

  datatype Step =
    | Accept(loop: Loop)                       // newConnection, with the I/O loop chosen for it
    | PollReturns(at: Loop, events: seq<Event>)
    | BeginEvent(at: Loop)
    | HandleEvent(at: Loop, readZero: bool)    // the next callback of the current channel; whether a read hits end of file
    | HandlersDone(at: Loop)
    | RunTask(at: Loop, task: Task)
    | FunctorsDone(at: Loop)
    | Shutdown(conn: Conn)                     // shutdown or forceCloseWithDelay, on any thread, up to its queueing
    | ForceCloseCall(conn: Conn)               // forceClose, on any thread, up to its queueing
    | QueueForceClose(conn: Conn)
    | SetWatched(conn: Conn, on: bool)         // startRead, stopRead, enabling and disabling writing

  /** The loop a functor is queued on. */
  function LoopOf(s: State, task: Task): Loop
    requires task.conn in s.conns
  {
    if task.Remove? then BASE else s.conns[task.conn].loop
  }

  predicate IsUp(s: State, c: Conn) {
    c in s.conns && (s.conns[c].state == Connected || s.conns[c].state == Disconnecting)
  }

  predicate ReadsOn(e: Event) {
    e.isIn || e.pri || e.rdhup
  }

  predicate ClosesOn(e: Event) {
    e.hup && !e.isIn
  }

  /** handleClose is called once for such an event at most, whatever the read returns. */
  predicate GoodEvent(e: Event) {
    !(e.hup && !e.isIn && (e.pri || e.rdhup))
  }

  ghost predicate Enabled(s: State, step: Step) {
    match step
    case Accept(l) => l in s.modes && BASE in s.modes && s.modes[BASE].Handling? && s.modes[BASE].current.None?
    case PollReturns(l, events) =>
      && l in s.modes && s.modes[l].Polling?
      && (forall i, j :: 0 <= i < j < |events| ==> events[i].conn != events[j].conn)
      && (forall e :: e in events ==> e.conn in s.conns && s.conns[e.conn].loop == l && s.conns[e.conn].watched)
    case BeginEvent(l) => l in s.modes && s.modes[l].Handling? && s.modes[l].current.None? && s.modes[l].todo != []
    case HandleEvent(l, readZero) => l in s.modes && s.modes[l].Handling? && s.modes[l].current.Some?
    case HandlersDone(l) => l in s.modes && s.modes[l].Handling? && s.modes[l].current.None? && s.modes[l].todo == []
    case RunTask(l, task) => l in s.modes && s.modes[l].Functors? && task in s.queued && task.conn in s.conns && LoopOf(s, task) == l
    case FunctorsDone(l) => l in s.modes && s.modes[l].Functors?
    case Shutdown(c) => c in s.conns
    case ForceCloseCall(c) => c in s.conns
    case QueueForceClose(c) => c in s.forced
    case SetWatched(c, on) => IsUp(s, c)
  }

  function SetConn(s: State, c: Conn, connection: Connection): State {
    s.(conns := s.conns[c := connection])
  }

  function Enqueue(s: State, task: Task): State {
    s.(queued := s.queued[task := s.queued[task] + 1])
  }

  /** connectEstablished */
  function ConnectEstablished(s: State, c: Conn): State
    requires c in s.conns
  {
    SetConn(s, c, s.conns[c].(state := Connected, watched := true)).(established := s.established[c := s.established[c] + 1])
  }

  /** removeConnectionInLoop */
  function RemoveConnectionInLoop(s: State, c: Conn): State {
    Enqueue(s, Destroy(c)).(table := s.table - {c},
                            missed := if c in s.table then s.missed else s.missed[c := s.missed[c] + 1])
  }

  /** handleClose, on the connection's own loop; the server's callback uses runInLoop on the base loop. */
  function HandleClose(s: State, c: Conn): State
    requires c in s.conns
  {
    if s.conns[c].loop == BASE then RemoveConnectionInLoop(Down(s, c), c) else Enqueue(Down(s, c), Remove(c))
  }

  function Down(s: State, c: Conn): State
    requires c in s.conns
  {
    SetConn(s, c, s.conns[c].(state := Disconnected, watched := false)).(closed := s.closed[c := s.closed[c] + 1])
  }

  /** connectDestroyed; its first branch serves the server's destructor. */
  function ConnectDestroyed(s: State, c: Conn): State
    requires c in s.conns
  {
    var down := if s.conns[c].state == Connected then SetConn(s, c, s.conns[c].(state := Disconnected, watched := false)) else s;
    down.(destroyed := s.destroyed[c := s.destroyed[c] + 1])
  }

  function Execute(s: State, task: Task): State
    requires task.conn in s.conns
  {
    match task
    case Establish(c) => ConnectEstablished(s, c)
    case Remove(c) => RemoveConnectionInLoop(s, c)
    case Destroy(c) => ConnectDestroyed(s, c)
    case ForceClose(c) => if IsUp(s, c) then HandleClose(s, c) else s
  }

  function SetMode(s: State, l: Loop, mode: Mode): State {
    s.(modes := s.modes[l := mode])
  }

  function NewConnection(s: State, l: Loop): State {
    if l == BASE then ConnectEstablished(Born(s, l), s.nextId) else Enqueue(Born(s, l), Establish(s.nextId))
  }

  function Born(s: State, l: Loop): State {
    SetConn(s, s.nextId, Connection(l, Connecting, false)).(table := s.table + {s.nextId}, nextId := s.nextId + 1)
  }

  /** The callbacks of Channel::handleEventWithGuard, in order: close, (error,) read, write. */
  function Callback(s: State, d: Dispatch, readZero: bool): State
    requires d.event.conn in s.conns
  {
    if d.stage == AtClose && ClosesOn(d.event) then HandleClose(s, d.event.conn)
    else if d.stage == AtRead && ReadsOn(d.event) && readZero then HandleClose(s, d.event.conn)
    else s
  }

  function NextStage(d: Dispatch): Option<Dispatch> {
    match d.stage
    case AtClose => Some(d.(stage := AtRead))
    case AtRead => Some(d.(stage := AtWrite))
    case AtWrite => None
  }

  /** The current channel's next callback. */
  function Stepped(s: State, l: Loop, readZero: bool): State
    requires l in s.modes && s.modes[l].Handling? && s.modes[l].current.Some? && s.modes[l].current.value.event.conn in s.conns
  {
    var d := s.modes[l].current.value;
    SetMode(Callback(s, d, readZero), l, s.modes[l].(current := NextStage(d)))
  }

  ghost function Apply(s: State, step: Step): State
    requires Enabled(s, step) && Inv(s)
  {
    match step
    case Accept(l) => NewConnection(s, l)
    case PollReturns(l, events) => SetMode(s, l, Handling(None, events))
    case BeginEvent(l) =>
      SetMode(s, l, Handling(Some(Dispatch(s.modes[l].todo[0], AtClose)), s.modes[l].todo[1..]))
    case HandleEvent(l, readZero) => Stepped(s, l, readZero)
    case HandlersDone(l) => SetMode(s, l, Functors)
    case RunTask(l, task) => Execute(s.(queued := s.queued[task := s.queued[task] - 1]), task)
    case FunctorsDone(l) => SetMode(s, l, Polling)
    case Shutdown(c) => if IsUp(s, c) then SetConn(s, c, s.conns[c].(state := Disconnecting)) else s
    case ForceCloseCall(c) =>
      if IsUp(s, c) then SetConn(s, c, s.conns[c].(state := Disconnecting)).(forced := s.forced + {c}) else s
    case QueueForceClose(c) => Enqueue(s, ForceClose(c))
    case SetWatched(c, on) => SetConn(s, c, s.conns[c].(watched := on))
  }

  // ---- The invariant ----

  /** How many functors of each kind are queued for a connection, and how often each call has happened. */
  datatype Tally = Tally(toEstablish: nat, toRemove: nat, toDestroy: nat, established: nat, closed: nat, destroyed: nat)

  function TallyOf(s: State, c: Conn): Tally {
    Tally(s.queued[Establish(c)], s.queued[Remove(c)], s.queued[Destroy(c)], s.established[c], s.closed[c], s.destroyed[c])
  }

  /** Where a connection is in its life, told by its state and the table, fixes its queued functors and history. */
  predicate LifeOk(k: Connection, inTable: bool, t: Tally) {
    match k.state
    case Connecting => inTable && !k.watched && t == Tally(1, 0, 0, 0, 0, 0)
    case Connected => inTable && t == Tally(0, 0, 0, 1, 0, 0)
    case Disconnecting => inTable && t == Tally(0, 0, 0, 1, 0, 0)
    case Disconnected =>
      && !k.watched
      && (if inTable then t == Tally(0, 1, 0, 1, 1, 0) else t == Tally(0, 0, 1, 1, 1, 0) || t == Tally(0, 0, 0, 1, 1, 1))
  }

  ghost predicate Lives(s: State) {
    forall c :: c in s.conns ==> LifeOk(s.conns[c], c in s.table, TallyOf(s, c))
  }

  ghost predicate Numbered(conns: map<Conn, Connection>, nextId: nat, modes: map<Loop, Mode>) {
    1 <= nextId && forall c: Conn :: (c in conns <==> 1 <= c < nextId) && (c in conns ==> conns[c].loop in modes)
  }

  ghost predicate QueuedKnown(conns: map<Conn, Connection>, queued: multiset<Task>, forced: set<Conn>) {
    && (forall task :: task in queued ==> task.conn in conns && (task.ForceClose? ==> task.conn in forced))
    && (forall c :: c in forced ==> c in conns && conns[c].state != Connecting)
  }

  ghost predicate HistoryKnown(conns: map<Conn, Connection>, table: set<Conn>,
                               established: multiset<Conn>, closed: multiset<Conn>, destroyed: multiset<Conn>) {
    && table <= conns.Keys
    && (forall c :: c in established ==> c in conns)
    && (forall c :: c in closed ==> c in conns)
    && (forall c :: c in destroyed ==> c in conns)
  }

  ghost predicate Known(s: State) {
    && Numbered(s.conns, s.nextId, s.modes)
    && QueuedKnown(s.conns, s.queued, s.forced)
    && HistoryKnown(s.conns, s.table, s.established, s.closed, s.destroyed)
    && s.missed == multiset{}
  }

  ghost predicate ConnsOk(s: State) {
    Lives(s) && Known(s)
  }

  /** The channels a loop has yet to handle are distinct, its own and still open. */
  ghost predicate EventsOk(conns: map<Conn, Connection>, l: Loop, mode: Mode) {
    mode.Handling? ==>
      && (forall i, j :: 0 <= i < j < |mode.todo| ==> mode.todo[i].conn != mode.todo[j].conn)
      && (forall e :: e in mode.todo ==> MayHandle(conns, l, e))
      && (mode.current.Some? ==>
            var d := mode.current.value;
            && d.event.conn in conns && conns[d.event.conn].loop == l && GoodEvent(d.event)
            && (forall e :: e in mode.todo ==> e.conn != d.event.conn)
            && (d.stage == AtClose || (d.stage == AtRead && ReadsOn(d.event)) ==> MayHandle(conns, l, d.event)))
  }

  ghost predicate MayHandle(conns: map<Conn, Connection>, l: Loop, e: Event) {
    && e.conn in conns && conns[e.conn].loop == l && GoodEvent(e)
    && (conns[e.conn].state == Connected || conns[e.conn].state == Disconnecting)
  }

  ghost predicate AllEventsOk(conns: map<Conn, Connection>, modes: map<Loop, Mode>) {
    forall l :: l in modes ==> EventsOk(conns, l, modes[l])
  }

  ghost predicate Inv(s: State) {
    BASE in s.modes && ConnsOk(s) && AllEventsOk(s.conns, s.modes)
  }

  /** What is assumed of the kernel: no hang-up without IN that also carries PRI or RDHUP. */
  predicate Assumed(step: Step) {
    step.PollReturns? ==> forall e :: e in step.events ==> GoodEvent(e)
  }

  // ---- Every step keeps it ----

  function Dequeue(s: State, task: Task): State
    requires task in s.queued
  {
    s.(queued := s.queued[task := s.queued[task] - 1])
  }

  /** Lives of connections other than c do not depend on c's changes. */
  ghost predicate SameBut(s: State, s': State, c: Conn) {
    forall d :: d in s'.conns && d != c ==>
      d in s.conns && s'.conns[d] == s.conns[d] && (d in s'.table <==> d in s.table) && TallyOf(s', d) == TallyOf(s, d)
  }

  lemma OneLife(s: State, s': State, c: Conn)
    requires Lives(s) && SameBut(s, s', c)
    requires c in s'.conns ==> LifeOk(s'.conns[c], c in s'.table, TallyOf(s', c))
    ensures Lives(s')
  {
  }

  lemma ChangeKnown(s: State, c: Conn, k: Connection)
    requires Known(s) && c in s.conns && k.loop == s.conns[c].loop && (k.state == Connecting ==> s.conns[c].state == Connecting)
    ensures Numbered(s.conns[c := k], s.nextId, s.modes)
    ensures QueuedKnown(s.conns[c := k], s.queued, s.forced)
    ensures HistoryKnown(s.conns[c := k], s.table, s.established, s.closed, s.destroyed)
  {
  }

  lemma EnqueueKnown(conns: map<Conn, Connection>, queued: multiset<Task>, forced: set<Conn>, task: Task)
    requires QueuedKnown(conns, queued, forced) && task.conn in conns && (task.ForceClose? ==> task.conn in forced)
    ensures QueuedKnown(conns, queued[task := queued[task] + 1], forced)
  {
  }

  lemma DequeueKnown(conns: map<Conn, Connection>, queued: multiset<Task>, forced: set<Conn>, task: Task)
    requires QueuedKnown(conns, queued, forced) && task in queued
    ensures task.conn in conns && QueuedKnown(conns, queued[task := queued[task] - 1], forced)
  {
  }

  lemma HistoryGrows(conns: map<Conn, Connection>, table: set<Conn>,
                     established: multiset<Conn>, closed: multiset<Conn>, destroyed: multiset<Conn>, c: Conn)
    requires HistoryKnown(conns, table, established, closed, destroyed) && c in conns
    ensures HistoryKnown(conns, table, established[c := established[c] + 1], closed, destroyed)
    ensures HistoryKnown(conns, table, established, closed[c := closed[c] + 1], destroyed)
    ensures HistoryKnown(conns, table, established, closed, destroyed[c := destroyed[c] + 1])
    ensures HistoryKnown(conns, table - {c}, established, closed, destroyed)
  {
  }

  lemma EstablishLife(s: State, c: Conn)
    requires Lives(s) && c in s.conns && Establish(c) in s.queued
    ensures s.conns[c].state == Connecting && Lives(ConnectEstablished(Dequeue(s, Establish(c)), c))
  {
    OneLife(s, ConnectEstablished(Dequeue(s, Establish(c)), c), c);
  }

  lemma EstablishKeepsConns(s: State, c: Conn)
    requires ConnsOk(s) && Establish(c) in s.queued
    ensures c in s.conns && s.conns[c].state == Connecting && ConnsOk(ConnectEstablished(Dequeue(s, Establish(c)), c))
  {
    hide Lives, Numbered, QueuedKnown, HistoryKnown;
    DequeueKnown(s.conns, s.queued, s.forced, Establish(c));
    EstablishLife(s, c);
    var k := s.conns[c].(state := Connected, watched := true);
    ChangeKnown(Dequeue(s, Establish(c)), c, k);
    HistoryGrows(s.conns[c := k], s.table, s.established, s.closed, s.destroyed, c);
  }

  lemma RemoveLife(s: State, c: Conn)
    requires Lives(s) && c in s.conns && Remove(c) in s.queued
    ensures c in s.table && Lives(RemoveConnectionInLoop(Dequeue(s, Remove(c)), c))
  {
    OneLife(s, RemoveConnectionInLoop(Dequeue(s, Remove(c)), c), c);
  }

  lemma RemoveKeepsConns(s: State, c: Conn)
    requires ConnsOk(s) && Remove(c) in s.queued
    ensures c in s.table && ConnsOk(RemoveConnectionInLoop(Dequeue(s, Remove(c)), c))
  {
    hide Lives, Numbered, QueuedKnown, HistoryKnown;
    DequeueKnown(s.conns, s.queued, s.forced, Remove(c));
    RemoveLife(s, c);
    EnqueueKnown(s.conns, Dequeue(s, Remove(c)).queued, s.forced, Destroy(c));
    HistoryGrows(s.conns, s.table, s.established, s.closed, s.destroyed, c);
  }

  lemma DestroyLife(s: State, c: Conn)
    requires Lives(s) && c in s.conns && Destroy(c) in s.queued
    ensures s.conns[c].state == Disconnected && !s.conns[c].watched && Lives(ConnectDestroyed(Dequeue(s, Destroy(c)), c))
  {
    OneLife(s, ConnectDestroyed(Dequeue(s, Destroy(c)), c), c);
  }

  lemma DestroyKeepsConns(s: State, c: Conn)
    requires ConnsOk(s) && Destroy(c) in s.queued
    ensures c in s.conns && s.conns[c].state == Disconnected && !s.conns[c].watched
    ensures ConnsOk(ConnectDestroyed(Dequeue(s, Destroy(c)), c))
  {
    hide Lives, Numbered, QueuedKnown, HistoryKnown;
    DequeueKnown(s.conns, s.queued, s.forced, Destroy(c));
    DestroyLife(s, c);
    HistoryGrows(s.conns, s.table, s.established, s.closed, s.destroyed, c);
  }

  lemma DownLife(s: State, c: Conn)
    requires Lives(s) && IsUp(s, c)
    ensures Lives(Enqueue(Down(s, c), Remove(c)))
  {
    OneLife(s, Enqueue(Down(s, c), Remove(c)), c);
  }

  lemma DownKeepsConns(s: State, c: Conn)
    requires ConnsOk(s) && IsUp(s, c)
    ensures ConnsOk(Enqueue(Down(s, c), Remove(c)))
  {
    hide Lives, Numbered, QueuedKnown, HistoryKnown;
    DownLife(s, c);
    var k := s.conns[c].(state := Disconnected, watched := false);
    ChangeKnown(s, c, k);
    HistoryGrows(s.conns[c := k], s.table, s.established, s.closed, s.destroyed, c);
    EnqueueKnown(s.conns[c := k], s.queued, s.forced, Remove(c));
  }

  /** Running a functor at once is the same as queueing it and taking it out. */
  lemma AtOnce(s: State, task: Task)
    ensures Dequeue(Enqueue(s, task), task) == s
  {
    assert s.queued[task := s.queued[task] + 1][task := s.queued[task]] == s.queued;
  }

  lemma CloseKeepsConns(s: State, c: Conn)
    requires ConnsOk(s) && IsUp(s, c)
    ensures ConnsOk(HandleClose(s, c))
  {
    hide ConnsOk;
    DownKeepsConns(s, c);
    RemoveKeepsConns(Enqueue(Down(s, c), Remove(c)), c);
    AtOnce(Down(s, c), Remove(c));
  }

  lemma DropKeepsConns(s: State, c: Conn)
    requires ConnsOk(s) && ForceClose(c) in s.queued
    ensures c in s.conns && ConnsOk(Dequeue(s, ForceClose(c)))
  {
    hide Numbered, QueuedKnown, HistoryKnown;
    DequeueKnown(s.conns, s.queued, s.forced, ForceClose(c));
    OneLife(s, Dequeue(s, ForceClose(c)), c);
  }

  lemma NewLife(s: State)
    requires Known(s)
    ensures TallyOf(s, s.nextId) == Tally(0, 0, 0, 0, 0, 0) && s.nextId !in s.conns
  {
    assert s.nextId !in s.conns;
    assert Establish(s.nextId) !in s.queued && Remove(s.nextId) !in s.queued && Destroy(s.nextId) !in s.queued;
    assert s.nextId !in s.established && s.nextId !in s.closed && s.nextId !in s.destroyed;
  }

  lemma BornKeepsLives(s: State, l: Loop)
    requires Lives(s) && TallyOf(s, s.nextId) == Tally(0, 0, 0, 0, 0, 0)
    ensures Lives(Enqueue(Born(s, l), Establish(s.nextId)))
  {
    OneLife(s, Enqueue(Born(s, l), Establish(s.nextId)), s.nextId);
  }

  lemma BornNumbered(s: State, k: Connection)
    requires Numbered(s.conns, s.nextId, s.modes) && k.loop in s.modes
    ensures Numbered(s.conns[s.nextId := k], s.nextId + 1, s.modes)
  {
  }

  lemma BornQueued(s: State, k: Connection)
    requires QueuedKnown(s.conns, s.queued, s.forced) && s.nextId !in s.conns
    ensures QueuedKnown(s.conns[s.nextId := k], s.queued, s.forced)
  {
  }

  lemma BornHistory(s: State, k: Connection)
    requires HistoryKnown(s.conns, s.table, s.established, s.closed, s.destroyed)
    ensures HistoryKnown(s.conns[s.nextId := k], s.table + {s.nextId}, s.established, s.closed, s.destroyed)
  {
  }

  lemma BornKnown(s: State, l: Loop)
    requires Known(s) && l in s.modes && s.nextId !in s.conns
    ensures Known(Enqueue(Born(s, l), Establish(s.nextId)))
  {
    hide Numbered, QueuedKnown, HistoryKnown;
    var k := Connection(l, Connecting, false);
    BornNumbered(s, k);
    BornQueued(s, k);
    BornHistory(s, k);
    EnqueueKnown(s.conns[s.nextId := k], s.queued, s.forced, Establish(s.nextId));
  }

  lemma BornKeepsConns(s: State, l: Loop)
    requires ConnsOk(s) && l in s.modes
    ensures ConnsOk(Enqueue(Born(s, l), Establish(s.nextId)))
  {
    hide Lives, Known;
    NewLife(s);
    BornKeepsLives(s, l);
    BornKnown(s, l);
  }

  lemma BirthKeepsConns(s: State, l: Loop)
    requires ConnsOk(s) && l in s.modes
    ensures ConnsOk(NewConnection(s, l))
  {
    hide ConnsOk;
    BornKeepsConns(s, l);
    EstablishKeepsConns(Enqueue(Born(s, l), Establish(s.nextId)), s.nextId);
    AtOnce(Born(s, l), Establish(s.nextId));
  }

  // ---- Events ----

  /** Events stay good when a connection that is not down changes without going down. */
  lemma UpEvents(conns: map<Conn, Connection>, modes: map<Loop, Mode>, c: Conn, k: Connection)
    requires AllEventsOk(conns, modes) && c in conns && k.loop == conns[c].loop && (k.state == Connected || k.state == Disconnecting)
    ensures AllEventsOk(conns[c := k], modes)
  {
  }

  lemma NewEvents(conns: map<Conn, Connection>, modes: map<Loop, Mode>, c: Conn, k: Connection)
    requires AllEventsOk(conns, modes) && c !in conns
    ensures AllEventsOk(conns[c := k], modes)
  {
  }

  /** A connection goes down while its loop is not handling events. */
  lemma DownEvents(conns: map<Conn, Connection>, modes: map<Loop, Mode>, c: Conn, k: Connection)
    requires AllEventsOk(conns, modes) && c in conns && k.loop == conns[c].loop
    requires k.loop in modes && !modes[k.loop].Handling?
    ensures AllEventsOk(conns[c := k], modes)
  {
  }

  /** A connection goes down in one of its own callbacks, and the loop moves to the next one. */
  lemma DownInCallback(conns: map<Conn, Connection>, modes: map<Loop, Mode>, l: Loop, k: Connection)
    requires AllEventsOk(conns, modes) && l in modes && modes[l].Handling? && modes[l].current.Some?
    requires var d := modes[l].current.value;
             && k.loop == l && (d.stage == AtRead || (d.stage == AtClose && ClosesOn(d.event)))
    ensures var d := modes[l].current.value;
            && d.event.conn in conns
            && AllEventsOk(conns[d.event.conn := k], modes[l := modes[l].(current := NextStage(d))])
  {
  }

  lemma NextCallback(conns: map<Conn, Connection>, modes: map<Loop, Mode>, l: Loop)
    requires AllEventsOk(conns, modes) && l in modes && modes[l].Handling? && modes[l].current.Some?
    ensures AllEventsOk(conns, modes[l := modes[l].(current := NextStage(modes[l].current.value))])
  {
  }

  lemma NextEvent(conns: map<Conn, Connection>, modes: map<Loop, Mode>, l: Loop)
    requires AllEventsOk(conns, modes) && l in modes && modes[l].Handling? && modes[l].current.None? && modes[l].todo != []
    ensures AllEventsOk(conns, modes[l := Handling(Some(Dispatch(modes[l].todo[0], AtClose)), modes[l].todo[1..])])
  {
    var todo := modes[l].todo;
    assert todo[0] in todo;
    forall e | e in todo[1..] ensures e in todo && e.conn != todo[0].conn {
      var i :| 1 <= i < |todo| && todo[i] == e;
    }
  }

  lemma PolledEvents(s: State, l: Loop, events: seq<Event>)
    requires Inv(s) && Enabled(s, PollReturns(l, events)) && Assumed(PollReturns(l, events))
    ensures AllEventsOk(s.conns, s.modes[l := Handling(None, events)])
  {
    hide Known, TallyOf;
  }

  // ---- Steps ----

  lemma CallbackKeepsInv(s: State, l: Loop, readZero: bool)
    requires Inv(s) && Enabled(s, HandleEvent(l, readZero))
    ensures Inv(Apply(s, HandleEvent(l, readZero)))
  {
    var d := s.modes[l].current.value;
    var c := d.event.conn;
    assert EventsOk(s.conns, l, s.modes[l]);
    if (d.stage == AtClose && ClosesOn(d.event)) || (d.stage == AtRead && ReadsOn(d.event) && readZero) {
      assert MayHandle(s.conns, l, d.event);
      hide Lives, Known, EventsOk;
      CloseKeepsConns(s, c);
      DownInCallback(s.conns, s.modes, l, s.conns[c].(state := Disconnected, watched := false));
      ModesKnown(HandleClose(s, c), l, s.modes[l].(current := NextStage(d)));
    } else {
      hide Lives, Known, EventsOk;
      NextCallback(s.conns, s.modes, l);
      ModesKnown(s, l, s.modes[l].(current := NextStage(d)));
    }
  }

  lemma ModesKnown(s: State, l: Loop, mode: Mode)
    requires ConnsOk(s) && l in s.modes
    ensures ConnsOk(SetMode(s, l, mode))
  {
    hide QueuedKnown, HistoryKnown, LifeOk;
    var s' := SetMode(s, l, mode);
    assert forall c :: c in s.conns ==> TallyOf(s', c) == TallyOf(s, c);
  }

  lemma ModeKeepsInv(s: State, l: Loop, mode: Mode)
    requires Inv(s) && l in s.modes && AllEventsOk(s.conns, s.modes[l := mode])
    ensures Inv(SetMode(s, l, mode))
  {
    hide Lives, Known, EventsOk;
    ModesKnown(s, l, mode);
  }

  lemma TaskKeepsInv(s: State, l: Loop, task: Task)
    requires Inv(s) && Enabled(s, RunTask(l, task))
    ensures Inv(Apply(s, RunTask(l, task)))
  {
    hide Lives, Known, EventsOk;
    var c := task.conn;
    var up, down := s.conns[c].(state := Connected, watched := true), s.conns[c].(state := Disconnected, watched := false);
    match task
    case Establish(_) =>
      EstablishKeepsConns(s, c);
      UpEvents(s.conns, s.modes, c, up);
    case Remove(_) => RemoveKeepsConns(s, c);
    case Destroy(_) => DestroyKeepsConns(s, c);
    case ForceClose(_) =>
      DropKeepsConns(s, c);
      if IsUp(s, c) {
        CloseKeepsConns(Dequeue(s, task), c);
        DownEvents(s.conns, s.modes, c, down);
      }
  }

  lemma AcceptKeepsInv(s: State, l: Loop)
    requires Inv(s) && Enabled(s, Accept(l))
    ensures Inv(Apply(s, Accept(l)))
  {
    hide Lives, Known, AllEventsOk, TallyOf;
    NewLife(s);
    BirthKeepsConns(s, l);
    var k := Connection(l, Connecting, false);
    NewEvents(s.conns, s.modes, s.nextId, k);
    if l == BASE {
      UpEvents(s.conns[s.nextId := k], s.modes, s.nextId, k.(state := Connected, watched := true));
    }
  }

  lemma ChangeLife(s: State, c: Conn, k: Connection)
    requires Lives(s) && IsUp(s, c) && (k.state == Connected || k.state == Disconnecting)
    ensures Lives(SetConn(s, c, k))
  {
    OneLife(s, SetConn(s, c, k), c);
  }

  /** An open connection changes its state or its events without closing. */
  lemma ChangeKeepsInv(s: State, c: Conn, k: Connection)
    requires Inv(s) && IsUp(s, c) && k.loop == s.conns[c].loop && (k.state == Connected || k.state == Disconnecting)
    ensures Inv(SetConn(s, c, k))
  {
    hide Lives, Numbered, QueuedKnown, HistoryKnown, AllEventsOk;
    ChangeLife(s, c, k);
    ChangeKnown(s, c, k);
    UpEvents(s.conns, s.modes, c, k);
  }

  lemma ForcedKeepsInv(s: State, c: Conn)
    requires Inv(s) && IsUp(s, c)
    ensures Inv(s.(forced := s.forced + {c}))
  {
    var s' := s.(forced := s.forced + {c});
    assert QueuedKnown(s.conns, s.queued, s'.forced);
    assert forall d :: d in s.conns ==> TallyOf(s', d) == TallyOf(s, d);
    hide Numbered, HistoryKnown, AllEventsOk, QueuedKnown, LifeOk, TallyOf;
  }

  lemma QueueKeepsInv(s: State, c: Conn)
    requires Inv(s) && c in s.forced
    ensures Inv(Enqueue(s, ForceClose(c)))
  {
    assert c in s.conns;
    hide Numbered, HistoryKnown, AllEventsOk, QueuedKnown;
    EnqueueKnown(s.conns, s.queued, s.forced, ForceClose(c));
    OneLife(s, Enqueue(s, ForceClose(c)), c);
  }

  lemma CallKeepsInv(s: State, step: Step)
    requires Inv(s) && Enabled(s, step) && (step.Shutdown? || step.ForceCloseCall? || step.QueueForceClose? || step.SetWatched?)
    ensures Inv(Apply(s, step))
  {
    hide Inv;
    var c := step.conn;
    if step.QueueForceClose? {
      QueueKeepsInv(s, c);
    } else if step.SetWatched? {
      ChangeKeepsInv(s, c, s.conns[c].(watched := step.on));
    } else if IsUp(s, c) {
      var k := s.conns[c].(state := Disconnecting);
      ChangeKeepsInv(s, c, k);
      if step.ForceCloseCall? {
        ForcedKeepsInv(SetConn(s, c, k), c);
      }
    }
  }

  lemma StepKeepsInv(s: State, step: Step)
    requires Inv(s) && Enabled(s, step) && Assumed(step)
    ensures Inv(Apply(s, step))
  {
    hide ConnsOk, EventsOk;
    match step
    case Accept(l) => AcceptKeepsInv(s, l);
    case PollReturns(l, events) =>
      PolledEvents(s, l, events);
      ModeKeepsInv(s, l, Handling(None, events));
    case BeginEvent(l) =>
      NextEvent(s.conns, s.modes, l);
      ModeKeepsInv(s, l, Handling(Some(Dispatch(s.modes[l].todo[0], AtClose)), s.modes[l].todo[1..]));
    case HandleEvent(l, readZero) => CallbackKeepsInv(s, l, readZero);
    case HandlersDone(l) => QuietMode(s, l, Functors); ModeKeepsInv(s, l, Functors);
    case RunTask(l, task) => TaskKeepsInv(s, l, task);
    case FunctorsDone(l) => QuietMode(s, l, Polling); ModeKeepsInv(s, l, Polling);
    case _ => CallKeepsInv(s, step);
  }

  lemma QuietMode(s: State, l: Loop, mode: Mode)
    requires Inv(s) && !mode.Handling?
    ensures AllEventsOk(s.conns, s.modes[l := mode])
  {
    hide ConnsOk;
  }

  /** What running a functor does, and that connectDestroyed finds its channel without events of interest. */
  lemma RunTaskIs(s: State, l: Loop, task: Task)
    requires Inv(s) && Enabled(s, RunTask(l, task))
    ensures task in s.queued && task.conn in s.conns && (task.Destroy? ==> !s.conns[task.conn].watched)
    ensures Apply(s, RunTask(l, task)) == Execute(Dequeue(s, task), task) && Inv(Apply(s, RunTask(l, task)))
  {
    hide Lives, Known, AllEventsOk, Execute;
    if task.Destroy? {
      DestroyKeepsConns(s, task.conn);
    }
    TaskKeepsInv(s, l, task);
  }

  // ---- Runs ----

  ghost predicate Legal(s: State, steps: seq<Step>)
    requires Inv(s)
    decreases |steps|
  {
    steps == [] ||
    (Enabled(s, steps[0]) && Assumed(steps[0]) && (StepKeepsInv(s, steps[0]); Legal(Apply(s, steps[0]), steps[1..])))
  }

  ghost function Run(s: State, steps: seq<Step>): (s': State)
    requires Inv(s) && Legal(s, steps)
    ensures Inv(s')
    decreases |steps|
  {
    if steps == [] then s else
      StepKeepsInv(s, steps[0]);
      Run(Apply(s, steps[0]), steps[1..])
  }

  ghost predicate Initial(s: State) {
    && BASE in s.modes && (forall l :: l in s.modes ==> s.modes[l] == Polling)
    && s.conns == map[] && s.table == {} && s.nextId == 1 && s.queued == multiset{} && s.forced == {}
    && s.established == multiset{} && s.closed == multiset{} && s.destroyed == multiset{} && s.missed == multiset{}
  }

  /** In every interleaving of the loops and other threads: each accepted connection has run connectEstablished
      exactly once or has it queued exactly once; it closes at most once, and only after that; it is destroyed at
      most once, and only after it closed and left the table; and erasing from the table never misses. */
  lemma EveryConnectionLivesOnce(start: State, steps: seq<Step>, c: Conn)
    requires Initial(start) && Inv(start) && Legal(start, steps) && c in Run(start, steps).conns
    ensures var s := Run(start, steps);
      && s.established[c] + s.queued[Establish(c)] == 1
      && s.closed[c] <= s.established[c]
      && s.destroyed[c] + s.queued[Destroy(c)] <= s.closed[c]
      && (s.closed[c] == 1 <==> s.conns[c].state == Disconnected)
      && (c in s.table <==> s.closed[c] == s.queued[Remove(c)])
      && (c !in s.table ==> s.destroyed[c] + s.queued[Destroy(c)] == 1)
      && s.missed == multiset{}
  {
    var s := Run(start, steps);
    assert LifeOk(s.conns[c], c in s.table, TallyOf(s, c));
  }

  lemma InitialInv(s: State)
    requires Initial(s)
    ensures Inv(s)
  {
    assert forall c :: c !in s.conns;
  }

  /** A connection is destroyed while its own loop runs functors: no callback of its channel is then active
      anywhere, and its channel has been taken out of the poller's interest. */
  lemma DestroyedOutsideHandling(s: State, step: Step, c: Conn)
    requires Inv(s) && Enabled(s, step) && c in s.conns && Apply(s, step).destroyed[c] > s.destroyed[c]
    ensures step == RunTask(s.conns[c].loop, Destroy(c)) && s.closed[c] == 1 && c !in s.table && !s.conns[c].watched
    ensures s.modes[s.conns[c].loop].Functors?
    ensures forall l :: l in s.modes && s.modes[l].Handling? && s.modes[l].current.Some? ==> s.modes[l].current.value.event.conn != c
  {
    hide QueuedKnown, HistoryKnown;
    assert step.RunTask? && step.task == Destroy(c);
    assert LifeOk(s.conns[c], c in s.table, TallyOf(s, c));
  }

  /** The functor or callback of this step that calls handleClose on c, if it does. */
  ghost predicate Closes(s: State, step: Step, c: Conn)
    requires Inv(s) && Enabled(s, step)
  {
    match step
    case HandleEvent(l, readZero) =>
      var d := s.modes[l].current.value;
      && d.event.conn == c
      && ((d.stage == AtClose && d.event.hup && !d.event.isIn)
          || (d.stage == AtRead && (d.event.isIn || d.event.pri || d.event.rdhup) && readZero))
    case RunTask(l, task) => task == ForceClose(c) && IsUp(s, c)
    case _ => false
  }

  lemma LifeOf(s: State, c: Conn)
    requires Inv(s) && c in s.conns
    ensures LifeOk(s.conns[c], c in s.table, TallyOf(s, c))
    ensures IsUp(s, c) ==> s.closed[c] == 0 && c in s.table
  {
    hide AllEventsOk, Known;
  }

  lemma OpenWhenHandled(s: State, l: Loop, c: Conn)
    requires Inv(s) && l in s.modes && s.modes[l].Handling? && s.modes[l].current.Some?
    requires var d := s.modes[l].current.value;
             d.event.conn == c && (d.stage == AtClose || (d.stage == AtRead && ReadsOn(d.event)))
    ensures IsUp(s, c)
  {
    hide ConnsOk;
    assert EventsOk(s.conns, l, s.modes[l]);
  }

  /** handleClose is entered in kConnected or kDisconnecting, never twice for one connection. */
  lemma CloseEntry(s: State, step: Step, c: Conn)
    requires Inv(s) && Enabled(s, step) && c in s.conns && Closes(s, step, c)
    ensures s.conns[c].state == Connected || s.conns[c].state == Disconnecting
    ensures s.closed[c] == 0 && Apply(s, step).closed[c] == 1 && Apply(s, step).conns[c].state == Disconnected
  {
    hide Inv, LifeOk;
    LifeOf(s, c);
    if step.HandleEvent? {
      OpenWhenHandled(s, step.at, c);
    }
  }

  /** The assertion at the head of handleClose, as written in the source. */
  predicate WrittenAssertion(state: ConnState) {
    state == Connected || state == Disconnected
  }

  /** A call of shutdown, forceCloseWithDelay or forceClose on c. */
  predicate Shuts(step: Step, c: Conn) {
    step == Shutdown(c) || step == ForceCloseCall(c)
  }

  /** Some such call of the run found c up. */
  ghost predicate ShutWhileUp(s: State, steps: seq<Step>, c: Conn)
    requires Inv(s) && Legal(s, steps)
    decreases |steps|
  {
    steps != [] &&
    ((Shuts(steps[0], c) && IsUp(s, c)) || (StepKeepsInv(s, steps[0]); ShutWhileUp(Apply(s, steps[0]), steps[1..], c)))
  }

  predicate GoingDown(s: State, c: Conn) {
    c in s.conns && (s.conns[c].state == Disconnecting || s.conns[c].state == Disconnected)
  }

  predicate IsDisconnecting(s: State, c: Conn) {
    c in s.conns && s.conns[c].state == Disconnecting
  }

  /** Nothing but such a call makes c Disconnecting, and nothing makes it open again. */
  ghost predicate OnlyDown(s: State, t: State, c: Conn) {
    (GoingDown(s, c) ==> GoingDown(t, c)) && (IsDisconnecting(t, c) ==> IsDisconnecting(s, c))
  }

  lemma TaskOnlyDown(s: State, l: Loop, task: Task, c: Conn)
    requires Inv(s) && Enabled(s, RunTask(l, task))
    ensures OnlyDown(s, Apply(s, RunTask(l, task)), c)
  {
    hide Inv;
    LifeOf(s, task.conn);
  }

  lemma EventOnlyDown(s: State, l: Loop, readZero: bool, c: Conn)
    requires Inv(s) && Enabled(s, HandleEvent(l, readZero))
    ensures OnlyDown(s, Apply(s, HandleEvent(l, readZero)), c)
  {
    hide Inv;
    CurrentKnown(s, l);
  }

  lemma AcceptOnlyDown(s: State, l: Loop, c: Conn)
    requires Inv(s) && Enabled(s, Accept(l))
    ensures OnlyDown(s, Apply(s, Accept(l)), c)
  {
    hide Inv;
    NewIsAbsent(s);
  }

  lemma ShutStep(s: State, step: Step, c: Conn)
    requires Inv(s) && Enabled(s, step)
    ensures var t := Apply(s, step);
            && (GoingDown(s, c) ==> GoingDown(t, c))
            && (Shuts(step, c) && IsUp(s, c) ==> GoingDown(t, c))
            && (IsDisconnecting(t, c) ==> IsDisconnecting(s, c) || (Shuts(step, c) && IsUp(s, c)))
  {
    hide Inv, Execute, Stepped, NewConnection;
    match step
    case RunTask(l, task) => TaskOnlyDown(s, l, task, c);
    case HandleEvent(l, readZero) => EventOnlyDown(s, l, readZero, c);
    case Accept(l) => AcceptOnlyDown(s, l, c);
    case _ =>
  }

  lemma {:induction false} ShutRun(s: State, steps: seq<Step>, c: Conn)
    requires Inv(s) && Legal(s, steps)
    ensures var t := Run(s, steps);
            && (GoingDown(s, c) || ShutWhileUp(s, steps, c) ==> GoingDown(t, c))
            && (IsDisconnecting(t, c) ==> IsDisconnecting(s, c) || ShutWhileUp(s, steps, c))
    decreases |steps|
  {
    hide Inv, Apply, Enabled, Assumed, GoingDown, IsDisconnecting;
    if steps == [] {
    } else {
      StepKeepsInv(s, steps[0]);
      ShutStep(s, steps[0], c);
      ShutRun(Apply(s, steps[0]), steps[1..], c);
    }
  }

  /** Where handleClose is entered the written assertion holds if and only if no call of shutdown,
      forceCloseWithDelay or forceClose has found the connection up. */
  lemma WrittenAssertionHolds(start: State, steps: seq<Step>, step: Step, c: Conn)
    requires Initial(start) && Inv(start) && Legal(start, steps)
    requires Enabled(Run(start, steps), step) && c in Run(start, steps).conns && Closes(Run(start, steps), step, c)
    ensures WrittenAssertion(Run(start, steps).conns[c].state) <==> !ShutWhileUp(start, steps, c)
  {
    CloseEntry(Run(start, steps), step, c);
    ShutRun(start, steps, c);
    hide Inv, Legal, Run, Closes, Enabled, ShutWhileUp;
  }

  // ---- forceClose ----

  /** Some call of forceClose in the run found c up. */
  ghost predicate ForcedWhileUp(s: State, steps: seq<Step>, c: Conn)
    requires Inv(s) && Legal(s, steps)
    decreases |steps|
  {
    steps != [] &&
    ((steps[0] == ForceCloseCall(c) && IsUp(s, c)) || (StepKeepsInv(s, steps[0]); ForcedWhileUp(Apply(s, steps[0]), steps[1..], c)))
  }

  lemma ForcedStep(s: State, step: Step, c: Conn)
    requires Inv(s) && Enabled(s, step)
    ensures c in Apply(s, step).forced <==> c in s.forced || (step == ForceCloseCall(c) && IsUp(s, c))
  {
    hide Inv;
    if step.HandleEvent? {
      CurrentKnown(s, step.at);
    }
  }

  /** A thread may queue forceCloseInLoop for c if and only if a call of forceClose has found c up. */
  lemma {:induction false} ForcedExactly(s: State, steps: seq<Step>, c: Conn)
    requires Inv(s) && Legal(s, steps)
    ensures var t := Run(s, steps);
            && (c in t.forced <==> c in s.forced || ForcedWhileUp(s, steps, c))
            && (Enabled(t, QueueForceClose(c)) <==> c in t.forced)
    decreases |steps|
  {
    hide Inv, Apply, Assumed;
    if steps == [] {
    } else {
      StepKeepsInv(s, steps[0]);
      ForcedStep(s, steps[0], c);
      ForcedExactly(Apply(s, steps[0]), steps[1..], c);
    }
  }

  /** Such a thread's functor gets into the queue of the connection's own loop. */
  lemma ForceCloseQueues(s: State, c: Conn)
    requires Inv(s) && c in s.forced
    ensures Enabled(s, QueueForceClose(c)) && c in s.conns
    ensures var t := Apply(s, QueueForceClose(c));
            ForceClose(c) in t.queued && LoopOf(t, ForceClose(c)) == s.conns[c].loop && t == s.(queued := t.queued)
  {
    ForcedKnown(s, c);
    hide Inv;
  }

  /** forceCloseInLoop closes the connection if it is still up, and otherwise changes nothing. */
  lemma ForceCloseCloses(s: State, l: Loop, c: Conn)
    requires Inv(s) && Enabled(s, RunTask(l, ForceClose(c)))
    ensures var t := Apply(s, RunTask(l, ForceClose(c)));
            c in t.conns
            && if IsUp(s, c) then t.closed[c] == 1 && t.conns[c].state == Disconnected && !t.conns[c].watched
               else t == s.(queued := t.queued)
  {
    hide Inv, LifeOk;
    LifeOf(s, c);
  }

  lemma ForcedKnown(s: State, c: Conn)
    requires Inv(s) && c in s.forced
    ensures c in s.conns
  {
    hide Lives, AllEventsOk, Numbered, HistoryKnown;
  }

  /** shutdown, then the peer's end of file: whenever a readable channel is about to be read, a call of shutdown
      at that moment makes the read at end of file violate the written assertion. */
  lemma ShutdownThenEndOfFile(s: State, l: Loop)
    requires Inv(s) && Enabled(s, HandleEvent(l, true))
    requires var d := s.modes[l].current.value; d.stage == AtRead && (d.event.isIn || d.event.pri || d.event.rdhup)
    ensures var c := s.modes[l].current.value.event.conn;
            && c in s.conns
            && (CallKeepsInv(s, Shutdown(c));
                var s' := Apply(s, Shutdown(c));
                Enabled(s', HandleEvent(l, true)) && Closes(s', HandleEvent(l, true), c) && !WrittenAssertion(s'.conns[c].state))
  {
    hide Inv;
    var c := s.modes[l].current.value.event.conn;
    OpenWhenHandled(s, l, c);
    CallKeepsInv(s, Shutdown(c));
  }

  /** The connection of the event being handled exists. */
  lemma CurrentKnown(s: State, l: Loop)
    requires Inv(s) && l in s.modes && s.modes[l].Handling? && s.modes[l].current.Some?
    ensures s.modes[l].current.value.event.conn in s.conns
  {
    hide ConnsOk;
    assert EventsOk(s.conns, l, s.modes[l]);
  }

  lemma ClosedOnce(s: State, c: Conn)
    requires Inv(s) && c in s.conns
    ensures s.closed[c] <= 1 && (s.closed[c] == 1 <==> s.conns[c].state == Disconnected)
  {
    hide Inv;
    LifeOf(s, c);
  }

  lemma NewIsAbsent(s: State)
    requires Inv(s)
    ensures s.nextId !in s.table && s.nextId !in s.conns && s.established[s.nextId] == 0 && s.queued[Establish(s.nextId)] == 0
  {
    hide AllEventsOk, Lives;
    NewLife(s);
  }

  lemma NewIsPresent(s: State, t: State, l: Loop)
    requires t == NewConnection(s, l) && s.established[s.nextId] == 0 && s.queued[Establish(s.nextId)] == 0
    ensures s.nextId in t.table && t.established[s.nextId] + t.queued[Establish(s.nextId)] == 1
  {
  }

  // ---- Why the assumption on events ----

  lemma StepClosed(s: State, l: Loop, readZero: bool)
    requires l in s.modes && s.modes[l].Handling? && s.modes[l].current.Some? && s.modes[l].current.value.event.conn in s.conns
    ensures var d, s' := s.modes[l].current.value, Stepped(s, l, readZero);
            && s'.closed[d.event.conn] == s.closed[d.event.conn]
                 + (if (d.stage == AtClose && d.event.hup && !d.event.isIn)
                       || (d.stage == AtRead && (d.event.isIn || d.event.pri || d.event.rdhup) && readZero) then 1 else 0)
            && l in s'.modes && s'.modes[l] == s.modes[l].(current := NextStage(d)) && d.event.conn in s'.conns
  {
  }

  /** All callbacks of the current channel's event. */
  function Callbacks(s: State, l: Loop, readZero: bool): State
    requires l in s.modes && s.modes[l].Handling? && s.modes[l].current.Some?
    requires s.modes[l].current.value.stage == AtClose && s.modes[l].current.value.event.conn in s.conns
  {
    StepClosed(s, l, readZero);
    var s1 := Stepped(s, l, readZero);
    StepClosed(s1, l, readZero);
    Stepped(Stepped(s1, l, readZero), l, readZero)
  }

  lemma CallbacksAre(s: State, l: Loop, readZero: bool)
    requires l in s.modes && s.modes[l].Handling? && s.modes[l].current.Some?
    requires s.modes[l].current.value.stage == AtClose && s.modes[l].current.value.event.conn in s.conns
    ensures s.modes[l].current.value.event.conn in Callbacks(s, l, readZero).conns
  {
    hide Stepped;
    StepClosed(s, l, readZero);
    var s1 := Stepped(s, l, readZero);
    StepClosed(s1, l, readZero);
    StepClosed(Stepped(s1, l, readZero), l, readZero);
  }

  /** The callbacks of an open connection's event call handleClose for a hang-up without IN, and for a read at end of
      file, which IN, PRI or RDHUP set off; otherwise they leave the connection open. */
  lemma EventCloses(s: State, l: Loop, readZero: bool)
    requires Inv(s) && l in s.modes && s.modes[l].Handling? && s.modes[l].current.Some?
    requires s.modes[l].current.value.stage == AtClose
    ensures var e := s.modes[l].current.value.event;
            && e.conn in s.conns
            && var t := Callbacks(s, l, readZero);
               && IsUp(s, e.conn) && s.closed[e.conn] == 0 && e.conn in t.conns
               && t.closed[e.conn] == (if (e.hup && !e.isIn) || (readZero && (e.isIn || e.pri || e.rdhup)) then 1 else 0)
  {
    var e := s.modes[l].current.value.event;
    CurrentKnown(s, l);
    OpenWhenHandled(s, l, e.conn);
    LifeOf(s, e.conn);
    CurrentIsGood(s, l);
    hide Inv, Stepped, LifeOk;
    StepClosed(s, l, readZero);
    var s1 := Stepped(s, l, readZero);
    StepClosed(s1, l, readZero);
    StepClosed(Stepped(s1, l, readZero), l, readZero);
  }

  lemma StepTouchesOne(s: State, l: Loop, readZero: bool, c: Conn)
    requires l in s.modes && s.modes[l].Handling? && s.modes[l].current.Some? && s.modes[l].current.value.event.conn in s.conns
    requires c != s.modes[l].current.value.event.conn
    ensures Stepped(s, l, readZero).closed[c] == s.closed[c]
  {
  }

  /** And they close no other connection. */
  lemma CallbacksTouchOne(s: State, l: Loop, readZero: bool, c: Conn)
    requires l in s.modes && s.modes[l].Handling? && s.modes[l].current.Some?
    requires s.modes[l].current.value.stage == AtClose && s.modes[l].current.value.event.conn in s.conns
    requires c != s.modes[l].current.value.event.conn
    ensures Callbacks(s, l, readZero).closed[c] == s.closed[c]
  {
    hide Stepped;
    StepTouchesOne(s, l, readZero, c);
    StepClosed(s, l, readZero);
    var s1 := Stepped(s, l, readZero);
    StepTouchesOne(s1, l, readZero, c);
    StepClosed(s1, l, readZero);
    StepTouchesOne(Stepped(s1, l, readZero), l, readZero, c);
  }

  lemma CurrentIsGood(s: State, l: Loop)
    requires Inv(s) && l in s.modes && s.modes[l].Handling? && s.modes[l].current.Some?
    ensures GoodEvent(s.modes[l].current.value.event)
  {
    hide ConnsOk;
    assert EventsOk(s.conns, l, s.modes[l]);
  }

  /** An open connection's event makes handleClose run at most once, whatever its read returns, exactly when it
      is not a hang-up without IN but with PRI or RDHUP; such an event with a read at end of file closes twice. */
  lemma ClosesTwiceExactlyOnBadEvents(s: State, l: Loop)
    requires ConnsOk(s) && l in s.modes && s.modes[l].Handling? && s.modes[l].current.Some?
    requires var d := s.modes[l].current.value; d.stage == AtClose && IsUp(s, d.event.conn) && s.conns[d.event.conn].loop == l
    ensures var e := s.modes[l].current.value.event;
            !(e.hup && !e.isIn && (e.pri || e.rdhup)) <==> forall readZero :: Stepped(Stepped(s, l, readZero), l, readZero).closed[e.conn] <= 1
  {
    var e := s.modes[l].current.value.event;
    assert LifeOk(s.conns[e.conn], e.conn in s.table, TallyOf(s, e.conn));
    hide ConnsOk, Stepped;
    forall readZero
      ensures Stepped(Stepped(s, l, readZero), l, readZero).closed[e.conn]
           == (if e.hup && !e.isIn then 1 else 0) + (if (e.isIn || e.pri || e.rdhup) && readZero then 1 else 0)
    {
      StepClosed(s, l, readZero);
      StepClosed(Stepped(s, l, readZero), l, readZero);
    }
    assert e.hup && !e.isIn && (e.pri || e.rdhup) ==> Stepped(Stepped(s, l, true), l, true).closed[e.conn] == 2;
  }

  /** On the base loop the second close then erases an entry that is gone. */
  lemma BadEventErasesTwice(s: State)
    requires ConnsOk(s) && BASE in s.modes && s.modes[BASE].Handling? && s.modes[BASE].current.Some?
    requires var d := s.modes[BASE].current.value;
             d.stage == AtClose && IsUp(s, d.event.conn) && s.conns[d.event.conn].loop == BASE && !GoodEvent(d.event)
    ensures var c := s.modes[BASE].current.value.event.conn;
            Stepped(Stepped(s, BASE, true), BASE, true).missed[c] == 1
  {
    var c := s.modes[BASE].current.value.event.conn;
    assert LifeOk(s.conns[c], c in s.table, TallyOf(s, c)) && s.missed[c] == 0;
    hide ConnsOk;
  }

  // ---- Runs that fail ----

  lemma RunCons(s: State, step: Step, steps: seq<Step>)
    requires Inv(s) && Enabled(s, step) && Assumed(step) && Inv(Apply(s, step)) && Legal(Apply(s, step), steps)
    ensures Legal(s, [step] + steps) && Run(s, [step] + steps) == Run(Apply(s, step), steps)
  {
    hide Inv, Apply, Enabled, Assumed;
    assert ([step] + steps)[1..] == steps;
  }

  /** The base loop polls, and connection 1 is its own, open and watched. */
  predicate OneOpen(s: State) {
    && BASE in s.modes && s.modes[BASE] == Polling
    && 1 in s.conns && s.conns[1] == Connection(BASE, Connected, true)
  }

  const ACCEPT_ONE: seq<Step> := [PollReturns(BASE, []), Accept(BASE), HandlersDone(BASE), FunctorsDone(BASE)]

  /** The acceptor gets one connection, which goes to the base loop. */
  lemma AcceptOne(start: State)
    requires Initial(start)
    ensures Inv(start) && Legal(start, ACCEPT_ONE) && OneOpen(Run(start, ACCEPT_ONE))
  {
    InitialInv(start);
    var s1 := Apply(start, PollReturns(BASE, []));
    StepKeepsInv(start, PollReturns(BASE, []));
    var s2 := Apply(s1, Accept(BASE));
    StepKeepsInv(s1, Accept(BASE));
    var s3 := Apply(s2, HandlersDone(BASE));
    StepKeepsInv(s2, HandlersDone(BASE));
    var s4 := Apply(s3, FunctorsDone(BASE));
    StepKeepsInv(s3, FunctorsDone(BASE));
    assert OneOpen(s4);
    hide Inv, Apply, Enabled, OneOpen;
    RunCons(s3, FunctorsDone(BASE), []);
    RunCons(s2, HandlersDone(BASE), [FunctorsDone(BASE)] + []);
    RunCons(s1, Accept(BASE), [HandlersDone(BASE)] + ([FunctorsDone(BASE)] + []));
    RunCons(start, PollReturns(BASE, []), [Accept(BASE)] + ([HandlersDone(BASE)] + ([FunctorsDone(BASE)] + [])));
    assert ACCEPT_ONE == [PollReturns(BASE, [])] + ([Accept(BASE)] + ([HandlersDone(BASE)] + ([FunctorsDone(BASE)] + [])));
  }

  lemma {:induction false} RunConcat(s: State, steps: seq<Step>, more: seq<Step>)
    requires Inv(s) && Legal(s, steps) && Legal(Run(s, steps), more)
    ensures Legal(s, steps + more) && Run(s, steps + more) == Run(Run(s, steps), more)
    decreases |steps|
  {
    hide Inv, Apply, Enabled, Assumed;
    if steps == [] {
      assert steps + more == more;
    } else {
      StepKeepsInv(s, steps[0]);
      RunConcat(Apply(s, steps[0]), steps[1..], more);
      assert (steps + more)[1..] == steps[1..] + more;
    }
  }

  const READABLE := Event(1, false, true, false, false, false, false)

  const READ_AFTER_SHUTDOWN: seq<Step> :=
    [PollReturns(BASE, [READABLE]), BeginEvent(BASE), HandleEvent(BASE, true), Shutdown(1)]

  /** A connection is shut down on another thread between the poll that found it readable and the read, which hits
      the end of file: handleClose is entered in kDisconnecting. */
  lemma ShutdownRun(start: State)
    requires Initial(start)
    ensures Inv(start) && Legal(start, ACCEPT_ONE + READ_AFTER_SHUTDOWN)
    ensures var s := Run(start, ACCEPT_ONE + READ_AFTER_SHUTDOWN);
            && Enabled(s, HandleEvent(BASE, true)) && Closes(s, HandleEvent(BASE, true), 1)
            && 1 in s.conns && !WrittenAssertion(s.conns[1].state)
  {
    AcceptOne(start);
    var s := Run(start, ACCEPT_ONE);
    ReadAfterShutdown(s);
    RunConcat(start, ACCEPT_ONE, READ_AFTER_SHUTDOWN);
  }

  lemma ReadAfterShutdown(s: State)
    requires Inv(s) && OneOpen(s)
    ensures Legal(s, READ_AFTER_SHUTDOWN)
    ensures var t := Run(s, READ_AFTER_SHUTDOWN);
            && Enabled(t, HandleEvent(BASE, true)) && Closes(t, HandleEvent(BASE, true), 1)
            && 1 in t.conns && t.conns[1].state == Disconnecting
  {
    hide Inv, OneOpen, Closes;
    var s2 := ReadStarts(s);
    var s4 := ReadComes(s2);
    var first, last := [PollReturns(BASE, [READABLE]), BeginEvent(BASE)], [HandleEvent(BASE, true), Shutdown(1)];
    RunConcat(s, first, last);
    assert READ_AFTER_SHUTDOWN == first + last;
  }

  lemma ReadStarts(s: State) returns (t: State)
    requires Inv(s) && OneOpen(s)
    ensures var steps := [PollReturns(BASE, [READABLE]), BeginEvent(BASE)]; Legal(s, steps) && Run(s, steps) == t
    ensures Inv(t) && BASE in t.modes && t.modes[BASE] == Handling(Some(Dispatch(READABLE, AtClose)), [])
    ensures 1 in t.conns && t.conns[1] == Connection(BASE, Connected, true)
  {
    hide Inv;
    MayBeReported(s, READABLE);
    var s1 := Apply(s, PollReturns(BASE, [READABLE]));
    StepKeepsInv(s, PollReturns(BASE, [READABLE]));
    t := Apply(s1, BeginEvent(BASE));
    StepKeepsInv(s1, BeginEvent(BASE));
    hide Apply, Enabled;
    RunCons(s1, BeginEvent(BASE), []);
    RunCons(s, PollReturns(BASE, [READABLE]), [BeginEvent(BASE)] + []);
    assert [PollReturns(BASE, [READABLE]), BeginEvent(BASE)] == [PollReturns(BASE, [READABLE])] + ([BeginEvent(BASE)] + []);
  }

  lemma ReadComes(s: State) returns (t: State)
    requires Inv(s) && BASE in s.modes && s.modes[BASE] == Handling(Some(Dispatch(READABLE, AtClose)), [])
    requires 1 in s.conns && s.conns[1] == Connection(BASE, Connected, true)
    ensures var steps := [HandleEvent(BASE, true), Shutdown(1)]; Legal(s, steps) && Run(s, steps) == t
    ensures Inv(t) && Enabled(t, HandleEvent(BASE, true)) && Closes(t, HandleEvent(BASE, true), 1)
    ensures 1 in t.conns && t.conns[1].state == Disconnecting
  {
    hide Inv;
    var s1 := Apply(s, HandleEvent(BASE, true));
    StepKeepsInv(s, HandleEvent(BASE, true));
    t := Apply(s1, Shutdown(1));
    StepKeepsInv(s1, Shutdown(1));
    hide Apply, Enabled, Closes;
    RunCons(s1, Shutdown(1), []);
    RunCons(s, HandleEvent(BASE, true), [Shutdown(1)] + []);
    assert [HandleEvent(BASE, true), Shutdown(1)] == [HandleEvent(BASE, true)] + ([Shutdown(1)] + []);
  }

  const HANG_UP := Event(1, true, false, true, false, false, false)

  /** After a legal run the kernel may report a hang-up without IN but with PRI. With a read at end of file its
      callbacks close connection 1 twice, and the second erase finds no entry. */
  lemma BadEventRun(start: State)
    requires Initial(start)
    ensures Inv(start) && Legal(start, ACCEPT_ONE)
    ensures var s := Run(start, ACCEPT_ONE);
            && Enabled(s, PollReturns(BASE, [HANG_UP])) && !Assumed(PollReturns(BASE, [HANG_UP]))
            && var t := SetMode(s, BASE, Handling(Some(Dispatch(HANG_UP, AtClose)), []));
               && 1 in s.conns
               && Callbacks(t, BASE, true).closed[1] == 2 && Callbacks(t, BASE, true).missed[1] == 1
  {
    AcceptOne(start);
    hide Inv, Legal, Run, Enabled, OneOpen;
    BadEventOnOpen(Run(start, ACCEPT_ONE));
  }

  lemma BadEventOnOpen(s: State)
    requires Inv(s) && OneOpen(s)
    ensures Enabled(s, PollReturns(BASE, [HANG_UP])) && !Assumed(PollReturns(BASE, [HANG_UP]))
    ensures var t := SetMode(s, BASE, Handling(Some(Dispatch(HANG_UP, AtClose)), []));
            && 1 in s.conns
            && Callbacks(t, BASE, true).closed[1] == 2 && Callbacks(t, BASE, true).missed[1] == 1
  {
    hide Inv, LifeOk, Callbacks, Enabled;
    MayBeReported(s, HANG_UP);
    assert HANG_UP in [HANG_UP];
    LifeOf(s, 1);
    NoneMissed(s);
    DoubleClose(SetMode(s, BASE, Handling(Some(Dispatch(HANG_UP, AtClose)), [])));
  }

  lemma MayBeReported(s: State, e: Event)
    requires OneOpen(s) && e.conn == 1
    ensures Enabled(s, PollReturns(BASE, [e]))
  {
  }

  lemma NoneMissed(s: State)
    requires Inv(s)
    ensures s.missed == multiset{}
  {
  }

  lemma DoubleClose(t: State)
    requires BASE in t.modes && t.modes[BASE] == Handling(Some(Dispatch(HANG_UP, AtClose)), [])
    requires 1 in t.conns && t.conns[1] == Connection(BASE, Connected, true) && t.closed[1] == 0 && t.missed[1] == 0 && 1 in t.table
    ensures Callbacks(t, BASE, true).closed[1] == 2 && Callbacks(t, BASE, true).missed[1] == 1
  {
  }

  // ---- Why startRead after the close is excluded ----

  /** startReadInLoop does not look at the state of the connection. Run between handleClose and connectDestroyed, it
      makes Channel::remove find events of interest: its assertion holds if and only if the channel stayed off. */
  lemma StartReadAfterClose(s: State, c: Conn, on: bool)
    requires Inv(s) && Destroy(c) in s.queued
    ensures c in s.conns
    ensures var t := SetConn(s, c, s.conns[c].(watched := on));
            !ConnectDestroyed(t, c).conns[c].watched <==> !on
  {
    hide AllEventsOk;
    DestroyKeepsConns(s, c);
  }

  const CLOSE_ONE: seq<Step> :=
    [PollReturns(BASE, [READABLE]), BeginEvent(BASE)]
    + ([HandleEvent(BASE, true)] + ([HandleEvent(BASE, true)] + ([HandleEvent(BASE, true)] + ([HandlersDone(BASE)] + []))))

  /** Connection 1 is read at its end of file, which closes it and queues connectDestroyed. */
  lemma CloseAtEndOfFile(s: State)
    requires Inv(s) && OneOpen(s)
    ensures Legal(s, CLOSE_ONE)
    ensures var t := Run(s, CLOSE_ONE);
            && 1 in t.conns && t.conns[1].loop == BASE && Destroy(1) in t.queued && BASE in t.modes && t.modes[BASE] == Functors
  {
    hide Inv, OneOpen;
    var s2 := ReadStarts(s);
    var rest := ReadCloses(s2);
    RunConcat(s, [PollReturns(BASE, [READABLE]), BeginEvent(BASE)], rest);
  }

  lemma ReadCloses(s: State) returns (steps: seq<Step>)
    requires Inv(s) && BASE in s.modes && s.modes[BASE] == Handling(Some(Dispatch(READABLE, AtClose)), [])
    requires 1 in s.conns && s.conns[1] == Connection(BASE, Connected, true)
    ensures steps == [HandleEvent(BASE, true)] + ([HandleEvent(BASE, true)] + ([HandleEvent(BASE, true)] + ([HandlersDone(BASE)] + [])))
    ensures Legal(s, steps)
    ensures var t := Run(s, steps);
            && 1 in t.conns && t.conns[1].loop == BASE && Destroy(1) in t.queued && BASE in t.modes && t.modes[BASE] == Functors
  {
    hide Inv;
    var h, d := HandleEvent(BASE, true), HandlersDone(BASE);
    var s1 := Apply(s, h);
    StepKeepsInv(s, h);
    var s2 := Apply(s1, h);
    StepKeepsInv(s1, h);
    var s3 := Apply(s2, h);
    StepKeepsInv(s2, h);
    var s4 := Apply(s3, d);
    StepKeepsInv(s3, d);
    hide Apply, Enabled;
    RunCons(s3, d, []);
    RunCons(s2, h, [d] + []);
    RunCons(s1, h, [h] + ([d] + []));
    RunCons(s, h, [h] + ([h] + ([d] + [])));
    steps := [h] + ([h] + ([h] + ([d] + [])));
  }

  /** Such a run from the start: connection 1 is closed at end of file, startRead then runs, and connectDestroyed,
      the next functor, finds events of interest. Without startRead it finds none. */
  lemma StartReadRun(start: State, on: bool)
    requires Initial(start)
    ensures Inv(start) && Legal(start, ACCEPT_ONE + CLOSE_ONE)
    ensures var s := Run(start, ACCEPT_ONE + CLOSE_ONE);
            && 1 in s.conns
            && var t := SetConn(s, 1, s.conns[1].(watched := on));
               && Enabled(t, RunTask(BASE, Destroy(1)))
               && (Execute(Dequeue(t, Destroy(1)), Destroy(1)).conns[1].watched <==> on)
  {
    hide Inv, OneOpen, Legal, Run, LifeOk;
    AcceptOne(start);
    CloseAtEndOfFile(Run(start, ACCEPT_ONE));
    RunConcat(start, ACCEPT_ONE, CLOSE_ONE);
    var s := Run(start, ACCEPT_ONE + CLOSE_ONE);
    DestroyQueued(s, 1);
  }

  lemma DestroyQueued(s: State, c: Conn)
    requires Inv(s) && Destroy(c) in s.queued && c in s.conns
    ensures s.conns[c].state == Disconnected
  {
    hide Inv;
    LifeOf(s, c);
  }
}
