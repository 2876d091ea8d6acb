/** The WebSocket rooms as cooperative tasks. One task runs at a time; another can run
    only where the running one suspends, that is at an await. A cancelled task gets
    its `CancelledError` when it is resumed from its next suspension. The statements
    between two awaits are separate steps here, all taken by the running task. */
module RoomTasks {
  import opened Options

  type Room = nat
  type TaskId = nat // a handler's task also names its socket

  /** Progress through a critical section: of `connect` (add the socket, ensure a relay)
      or of `disconnect` (discard the socket, drop an empty room). */
  datatype Section = Waiting | Entered | Changed | Settled

  datatype HandlerPc =
    | Accepting
    | Joining(section: Section)
    | Receiving
    | Closing                     // closing the socket after an unexpected error
    | Leaving(section: Section)
    | Ended

  datatype RelayPc =
    | Created                     // not started yet
    | Subscribing
    | Listening
    | Sending(todo: seq<TaskId>, dead: seq<TaskId>)
    | AwaitingSend(todo: seq<TaskId>, dead: seq<TaskId>) // todo[0] is being sent to
    | Removing(gone: seq<TaskId>, section: Section)
    | CleaningUp
    | Over

  datatype Task =
    | Handler(room: Room, hpc: HandlerPc)
    | Relay(room: Room, rpc: RelayPc)

  /** One `send_text`. */
  datatype Send = Send(relay: TaskId, room: Room, socket: TaskId)

  datatype State = State(
    rooms: map<Room, set<TaskId>>,   // _connections
    relays: map<Room, TaskId>,       // _relay_tasks
    lock: Option<TaskId>,
    running: Option<TaskId>,
    tasks: map<TaskId, Task>,
    cancelled: set<TaskId>,          // tasks whose cancel() has been called
    sends: seq<Send>                 // history
  )

  datatype Step =
    | Spawn(t: TaskId, room: Room)
    | Resume(t: TaskId)
    | Suspend(t: TaskId)
    | Acquire(t: TaskId)
    | Release(t: TaskId)
    | AddSocket(t: TaskId)
    | EnsureRelay(t: TaskId, relay: TaskId)
    | Discard(t: TaskId)
    | DropRoom(t: TaskId)
    | HandlerMoves(t: TaskId, hnext: HandlerPc)
    | RelayMoves(t: TaskId, rnext: RelayPc)
    | Snapshot(t: TaskId, sockets: seq<TaskId>)
    | SendNext(t: TaskId)
    | SendReturns(t: TaskId, delivered: bool)

  // ---- the two critical sections, as functions of the maps ------------------------

  function Members(rooms: map<Room, set<TaskId>>, a: Room): set<TaskId> {
    if a in rooms then rooms[a] else {}
  }

  function WithSocket(rooms: map<Room, set<TaskId>>, a: Room, w: TaskId): map<Room, set<TaskId>> {
    rooms[a := Members(rooms, a) + {w}]
  }

  /** `discard` on a default dictionary: a missing room appears, empty. */
  function WithoutSocket(rooms: map<Room, set<TaskId>>, a: Room, w: TaskId): map<Room, set<TaskId>> {
    rooms[a := Members(rooms, a) - {w}]
  }

  function RoomDropped(rooms: map<Room, set<TaskId>>, a: Room): map<Room, set<TaskId>> {
    if Members(rooms, a) == {} then rooms - {a} else rooms
  }

  function RelayDropped(rooms: map<Room, set<TaskId>>, relays: map<Room, TaskId>, a: Room): map<Room, TaskId> {
    if Members(rooms, a) == {} then relays - {a} else relays
  }

  function CancelledBy(rooms: map<Room, set<TaskId>>, relays: map<Room, TaskId>, a: Room): set<TaskId> {
    if Members(rooms, a) == {} && a in relays then {relays[a]} else {}
  }

  // ---- tasks ---------------------------------------------------------------------

  function SectionOf(k: Task): Option<Section> {
    match k
    case Handler(_, Joining(x)) => Some(x)
    case Handler(_, Leaving(x)) => Some(x)
    case Relay(_, Removing(gone, x)) => if gone == [] then None else Some(x)
    case _ => None
  }

  predicate Joins(k: Task) {
    k.Handler? && k.hpc.Joining?
  }

  predicate Inside(k: Task) {
    SectionOf(k).Some? && SectionOf(k).value != Waiting
  }

  function WithSection(k: Task, x: Section): Task {
    match k
    case Handler(a, Joining(_)) => Handler(a, Joining(x))
    case Handler(a, Leaving(_)) => Handler(a, Leaving(x))
    case Relay(a, Removing(gone, _)) => Relay(a, Removing(gone, x))
    case _ => k
  }

  predicate Finished(k: Task) {
    if k.Handler? then k.hpc.Ended? else k.rpc.Over?
  }

  /** The socket a `disconnect` section is about: the handler's own, or a dead one. */
  function Leaver(t: TaskId, k: Task): TaskId {
    if k.Relay? && k.rpc.Removing? && k.rpc.gone != [] then k.rpc.gone[0] else t
  }

  function AfterRelease(k: Task): Task {
    match k
    case Handler(a, Joining(_)) => Handler(a, Receiving)
    case Handler(a, Leaving(_)) => Handler(a, Ended)
    case Relay(a, Removing(gone, _)) => Relay(a, Removing(if gone == [] then [] else gone[1..], Waiting))
    case _ => k
  }

  /** Where the code has an await. At the lock it suspends only if the lock is taken. */
  predicate CanSuspend(s: State, k: Task) {
    match k
    case Handler(_, Accepting) => true
    case Handler(_, Receiving) => true
    case Handler(_, Closing) => true
    case Handler(_, Joining(x)) => x == Waiting && s.lock.Some?
    case Handler(_, Leaving(x)) => x == Waiting && s.lock.Some?
    case Relay(_, Subscribing) => true
    case Relay(_, Listening) => true
    case Relay(_, AwaitingSend(_, _)) => true
    case Relay(_, Removing(gone, x)) => gone != [] && x == Waiting && s.lock.Some?
    case Relay(_, CleaningUp) => true
    case _ => false
  }

  /** `CancelledError` at the await where a relay is suspended: outside `_relay_loop`'s try
      it ends the relay, inside it leads to the `finally` block. */
  function Delivered(k: Task): Task
    requires k.Relay?
  {
    match k.rpc
    case Created => Relay(k.room, Over)
    case Subscribing => Relay(k.room, Over)
    case Over => k
    case _ => Relay(k.room, CleaningUp)
  }

  /** Moves of a handler that touch nothing shared: accepted or failed, text received or
      peer gone, an unexpected error, the close that follows it. */
  predicate HandlerMay(pc: HandlerPc, next: HandlerPc) {
    match pc
    case Accepting => next == Joining(Waiting) || next == Ended
    case Receiving => next == Receiving || next == Leaving(Waiting) || next == Closing
    case Closing => next == Leaving(Waiting)
    case _ => false
  }

  /** Moves of a relay that touch nothing shared: started, subscribed, a failure, a message
      of another type, all sockets sent to, all dead ones removed, cleaned up. */
  predicate RelayMay(pc: RelayPc, next: RelayPc) {
    match pc
    case Created => next == Subscribing || next == Over
    case Subscribing => next == Listening || next == Over
    case Listening => next == Listening || next == CleaningUp
    case Sending(todo, dead) => todo == [] && next == Removing(dead, Waiting)
    case Removing(gone, _) => gone == [] && next == Listening
    case CleaningUp => next == Over
    case _ => false
  }

  ghost predicate Runs(s: State, t: TaskId) {
    s.running == Some(t) && t in s.tasks
  }

  ghost predicate Enabled(s: State, a: Step) {
    match a
    case Spawn(t, _) => t !in s.tasks
    case Resume(t) => s.running.None? && t in s.tasks && !Finished(s.tasks[t])
    case Suspend(t) => Runs(s, t) && CanSuspend(s, s.tasks[t])
    case Acquire(t) => Runs(s, t) && SectionOf(s.tasks[t]) == Some(Waiting) && s.lock.None?
    case Release(t) => Runs(s, t) && SectionOf(s.tasks[t]) == Some(Settled)
    case AddSocket(t) => Runs(s, t) && Joins(s.tasks[t]) && SectionOf(s.tasks[t]) == Some(Entered)
    case EnsureRelay(t, r) => Runs(s, t) && Joins(s.tasks[t]) && SectionOf(s.tasks[t]) == Some(Changed) && r !in s.tasks
    case Discard(t) => Runs(s, t) && !Joins(s.tasks[t]) && SectionOf(s.tasks[t]) == Some(Entered)
    case DropRoom(t) => Runs(s, t) && !Joins(s.tasks[t]) && SectionOf(s.tasks[t]) == Some(Changed)
    case HandlerMoves(t, next) => Runs(s, t) && s.tasks[t].Handler? && HandlerMay(s.tasks[t].hpc, next)
    case RelayMoves(t, next) => Runs(s, t) && s.tasks[t].Relay? && RelayMay(s.tasks[t].rpc, next)
    case Snapshot(t, sockets) =>
      Runs(s, t) && s.tasks[t].Relay? && s.tasks[t].rpc.Listening?
      && |sockets| == |Members(s.rooms, s.tasks[t].room)|
      && (forall w :: w in sockets <==> w in Members(s.rooms, s.tasks[t].room))
    case SendNext(t) => Runs(s, t) && s.tasks[t].Relay? && s.tasks[t].rpc.Sending? && s.tasks[t].rpc.todo != []
    case SendReturns(t, _) =>
      Runs(s, t) && s.tasks[t].Relay? && s.tasks[t].rpc.AwaitingSend? && s.tasks[t].rpc.todo != []
  }

  /** The stepping task after the step. */
  ghost function TaskAfter(s: State, a: Step): Task
    requires Enabled(s, a)
  {
    match a
    case Spawn(_, room) => Handler(room, Accepting)
    case Resume(t) => if s.tasks[t].Relay? && t in s.cancelled then Delivered(s.tasks[t]) else s.tasks[t]
    case Suspend(t) => s.tasks[t]
    case Acquire(t) => WithSection(s.tasks[t], Entered)
    case Release(t) => AfterRelease(s.tasks[t])
    case AddSocket(t) => WithSection(s.tasks[t], Changed)
    case EnsureRelay(t, _) => WithSection(s.tasks[t], Settled)
    case Discard(t) => WithSection(s.tasks[t], Changed)
    case DropRoom(t) => WithSection(s.tasks[t], Settled)
    case HandlerMoves(t, next) => Handler(s.tasks[t].room, next)
    case RelayMoves(t, next) => Relay(s.tasks[t].room, next)
    case Snapshot(t, sockets) => Relay(s.tasks[t].room, Sending(sockets, []))
    case SendNext(t) => Relay(s.tasks[t].room, AwaitingSend(s.tasks[t].rpc.todo, s.tasks[t].rpc.dead))
    case SendReturns(t, delivered) =>
      var pc := s.tasks[t].rpc;
      Relay(s.tasks[t].room, Sending(pc.todo[1..], if delivered then pc.dead else pc.dead + [pc.todo[0]]))
  }

  /** `connect` starts a relay for a room that has none. */
  ghost predicate StartsRelay(s: State, a: Step) {
    a.EnsureRelay? && a.t in s.tasks && s.tasks[a.t].room !in s.relays
  }

  ghost function RunningAfter(s: State, a: Step): Option<TaskId>
    requires Enabled(s, a)
  {
    match a
    case Spawn(_, _) => s.running
    case Suspend(_) => None
    case _ => if Finished(TaskAfter(s, a)) then None else Some(a.t)
  }

  ghost function Apply(s: State, a: Step): State
    requires Enabled(s, a)
  {
    var k := if a.Spawn? then Handler(a.room, Accepting) else s.tasks[a.t];
    State(
      match a
      case AddSocket(t) => WithSocket(s.rooms, k.room, t)
      case Discard(t) => WithoutSocket(s.rooms, k.room, Leaver(t, k))
      case DropRoom(_) => RoomDropped(s.rooms, k.room)
      case _ => s.rooms,
      match a
      case EnsureRelay(_, r) => if StartsRelay(s, a) then s.relays[k.room := r] else s.relays
      case DropRoom(_) => RelayDropped(s.rooms, s.relays, k.room)
      case _ => s.relays,
      if a.Acquire? then Some(a.t) else if a.Release? then None else s.lock,
      RunningAfter(s, a),
      if StartsRelay(s, a) then s.tasks[a.t := TaskAfter(s, a)][a.relay := Relay(k.room, Created)]
        else s.tasks[a.t := TaskAfter(s, a)],
      if a.DropRoom? then s.cancelled + CancelledBy(s.rooms, s.relays, k.room) else s.cancelled,
      if a.SendNext? then s.sends + [Send(a.t, k.room, s.tasks[a.t].rpc.todo[0])] else s.sends)
  }

  ghost predicate Initial(s: State) {
    s == State(map[], map[], None, None, map[], {}, [])
  }

  ghost predicate Executable(s: State, steps: seq<Step>)
    decreases |steps|, 0
  {
    steps == []
    || (Executable(s, steps[..|steps| - 1]) && Enabled(Exec(s, steps[..|steps| - 1]), steps[|steps| - 1]))
  }

  ghost function Exec(s: State, steps: seq<Step>): State
    requires Executable(s, steps)
    decreases |steps|, 1
  {
    if steps == [] then s else Apply(Exec(s, steps[..|steps| - 1]), steps[|steps| - 1])
  }
}
