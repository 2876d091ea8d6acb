/** Who is in a room: exactly the sockets added to it and not discarded since, and a connected
    socket is among them until its handler leaves or a relay takes it out. */
module RoomMembers {
  import opened Options
  import opened RoomTasks

  ghost predicate Adds(s: State, x: Step, a: Room, w: TaskId) {
    x == AddSocket(w) && w in s.tasks && s.tasks[w].room == a
  }

  ghost predicate Discards(s: State, x: Step, a: Room, w: TaskId) {
    x.Discard? && x.t in s.tasks && s.tasks[x.t].room == a && Leaver(x.t, s.tasks[x.t]) == w
  }

  /** The last step of the run that added `w` to the room or discarded it added it. */
  ghost predicate LastAdded(s: State, steps: seq<Step>, a: Room, w: TaskId)
    requires Executable(s, steps)
  {
    steps != []
    && var front, x := steps[..|steps| - 1], steps[|steps| - 1];
       Adds(Exec(s, front), x, a, w) || (LastAdded(s, front, a, w) && !Discards(Exec(s, front), x, a, w))
  }

  lemma MembersStep(s: State, x: Step, a: Room, w: TaskId)
    requires Enabled(s, x)
    ensures w in Members(Apply(s, x).rooms, a)
            <==> Adds(s, x, a, w) || (w in Members(s.rooms, a) && !Discards(s, x, a, w))
  {
    match x
    case AddSocket(t) =>
    case Discard(t) =>
    case DropRoom(t) =>
    case _ => assert Apply(s, x).rooms == s.rooms;
  }

  /** In every interleaving a room's members are exactly the sockets last added to it. */
  lemma {:induction false} MembersExactly(s: State, steps: seq<Step>, a: Room, w: TaskId)
    requires Initial(s) && Executable(s, steps)
    ensures w in Members(Exec(s, steps).rooms, a) <==> LastAdded(s, steps, a, w)
  {
    if steps != [] {
      var front := steps[..|steps| - 1];
      MembersExactly(s, front, a, w);
      hide Apply, Enabled, Members, Adds, Discards;
      MembersStep(Exec(s, front), steps[|steps| - 1], a, w);
    }
  }

  /** The handler has joined and has not taken its own socket out. */
  predicate Connected(pc: HandlerPc) {
    match pc
    case Joining(x) => x == Changed || x == Settled
    case Receiving => true
    case Closing => true
    case Leaving(x) => x == Waiting || x == Entered
    case _ => false
  }

  /** A relay has discarded `w` in the run. */
  ghost predicate TakenOut(s: State, steps: seq<Step>, w: TaskId)
    requires Executable(s, steps)
  {
    steps != []
    && var front, x := steps[..|steps| - 1], steps[|steps| - 1];
       TakenOut(s, front, w) || TakesOut(Exec(s, front), x, w)
  }

  ghost predicate TakesOut(s: State, x: Step, w: TaskId) {
    x.Discard? && x.t in s.tasks && s.tasks[x.t].Relay? && Leaver(x.t, s.tasks[x.t]) == w
  }

  ghost predicate ConnectedHandler(s: State, w: TaskId) {
    w in s.tasks && s.tasks[w].Handler? && Connected(s.tasks[w].hpc)
  }

  lemma ConnectedStep(s: State, x: Step, w: TaskId)
    requires Enabled(s, x) && ConnectedHandler(Apply(s, x), w)
    ensures || TakesOut(s, x, w)
            || Adds(s, x, Apply(s, x).tasks[w].room, w)
            || (&& ConnectedHandler(s, w) && Apply(s, x).tasks[w].room == s.tasks[w].room
                && !Discards(s, x, s.tasks[w].room, w))
  {
    if x.t == w && !x.Spawn? {
      assert Apply(s, x).tasks[w] == TaskAfter(s, x);
    }
  }

  /** A connected socket is in its room unless a relay has taken it out. */
  lemma {:induction false} ConnectedIsMember(s: State, steps: seq<Step>, w: TaskId)
    requires Initial(s) && Executable(s, steps) && ConnectedHandler(Exec(s, steps), w)
    ensures w in Members(Exec(s, steps).rooms, Exec(s, steps).tasks[w].room) || TakenOut(s, steps, w)
  {
    assert steps != [];
    var front, x := steps[..|steps| - 1], steps[|steps| - 1];
    var t := Exec(s, front);
    ConnectedStep(t, x, w);
    MembersStep(t, x, Exec(s, steps).tasks[w].room, w);
    hide Apply, Enabled, Members, Adds, Discards, TakesOut;
    if ConnectedHandler(t, w) { ConnectedIsMember(s, front, w); }
  }
}
