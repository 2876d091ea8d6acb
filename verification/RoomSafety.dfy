/** What every interleaving of handlers and relays keeps. */
module RoomSafety {
  import opened Options
  import opened RoomTasks

  /** Only the running task can be inside a critical section, and it holds the lock. */
  ghost predicate LockInv(s: State) {
    && (s.lock.Some? ==> s.running == s.lock && s.lock.value in s.tasks && Inside(s.tasks[s.lock.value]))
    && (forall t :: t in s.tasks && Inside(s.tasks[t]) ==> s.lock == Some(t))
    && (s.running.Some? ==> s.running.value in s.tasks && !Finished(s.tasks[s.running.value]))
  }

  /** A handler whose socket may be in its room. */
  predicate MayBeMember(pc: HandlerPc) {
    match pc
    case Joining(x) => x == Changed || x == Settled
    case Receiving => true
    case Closing => true
    case Leaving(x) => x == Waiting || x == Entered
    case _ => false
  }

  ghost predicate MemberInv(s: State) {
    forall a, w :: a in s.rooms && w in s.rooms[a] ==>
      w in s.tasks && s.tasks[w].Handler? && s.tasks[w].room == a && MayBeMember(s.tasks[w].hpc)
  }

  ghost predicate IsRelay(s: State, t: TaskId, a: Room) {
    t in s.tasks && s.tasks[t].Relay? && s.tasks[t].room == a
  }

  /** The registered relay of a room is uncancelled, and no other relay of the room is. */
  ghost predicate RelayInv(s: State) {
    && (forall a :: a in s.relays ==> IsRelay(s, s.relays[a], a) && s.relays[a] !in s.cancelled)
    && (forall t :: t in s.tasks && s.tasks[t].Relay? && t !in s.cancelled ==>
          s.tasks[t].room in s.relays && s.relays[s.tasks[t].room] == t)
    && (forall t :: t in s.cancelled ==> t in s.tasks && s.tasks[t].Relay?)
  }

  /** The room a critical section has half updated. */
  ghost predicate HalfUpdated(s: State, a: Room) {
    s.lock.Some? && s.lock.value in s.tasks && s.tasks[s.lock.value].room == a
    && SectionOf(s.tasks[s.lock.value]) == Some(Changed)
  }

  ghost predicate RoomOk(s: State, a: Room) {
    (a in s.rooms <==> a in s.relays) && (a in s.rooms ==> s.rooms[a] != {})
  }

  ghost predicate RoomInv(s: State) {
    forall a ::
      if HalfUpdated(s, a)
      then a in s.rooms && (Joins(s.tasks[s.lock.value]) ==> s.rooms[a] != {})
           && (!Joins(s.tasks[s.lock.value]) && s.rooms[a] != {} ==> a in s.relays)
      else RoomOk(s, a)
  }

  predicate CaughtCancel(pc: RelayPc) {
    pc.CleaningUp? || pc.Over?
  }

  /** A relay that cancelled itself and has not suspended since: its room is gone, and it
      has nobody left to send to. */
  ghost predicate SelfCancelInv(s: State) {
    s.running.Some? && s.running.value in s.cancelled && s.running.value in s.tasks && s.tasks[s.running.value].Relay?
    && !CaughtCancel(s.tasks[s.running.value].rpc) ==>
      var k := s.tasks[s.running.value];
      && Members(s.rooms, k.room) == {}
      && (k.rpc.Listening? || k.rpc.Removing? || (k.rpc.Sending? && k.rpc.todo == []))
  }

  /** In the history, once another relay has sent for a room, the earlier one is cancelled
      and stays silent. */
  ghost predicate SendInv(s: State) {
    && (forall i :: 0 <= i < |s.sends| ==> IsRelay(s, s.sends[i].relay, s.sends[i].room))
    && (forall i, j ::
          0 <= i < j < |s.sends| && s.sends[i].room == s.sends[j].room && s.sends[i].relay != s.sends[j].relay
          ==> s.sends[i].relay in s.cancelled)
    && SendersSucceed(s.sends)
  }

  ghost predicate SendersSucceed(sends: seq<Send>) {
    forall i, j, k :: 0 <= i < j < k < |sends| && sends[i].room == sends[j].room && sends[i].relay != sends[j].relay
      ==> sends[k].relay != sends[i].relay
  }

  ghost predicate Inv(s: State) {
    LockInv(s) && MemberInv(s) && RelayInv(s) && RoomInv(s) && SelfCancelInv(s) && SendInv(s)
  }

  /** No cancelled relay sends. */
  lemma CancelledNeverSends(s: State, a: Step)
    requires Inv(s) && Enabled(s, a) && a.SendNext?
    ensures a.t !in s.cancelled
  {
  }

  /** A task never waits for the lock: nobody suspends while holding it. */
  lemma LockIsNeverContended(s: State, t: TaskId)
    requires Inv(s) && Runs(s, t) && SectionOf(s.tasks[t]) == Some(Waiting)
    ensures Enabled(s, Acquire(t)) && !Enabled(s, Suspend(t))
  {
  }

  // ---- one step ------------------------------------------------------------------

  /** A step changes the stepping task, may add a relay, and leaves the other tasks alone. */
  ghost predicate TaskFrame(s: State, a: Step, s': State)
    requires Enabled(s, a)
  {
    && s'.tasks.Keys == s.tasks.Keys + {a.t} + (if StartsRelay(s, a) then {a.relay} else {})
    && s'.tasks[a.t] == TaskAfter(s, a)
    && (StartsRelay(s, a) ==> s'.tasks[a.relay] == Relay(s.tasks[a.t].room, Created))
    && (forall u :: u in s.tasks && u != a.t ==> s'.tasks[u] == s.tasks[u])
  }

  lemma TasksFrame(s: State, a: Step)
    requires Enabled(s, a)
    ensures TaskFrame(s, a, Apply(s, a))
  {
  }

  lemma KindStays(s: State, a: Step)
    requires Enabled(s, a) && !a.Spawn?
    ensures TaskAfter(s, a).room == s.tasks[a.t].room && (TaskAfter(s, a).Relay? <==> s.tasks[a.t].Relay?)
  {
  }

  lemma LockOfTask(s: State, a: Step)
    requires LockInv(s) && Enabled(s, a)
    ensures Inside(TaskAfter(s, a)) ==> Apply(s, a).lock == Some(a.t)
    ensures !Inside(TaskAfter(s, a)) && !a.Spawn? ==> Apply(s, a).lock != Some(a.t)
    ensures a.t in s.tasks && !Inside(s.tasks[a.t]) && !Inside(TaskAfter(s, a)) ==> Apply(s, a).lock == s.lock
    ensures a.Spawn? ==> Apply(s, a).lock == s.lock
    ensures !a.Spawn? ==> s.lock.Some? ==> s.lock == Some(a.t)
  {
  }

  lemma RunningTask(s: State, a: Step)
    requires Enabled(s, a)
    ensures Inside(TaskAfter(s, a)) ==> Apply(s, a).running == Some(a.t)
    ensures a.Spawn? ==> Apply(s, a).running == s.running
    ensures !a.Spawn? ==>
              Apply(s, a).running == None || (Apply(s, a).running == Some(a.t) && !Finished(TaskAfter(s, a)))
  {
  }

  lemma LockInvStep(s: State, a: Step)
    requires LockInv(s) && Enabled(s, a)
    ensures LockInv(Apply(s, a))
  {
    TasksFrame(s, a);
    LockOfTask(s, a);
    RunningTask(s, a);
    hide Apply, Enabled, TaskAfter;
  }

  lemma MemberOfTask(s: State, a: Step)
    requires Enabled(s, a) && a.t in s.tasks && s.tasks[a.t].Handler? && !a.AddSocket? && !a.Discard?
    ensures TaskAfter(s, a).Handler? && TaskAfter(s, a).room == s.tasks[a.t].room
    ensures MayBeMember(s.tasks[a.t].hpc) ==> MayBeMember(TaskAfter(s, a).hpc)
  {
  }

  lemma RoomsChange(s: State, a: Step, room: Room, w: TaskId)
    requires Enabled(s, a) && room in Apply(s, a).rooms && w in Apply(s, a).rooms[room]
    ensures || (a.AddSocket? && w == a.t && room == s.tasks[a.t].room)
            || (room in s.rooms && w in s.rooms[room]
                && (a.Discard? && room == s.tasks[a.t].room ==> w != Leaver(a.t, s.tasks[a.t])))
  {
  }

  lemma MemberInvStep(s: State, a: Step)
    requires MemberInv(s) && Enabled(s, a)
    ensures MemberInv(Apply(s, a))
  {
    var s' := Apply(s, a);
    TasksFrame(s, a);
    forall room, w | room in s'.rooms && w in s'.rooms[room]
      ensures w in s'.tasks && s'.tasks[w].Handler? && s'.tasks[w].room == room && MayBeMember(s'.tasks[w].hpc)
    {
      RoomsChange(s, a, room, w);
      if w == a.t && !a.AddSocket? && !a.Discard? { MemberOfTask(s, a); }
    }
  }

  lemma RelaysChange(s: State, a: Step)
    requires Enabled(s, a)
    ensures a.EnsureRelay? ==> Apply(s, a).cancelled == s.cancelled
    ensures a.EnsureRelay? ==>
              Apply(s, a).relays == if StartsRelay(s, a) then s.relays[s.tasks[a.t].room := a.relay] else s.relays
    ensures a.DropRoom? ==> var room := s.tasks[a.t].room;
              && Apply(s, a).relays == RelayDropped(s.rooms, s.relays, room)
              && Apply(s, a).cancelled == s.cancelled + CancelledBy(s.rooms, s.relays, room)
    ensures !a.EnsureRelay? && !a.DropRoom? ==> Apply(s, a).relays == s.relays && Apply(s, a).cancelled == s.cancelled
    ensures !a.EnsureRelay? ==> !StartsRelay(s, a)
  {
  }

  /** The stepping task stays what it was, and what is new is a handler or in the relay map. */
  ghost predicate SameKind(s: State, a: Step)
    requires Enabled(s, a)
  {
    if a.Spawn? then TaskAfter(s, a).Handler? && a.t !in s.tasks
    else a.t in s.tasks && TaskAfter(s, a).room == s.tasks[a.t].room
         && (TaskAfter(s, a).Relay? <==> s.tasks[a.t].Relay?)
  }

  lemma RelayInvUntouched(s: State, a: Step, s': State)
    requires RelayInv(s) && Enabled(s, a) && TaskFrame(s, a, s') && SameKind(s, a) && !StartsRelay(s, a)
    requires s'.relays == s.relays && s'.cancelled == s.cancelled
    ensures RelayInv(s')
  {
    hide TaskAfter, Enabled, StartsRelay;
  }

  lemma RelayInvEnsured(s: State, a: Step, s': State)
    requires RelayInv(s) && Enabled(s, a) && a.EnsureRelay? && TaskFrame(s, a, s') && SameKind(s, a)
    requires s'.relays == if StartsRelay(s, a) then s.relays[s.tasks[a.t].room := a.relay] else s.relays
    requires s'.cancelled == s.cancelled
    ensures RelayInv(s')
  {
    hide TaskAfter;
  }

  lemma RelayInvDropped(s: State, a: Step, s': State)
    requires RelayInv(s) && Enabled(s, a) && a.DropRoom? && TaskFrame(s, a, s') && SameKind(s, a) && !StartsRelay(s, a)
    requires s'.relays == RelayDropped(s.rooms, s.relays, s.tasks[a.t].room)
    requires s'.cancelled == s.cancelled + CancelledBy(s.rooms, s.relays, s.tasks[a.t].room)
    ensures RelayInv(s')
  {
    hide TaskAfter, Enabled, StartsRelay;
  }

  lemma RelayInvStep(s: State, a: Step)
    requires RelayInv(s) && Enabled(s, a)
    ensures RelayInv(Apply(s, a))
  {
    TasksFrame(s, a);
    RelaysChange(s, a);
    if a.Spawn? { SpawnsHandler(s, a); } else { KindStays(s, a); }
    hide Apply, TaskAfter, RelayInv;
    if a.EnsureRelay? {
      RelayInvEnsured(s, a, Apply(s, a));
    } else if a.DropRoom? {
      RelayInvDropped(s, a, Apply(s, a));
    } else {
      RelayInvUntouched(s, a, Apply(s, a));
    }
  }

  lemma SpawnsHandler(s: State, a: Step)
    requires Enabled(s, a) && a.Spawn?
    ensures TaskAfter(s, a).Handler? && a.t !in s.tasks
  {
  }

  /** What a step does to the rooms and to who is half way through updating one. */
  lemma RoomsOfTask(s: State, a: Step)
    requires Enabled(s, a)
    ensures var s' := Apply(s, a);
            && (a.AddSocket? ==> s'.rooms == WithSocket(s.rooms, s.tasks[a.t].room, a.t))
            && (a.Discard? ==> s'.rooms == WithoutSocket(s.rooms, s.tasks[a.t].room, Leaver(a.t, s.tasks[a.t])))
            && (a.DropRoom? ==> s'.rooms == RoomDropped(s.rooms, s.tasks[a.t].room))
            && (!a.AddSocket? && !a.Discard? && !a.DropRoom? ==> s'.rooms == s.rooms)
  {
  }

  /** Which sections a step enters and leaves. */
  lemma SectionsOfTask(s: State, a: Step)
    requires LockInv(s) && Enabled(s, a)
    ensures a.AddSocket? || a.Discard? ==>
              Apply(s, a).lock == Some(a.t) && SectionOf(TaskAfter(s, a)) == Some(Changed)
                && TaskAfter(s, a).room == s.tasks[a.t].room
    ensures a.AddSocket? ==> Joins(TaskAfter(s, a))
    ensures a.Discard? ==> !Joins(TaskAfter(s, a))
    ensures a.EnsureRelay? || a.DropRoom? ==>
              s.lock == Some(a.t) && SectionOf(s.tasks[a.t]) == Some(Changed)
                && SectionOf(TaskAfter(s, a)) == Some(Settled)
    ensures !a.AddSocket? && !a.Discard? ==> SectionOf(TaskAfter(s, a)) != Some(Changed)
  {
  }

  lemma HalfUpdatedAfter(s: State, a: Step, room: Room)
    requires LockInv(s) && Enabled(s, a)
    ensures HalfUpdated(Apply(s, a), room) <==>
              if a.AddSocket? || a.Discard? then room == s.tasks[a.t].room
              else if a.EnsureRelay? || a.DropRoom? then false
              else HalfUpdated(s, room)
  {
    TasksFrame(s, a);
    LockOfTask(s, a);
    RunningTask(s, a);
    RoomsOfTask(s, a);
    SectionsOfTask(s, a);
  }

  lemma RoomInvStep(s: State, a: Step)
    requires LockInv(s) && RelayInv(s) && RoomInv(s) && Enabled(s, a)
    ensures RoomInv(Apply(s, a))
  {
    var s' := Apply(s, a);
    TasksFrame(s, a);
    RelaysChange(s, a);
    RoomsOfTask(s, a);
    SectionsOfTask(s, a);
    LockOfTask(s, a);
    RunningTask(s, a);
    forall room ensures
      if HalfUpdated(s', room)
      then room in s'.rooms && (Joins(s'.tasks[s'.lock.value]) ==> s'.rooms[room] != {})
           && (!Joins(s'.tasks[s'.lock.value]) && s'.rooms[room] != {} ==> room in s'.relays)
      else RoomOk(s', room)
    {
      HalfUpdatedAfter(s, a, room);
    }
  }

  lemma SelfCancelInvStep(s: State, a: Step)
    requires Inv(s) && Enabled(s, a)
    ensures SelfCancelInv(Apply(s, a))
  {
    var s' := Apply(s, a);
    TasksFrame(s, a);
    RelaysChange(s, a);
  }

  lemma SendsChange(s: State, a: Step)
    requires Enabled(s, a)
    ensures !a.SendNext? ==> Apply(s, a).sends == s.sends
    ensures a.SendNext? ==> s.tasks[a.t].Relay? && |Apply(s, a).sends| == |s.sends| + 1
    ensures a.SendNext? ==>
              Apply(s, a).sends == s.sends + [Send(a.t, s.tasks[a.t].room, Apply(s, a).sends[|s.sends|].socket)]
  {
  }

  /** A new send by the registered relay: every other relay that has sent for the room is
      cancelled, and this one was never succeeded. */
  lemma SuccessionGrows(s: State, x: Send)
    requires RelayInv(s) && SendInv(s) && IsRelay(s, x.relay, x.room) && x.relay !in s.cancelled
    ensures forall i :: 0 <= i < |s.sends| && s.sends[i].room == x.room && s.sends[i].relay != x.relay
              ==> s.sends[i].relay in s.cancelled
    ensures SendersSucceed(s.sends + [x])
  {
  }

  lemma RelaysStay(s: State, a: Step, t: TaskId, room: Room)
    requires Enabled(s, a) && IsRelay(s, t, room)
    ensures IsRelay(Apply(s, a), t, room)
  {
    TasksFrame(s, a);
    if !a.Spawn? { KindStays(s, a); }
  }

  /** The history with one more send by the registered relay. */
  lemma SendInvGrows(s: State, s': State, x: Send)
    requires RelayInv(s) && SendInv(s) && IsRelay(s, x.relay, x.room) && x.relay !in s.cancelled
    requires s'.sends == s.sends + [x] && s'.cancelled == s.cancelled
    requires forall i :: 0 <= i < |s'.sends| ==> IsRelay(s', s'.sends[i].relay, s'.sends[i].room)
    ensures SendInv(s')
  {
    SuccessionGrows(s, x);
  }

  lemma SendInvStep(s: State, a: Step)
    requires Inv(s) && Enabled(s, a)
    ensures SendInv(Apply(s, a))
  {
    var s' := Apply(s, a);
    RelaysChange(s, a);
    SendsChange(s, a);
    forall i | 0 <= i < |s.sends| ensures IsRelay(s', s.sends[i].relay, s.sends[i].room) {
      RelaysStay(s, a, s.sends[i].relay, s.sends[i].room);
    }
    if a.SendNext? {
      CancelledNeverSends(s, a);
      RelaysStay(s, a, a.t, s.tasks[a.t].room);
      SendInvGrows(s, s', s'.sends[|s.sends|]);
    }
  }
}
