/** The rooms' promises about every interleaving. */
module RoomRuns {
  import opened Options
  import opened RoomTasks
  import opened RoomSafety

  lemma {:induction false} RunKeepsInv(s: State, steps: seq<Step>)
    requires Initial(s) && Executable(s, steps)
    ensures Inv(Exec(s, steps))
  {
    if steps != [] {
      var t, a := Exec(s, steps[..|steps| - 1]), steps[|steps| - 1];
      RunKeepsInv(s, steps[..|steps| - 1]);
      hide Apply, Enabled;
      LockInvStep(t, a);
      MemberInvStep(t, a);
      RelayInvStep(t, a);
      RoomInvStep(t, a);
      SelfCancelInvStep(t, a);
      SendInvStep(t, a);
    }
  }

  lemma {:induction false} PrefixExecutable(s: State, steps: seq<Step>, k: nat)
    requires Executable(s, steps) && k <= |steps|
    ensures Executable(s, steps[..k])
  {
    if k < |steps| {
      PrefixExecutable(s, steps[..|steps| - 1], k);
      assert steps[..|steps| - 1][..k] == steps[..k];
    } else {
      assert steps[..k] == steps;
    }
  }

  /** Cancellation is forever. */
  lemma {:induction false} CancelledStays(s: State, steps: seq<Step>, k: nat, t: TaskId)
    requires Executable(s, steps) && k <= |steps| && Executable(s, steps[..k]) && t in Exec(s, steps[..k]).cancelled
    ensures t in Exec(s, steps).cancelled
  {
    if k < |steps| {
      var front := steps[..|steps| - 1];
      assert front[..k] == steps[..k];
      CancelledStays(s, front, k, t);
    } else {
      assert steps[..k] == steps;
    }
  }

  lemma CancelledBefore(s: State, steps: seq<Step>, k: nat, m: nat, t: TaskId)
    requires Executable(s, steps) && k <= m <= |steps|
    requires Executable(s, steps[..k]) && t in Exec(s, steps[..k]).cancelled
    ensures Executable(s, steps[..m]) && t in Exec(s, steps[..m]).cancelled
  {
    PrefixExecutable(s, steps, m);
    assert steps[..m][..k] == steps[..k];
    CancelledStays(s, steps[..m], k, t);
  }

  lemma NextStepEnabled(s: State, steps: seq<Step>, m: nat)
    requires Executable(s, steps) && m < |steps|
    ensures Executable(s, steps[..m]) && Enabled(Exec(s, steps[..m]), steps[m])
  {
    PrefixExecutable(s, steps, m + 1);
    assert steps[..m + 1][..m] == steps[..m];
  }

  /** No ghost relays: once a relay's task has been cancelled - by another task or by the
      relay itself from inside its broadcast - it never sends to a socket again. */
  lemma CancelledRelayIsSilent(s: State, steps: seq<Step>, k: nat, m: nat, t: TaskId)
    requires Initial(s) && Executable(s, steps) && k <= m < |steps|
    requires Executable(s, steps[..k]) && t in Exec(s, steps[..k]).cancelled
    ensures steps[m] != SendNext(t)
  {
    CancelledBefore(s, steps, k, m, t);
    NextStepEnabled(s, steps, m);
    RunKeepsInv(s, steps[..m]);
    hide Apply, Exec, Executable;
    if steps[m].SendNext? { CancelledNeverSends(Exec(s, steps[..m]), steps[m]); }
  }

  /** An old and a new relay of one room never both deliver: once another relay has sent
      for the room, the earlier one has been cancelled and sends no more. */
  lemma RelaysSucceedEachOther(s: State, steps: seq<Step>, i: nat, j: nat)
    requires Initial(s) && Executable(s, steps)
    requires i < j < |Exec(s, steps).sends|
    requires var x, y := Exec(s, steps).sends[i], Exec(s, steps).sends[j]; x.room == y.room && x.relay != y.relay
    ensures var t := Exec(s, steps);
            && t.sends[i].relay in t.cancelled
            && forall k :: j <= k < |t.sends| ==> t.sends[k].relay != t.sends[i].relay
  {
    RunKeepsInv(s, steps);
  }

  /** Whenever the lock is free the rooms and the relays have the same keys, every room is
      non-empty, its relay is uncancelled, and no other relay of the room is. */
  lemma RoomsAgreeWithRelays(s: State, steps: seq<Step>)
    requires Initial(s) && Executable(s, steps) && Exec(s, steps).lock.None?
    ensures var t := Exec(s, steps);
            && t.rooms.Keys == t.relays.Keys
            && (forall a :: a in t.rooms
                  ==> t.rooms[a] != {} && IsRelay(t, t.relays[a], a) && t.relays[a] !in t.cancelled)
            && (forall r, a :: IsRelay(t, r, a) && r !in t.cancelled ==> a in t.relays && t.relays[a] == r)
  {
    RunKeepsInv(s, steps);
    var t := Exec(s, steps);
    forall a ensures RoomOk(t, a) { assert !HalfUpdated(t, a); }
  }

  /** The lock is free whenever a task asks for it. */
  lemma LockIsFreeOnRequest(s: State, steps: seq<Step>, t: TaskId)
    requires Initial(s) && Executable(s, steps) && Runs(Exec(s, steps), t)
    requires SectionOf(Exec(s, steps).tasks[t]) == Some(Waiting)
    ensures Enabled(Exec(s, steps), Acquire(t)) && !Enabled(Exec(s, steps), Suspend(t))
  {
    RunKeepsInv(s, steps);
    LockIsNeverContended(Exec(s, steps), t);
  }

  ghost predicate AllHandlersEnded(s: State) {
    forall t :: t in s.tasks && s.tasks[t].Handler? ==> s.tasks[t].hpc.Ended?
  }

  /** When every handler has finished and no relay is in a critical section, both maps are
      empty and every relay has been cancelled. */
  lemma NothingLeftBehind(s: State, steps: seq<Step>)
    requires Initial(s) && Executable(s, steps) && AllHandlersEnded(Exec(s, steps)) && Exec(s, steps).lock.None?
    ensures var t := Exec(s, steps);
            && t.rooms == map[] && t.relays == map[]
            && forall r, a :: IsRelay(t, r, a) ==> r in t.cancelled
  {
    RunKeepsInv(s, steps);
    RoomsAgreeWithRelays(s, steps);
    var t := Exec(s, steps);
    forall a ensures a !in t.rooms {
      if a in t.rooms {
        var w := LiveMember(t, a);
        assert false;
      }
    }
    assert t.rooms.Keys == {} && t.relays.Keys == {};
  }

  /** A non-empty room has a handler that has not finished. */
  lemma LiveMember(t: State, a: Room) returns (w: TaskId)
    requires MemberInv(t) && a in t.rooms && t.rooms[a] != {}
    ensures w in t.tasks && t.tasks[w].Handler? && !t.tasks[w].hpc.Ended?
  {
    w :| w in t.rooms[a];
  }

  /** Disconnecting a socket that is not in its room changes nothing. */
  lemma RepeatedDisconnectIsHarmless(rooms: map<Room, set<TaskId>>, relays: map<Room, TaskId>, a: Room, w: TaskId)
    requires (a in rooms <==> a in relays) && (a in rooms ==> rooms[a] != {}) && w !in Members(rooms, a)
    ensures var discarded := WithoutSocket(rooms, a, w);
            && RoomDropped(discarded, a) == rooms
            && RelayDropped(discarded, relays, a) == relays
            && CancelledBy(discarded, relays, a) == {}
  {
    assert Members(rooms, a) - {w} == Members(rooms, a);
  }
}
