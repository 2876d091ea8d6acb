/** What one broadcast of a relay does in a run: whom it sends to, in which order, and whom it
    takes out of the room. */
module RoomBroadcasts {
  import opened Options
  import opened RoomTasks
  import opened RoomSafety
  import opened RoomRuns

  /** A broadcast so far: the sockets of its snapshot, those sent to, and how each send that
      has returned ended. */
  datatype Round = Round(sockets: seq<TaskId>, sent: seq<TaskId>, returned: seq<bool>)

  /** The last broadcast of relay `t`. */
  ghost function RoundOf(s: State, steps: seq<Step>, t: TaskId): Round
    requires Executable(s, steps)
  {
    if steps == [] then Round([], [], [])
    else
      var front := steps[..|steps| - 1];
      RoundAfter(Exec(s, front), RoundOf(s, front, t), steps[|steps| - 1], t)
  }

  ghost function RoundAfter(s: State, b: Round, a: Step, t: TaskId): Round
    requires Enabled(s, a)
  {
    match a
    case Snapshot(r, sockets) => if r == t then Round(sockets, [], []) else b
    case SendNext(r) =>
      var sends := Apply(s, a).sends;
      if r == t then b.(sent := b.sent + [sends[|sends| - 1].socket]) else b
    case SendReturns(r, delivered) => if r == t then b.(returned := b.returned + [delivered]) else b
    case _ => b
  }

  /** The sockets whose send raised. */
  ghost function Failed(b: Round): seq<TaskId>
    requires |b.returned| <= |b.sockets|
    decreases |b.returned|
  {
    if b.returned == [] then []
    else
      var n := |b.returned| - 1;
      Failed(b.(returned := b.returned[..n])) + (if b.returned[n] then [] else [b.sockets[n]])
  }

  ghost predicate Distinct(sockets: seq<TaskId>) {
    forall i, j :: 0 <= i < j < |sockets| ==> sockets[i] != sockets[j]
  }

  ghost predicate EndOf(rest: seq<TaskId>, all: seq<TaskId>) {
    |rest| <= |all| && rest == all[|all| - |rest|..]
  }

  lemma EndOfEnd(rest: seq<TaskId>, all: seq<TaskId>)
    requires EndOf(rest, all) && rest != []
    ensures EndOf(rest[1..], all) && rest[0] in all
  {
    assert all[|all| - |rest|..][1..] == all[|all| - |rest| + 1..];
    assert rest[0] == all[|all| - |rest|];
  }

  /** Where a relay is in its broadcast. */
  ghost predicate OnTrack(b: Round, pc: RelayPc) {
    match pc
    case Sending(todo, dead) =>
      && |b.sent| == |b.returned| && Underway(b) && todo == b.sockets[|b.sent|..] && dead == Failed(b)
    case AwaitingSend(todo, dead) =>
      && |b.sent| == |b.returned| + 1 && Underway(b) && todo == b.sockets[|b.returned|..] && dead == Failed(b)
    case Removing(gone, _) =>
      && |b.returned| == |b.sockets| && b.sent == b.sockets && Distinct(b.sockets)
      && EndOf(gone, Failed(b))
    case _ => true
  }

  /** The first sockets of the snapshot, in its order, have each been sent to once. */
  ghost predicate Underway(b: Round) {
    |b.returned| <= |b.sent| <= |b.sockets| && b.sent == b.sockets[..|b.sent|] && Distinct(b.sockets)
  }

  lemma {:induction false} AsManyAreDistinct(sockets: seq<TaskId>, members: set<TaskId>)
    requires |sockets| == |members| && forall w :: w in sockets <==> w in members
    ensures Distinct(sockets)
  {
    if sockets != [] {
      var front, w := sockets[..|sockets| - 1], sockets[|sockets| - 1];
      if w in front {
        FewerElements(front, members);
        assert false;
      }
      AsManyAreDistinct(front, members - {w});
    }
  }

  lemma {:induction false} FewerElements(sockets: seq<TaskId>, members: set<TaskId>)
    requires forall w :: w in members ==> w in sockets
    ensures |members| <= |sockets|
  {
    if sockets == [] {
      assert members == {};
    } else {
      var front, w := sockets[..|sockets| - 1], sockets[|sockets| - 1];
      FewerElements(front, members - {w});
    }
  }

  lemma FailedNext(b: Round, delivered: bool)
    requires |b.returned| < |b.sockets|
    ensures Failed(b.(returned := b.returned + [delivered]))
            == Failed(b) + (if delivered then [] else [b.sockets[|b.returned|]])
  {
    var after, n := b.(returned := b.returned + [delivered]), |b.returned|;
    assert after.returned[..n] == b.returned;
    assert after.(returned := after.returned[..n]) == b;
  }

  /** What was sent does not bear on what failed. */
  lemma {:induction false} FailedIgnoresSent(b: Round, sent: seq<TaskId>)
    requires |b.returned| <= |b.sockets|
    ensures Failed(b.(sent := sent)) == Failed(b)
    decreases |b.returned|
  {
    if b.returned != [] {
      FailedIgnoresSent(b.(returned := b.returned[..|b.returned| - 1]), sent);
    }
  }

  lemma OthersStep(s: State, b: Round, a: Step, t: TaskId)
    requires Enabled(s, a) && t in s.tasks && s.tasks[t].Relay? && a.t != t
    ensures RoundAfter(s, b, a, t) == b && t in Apply(s, a).tasks && Apply(s, a).tasks[t] == s.tasks[t]
  {
  }

  lemma OwnStep(s: State, b: Round, a: Step, t: TaskId)
    requires Enabled(s, a) && t in s.tasks && s.tasks[t].Relay? && a.t == t && OnTrack(b, s.tasks[t].rpc)
    ensures TaskAfter(s, a).Relay? && OnTrack(RoundAfter(s, b, a, t), TaskAfter(s, a).rpc)
  {
    match a
    case Snapshot(_, sockets) => AsManyAreDistinct(sockets, Members(s.rooms, s.tasks[t].room));
    case SendNext(_) => SendingOn(s, b, t);
    case SendReturns(_, delivered) => FailedNext(b, delivered);
    case RelayMoves(_, next) =>
    case Release(_) => ReleasingOn(s, b, t);
    case _ =>
  }

  lemma SendingOn(s: State, b: Round, t: TaskId)
    requires Enabled(s, SendNext(t)) && OnTrack(b, s.tasks[t].rpc)
    ensures OnTrack(RoundAfter(s, b, SendNext(t), t), TaskAfter(s, SendNext(t)).rpc)
  {
    var todo, after := s.tasks[t].rpc.todo, RoundAfter(s, b, SendNext(t), t);
    assert after.sent == b.sent + [todo[0]];
    FailedIgnoresSent(b, after.sent);
  }

  lemma RemovedOne(b: Round, gone: seq<TaskId>, x: Section)
    requires OnTrack(b, Removing(gone, x)) && gone != []
    ensures OnTrack(b, Removing(gone[1..], Waiting))
  {
    hide Failed, Distinct, EndOf;
    EndOfEnd(gone, Failed(b));
  }

  lemma ReleasingOn(s: State, b: Round, t: TaskId)
    requires Enabled(s, Release(t)) && s.tasks[t].Relay? && OnTrack(b, s.tasks[t].rpc)
    ensures TaskAfter(s, Release(t)).Relay? && OnTrack(b, TaskAfter(s, Release(t)).rpc)
  {
    hide OnTrack;
    RemovedOne(b, s.tasks[t].rpc.gone, s.tasks[t].rpc.section);
  }

  lemma OnTrackStep(s: State, b: Round, a: Step, t: TaskId)
    requires Enabled(s, a) && (t in s.tasks && s.tasks[t].Relay? ==> OnTrack(b, s.tasks[t].rpc))
    ensures var after := Apply(s, a).tasks;
            t in after && after[t].Relay? ==> OnTrack(RoundAfter(s, b, a, t), after[t].rpc)
  {
    var after := Apply(s, a).tasks;
    if t in s.tasks && s.tasks[t].Relay? {
      if a.t == t { OwnStep(s, b, a, t); TaskOfStep(s, a); } else { OthersStep(s, b, a, t); }
    } else if t in after && after[t].Relay? {
      NewRelayIsCreated(s, a, t);
    }
  }

  lemma TaskOfStep(s: State, a: Step)
    requires Enabled(s, a) && a.t in s.tasks
    ensures a.t in Apply(s, a).tasks && Apply(s, a).tasks[a.t] == TaskAfter(s, a)
  {
  }

  lemma NewRelayIsCreated(s: State, a: Step, t: TaskId)
    requires Enabled(s, a) && !(t in s.tasks && s.tasks[t].Relay?)
    requires t in Apply(s, a).tasks && Apply(s, a).tasks[t].Relay?
    ensures Apply(s, a).tasks[t].rpc == Created
  {
  }

  /** In every interleaving a broadcast sends to the sockets of its snapshot in order, each
      once, none left out, and then takes out the ones whose send raised and no others. */
  lemma {:induction false} BroadcastStaysOnTrack(s: State, steps: seq<Step>, t: TaskId)
    requires Initial(s) && Executable(s, steps)
    ensures var u := Exec(s, steps);
            t in u.tasks && u.tasks[t].Relay? ==> OnTrack(RoundOf(s, steps, t), u.tasks[t].rpc)
  {
    if steps != [] {
      var front := steps[..|steps| - 1];
      BroadcastStaysOnTrack(s, front, t);
      hide Apply, Enabled, OnTrack, RoundAfter;
      OnTrackStep(Exec(s, front), RoundOf(s, front, t), steps[|steps| - 1], t);
    }
  }

  lemma {:induction false} FailedDidFail(b: Round, w: TaskId) returns (i: nat)
    requires |b.returned| <= |b.sockets| && w in Failed(b)
    ensures i < |b.returned| && b.sockets[i] == w && !b.returned[i]
    decreases |b.returned|
  {
    var n := |b.returned| - 1;
    var front := b.(returned := b.returned[..n]);
    if w in Failed(front) { i := FailedDidFail(front, w); } else { i := n; }
  }

  /** A relay takes a socket out of its room only after its own send to it raised, and only
      once the broadcast has sent to every socket of the snapshot. */
  lemma OnlyFailedAreRemoved(s: State, steps: seq<Step>, t: TaskId) returns (i: nat)
    requires Initial(s) && Executable(s, steps) && Enabled(Exec(s, steps), Discard(t))
    requires Exec(s, steps).tasks[t].Relay?
    ensures var b, w := RoundOf(s, steps, t), Leaver(t, Exec(s, steps).tasks[t]);
            && b.sent == b.sockets && i < |b.returned| == |b.sockets| && b.sockets[i] == w && !b.returned[i]
  {
    BroadcastStaysOnTrack(s, steps, t);
    var b, gone := RoundOf(s, steps, t), Exec(s, steps).tasks[t].rpc.gone;
    EndOfEnd(gone, Failed(b));
    i := FailedDidFail(b, gone[0]);
  }
}
