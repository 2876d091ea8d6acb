/** `AuctionRoomManager` itself: two maps updated in place, and a broadcast during whose
    sends other handlers act. */
module RoomManager {
  import opened RoomTasks

  /** The manager's maps, and the relay tasks made and cancelled so far; the next one made
      is number `created`. */
  datatype Rooms = Rooms(
    connections: map<Room, set<TaskId>>, relayTasks: map<Room, TaskId>, cancelled: set<TaskId>, created: nat)

  /** What a handler does to the maps: the two critical sections. */
  datatype Act = Enters(room: Room, socket: TaskId) | Leaves(room: Room, socket: TaskId)

  function After(m: Rooms, x: Act): Rooms {
    var a, w := x.room, x.socket;
    match x
    case Enters(_, _) =>
      var starts := a !in m.relayTasks;
      Rooms(WithSocket(m.connections, a, w), if starts then m.relayTasks[a := m.created] else m.relayTasks,
            m.cancelled, if starts then m.created + 1 else m.created)
    case Leaves(_, _) =>
      var rest := WithoutSocket(m.connections, a, w);
      Rooms(RoomDropped(rest, a), RelayDropped(rest, m.relayTasks, a),
            m.cancelled + CancelledBy(rest, m.relayTasks, a), m.created)
  }

  function AfterAll(m: Rooms, acts: seq<Act>): Rooms {
    if acts == [] then m else After(AfterAll(m, acts[..|acts| - 1]), acts[|acts| - 1])
  }

  function Flat(turns: seq<seq<Act>>): seq<Act> {
    if turns == [] then [] else Flat(turns[..|turns| - 1]) + turns[|turns| - 1]
  }

  /** The maps as they are whenever the lock is free. */
  ghost predicate Consistent(m: Rooms) {
    && m.connections.Keys == m.relayTasks.Keys
    && (forall a :: a in m.connections ==> m.connections[a] != {})
    && (forall a :: a in m.relayTasks ==> m.relayTasks[a] !in m.cancelled && m.relayTasks[a] < m.created)
    && (forall a, b :: a in m.relayTasks && b in m.relayTasks && m.relayTasks[a] == m.relayTasks[b] ==> a == b)
    && (forall t :: t in m.cancelled ==> t < m.created)
  }

  ghost predicate Relays(m: Rooms, a: Room, relay: TaskId) {
    a in m.relayTasks && m.relayTasks[a] == relay
  }

  ghost predicate IsEmpty(m: Rooms, a: Room) {
    Members(m.connections, a) == {}
  }

  // ---- what handlers do to a relay -----------------------------------------------------

  /** What a disconnect leaves of the rooms, none of which was empty. */
  lemma DisconnectedRooms(rooms: map<Room, set<TaskId>>, a: Room, w: TaskId)
    requires forall b :: b in rooms ==> rooms[b] != {}
    ensures var discarded := WithoutSocket(rooms, a, w); var after := RoomDropped(discarded, a);
            && Members(discarded, a) == Members(rooms, a) - {w} == Members(after, a)
            && (a in after <==> Members(rooms, a) - {w} != {})
            && (forall b :: b in after ==> after[b] != {})
            && (forall b :: b != a ==> (b in after <==> b in rooms) && (b in after ==> after[b] == rooms[b]))
            && (w !in Members(rooms, a) ==> after == rooms)
            && (Members(discarded, a) == {} <==> a !in rooms || rooms[a] <= {w})
  {
    if w !in Members(rooms, a) { assert Members(rooms, a) - {w} == Members(rooms, a); }
  }

  lemma EnteringKeepsConsistent(m: Rooms, x: Act)
    requires Consistent(m) && x.Enters?
    ensures Consistent(After(m, x)) && m.cancelled <= After(m, x).cancelled
  {
  }

  lemma LeavingKeepsConsistent(m: Rooms, x: Act)
    requires Consistent(m) && x.Leaves?
    ensures Consistent(After(m, x)) && m.cancelled <= After(m, x).cancelled
  {
    DisconnectedRooms(m.connections, x.room, x.socket);
    hide RoomDropped, WithoutSocket, Members;
  }

  lemma ActKeepsConsistent(m: Rooms, x: Act)
    requires Consistent(m)
    ensures Consistent(After(m, x)) && m.cancelled <= After(m, x).cancelled
  {
    hide Consistent, After;
    if x.Leaves? { LeavingKeepsConsistent(m, x); } else { EnteringKeepsConsistent(m, x); }
  }

  /** A room's relay keeps its place until it is cancelled, and it is cancelled by the act
      that empties the room. */
  lemma ActOnRelay(m: Rooms, x: Act, a: Room, relay: TaskId)
    requires Consistent(m) && Relays(m, a, relay)
    ensures relay in After(m, x).cancelled <==> IsEmpty(After(m, x), a)
    ensures relay !in After(m, x).cancelled ==> Relays(After(m, x), a, relay)
  {
    if x.Leaves? {
      DisconnectedRooms(m.connections, x.room, x.socket);
      hide RoomDropped, WithoutSocket;
    }
  }

  lemma {:induction false} ActsKeepConsistent(m: Rooms, acts: seq<Act>)
    requires Consistent(m)
    ensures Consistent(AfterAll(m, acts)) && m.cancelled <= AfterAll(m, acts).cancelled
  {
    if acts != [] {
      var front := acts[..|acts| - 1];
      ActsKeepConsistent(m, front);
      hide After, Consistent;
      ActKeepsConsistent(AfterAll(m, front), acts[|acts| - 1]);
    }
  }

  lemma {:induction false} AfterBoth(m: Rooms, acts: seq<Act>, more: seq<Act>)
    ensures AfterAll(m, acts + more) == AfterAll(AfterAll(m, acts), more)
  {
    hide After;
    if more == [] {
      assert acts + more == acts;
    } else {
      AfterBoth(m, acts, more[..|more| - 1]);
      assert (acts + more)[..|acts + more| - 1] == acts + more[..|more| - 1];
    }
  }

  lemma AfterNext(m: Rooms, acts: seq<Act>, k: nat)
    requires k < |acts|
    ensures AfterAll(m, acts[..k + 1]) == After(AfterAll(m, acts[..k]), acts[k])
  {
    assert acts[..k + 1][..k] == acts[..k];
  }

  lemma NoActs(m: Rooms, acts: seq<Act>)
    ensures AfterAll(m, acts[..0]) == m
  {
  }

  lemma FlatNext(turns: seq<seq<Act>>, k: nat)
    requires k < |turns|
    ensures Flat(turns[..k + 1]) == Flat(turns[..k]) + turns[k]
  {
    assert turns[..k + 1][..k] == turns[..k];
  }

  /** The room has stood empty at some moment. */
  ghost predicate Emptied(m: Rooms, acts: seq<Act>, a: Room) {
    exists k :: 0 <= k <= |acts| && IsEmpty(AfterAll(m, acts[..k]), a)
  }

  lemma EmptiedBefore(m: Rooms, acts: seq<Act>, a: Room)
    requires acts != [] && Emptied(m, acts[..|acts| - 1], a)
    ensures Emptied(m, acts, a)
  {
    hide AfterAll, IsEmpty;
    var front := acts[..|acts| - 1];
    var k :| 0 <= k <= |front| && IsEmpty(AfterAll(m, front[..k]), a);
    assert front[..k] == acts[..k];
  }

  lemma EmptiedNext(m: Rooms, acts: seq<Act>, a: Room)
    requires acts != []
    ensures Emptied(m, acts, a) <==> Emptied(m, acts[..|acts| - 1], a) || IsEmpty(AfterAll(m, acts), a)
  {
    hide AfterAll, IsEmpty;
    var front := acts[..|acts| - 1];
    assert acts[..|acts|] == acts;
    if Emptied(m, front, a) { EmptiedBefore(m, acts, a); }
    if Emptied(m, acts, a) {
      var k :| 0 <= k <= |acts| && IsEmpty(AfterAll(m, acts[..k]), a);
      if k < |acts| { assert front[..k] == acts[..k]; }
    }
  }

  /** Whatever handlers do, a room's relay has been cancelled exactly if its room has stood
      empty at some moment since, even if sockets have entered again; otherwise it is still
      the room's relay. */
  lemma {:induction false} CancelledExactlyWhenEmptied(m: Rooms, acts: seq<Act>, a: Room, relay: TaskId)
    requires Consistent(m) && Relays(m, a, relay)
    ensures relay in AfterAll(m, acts).cancelled <==> Emptied(m, acts, a)
    ensures relay !in AfterAll(m, acts).cancelled ==> Relays(AfterAll(m, acts), a, relay)
  {
    if acts == [] {
      assert acts[..0] == acts;
      assert !Emptied(m, acts, a);
    } else {
      var front := acts[..|acts| - 1];
      CancelledExactlyWhenEmptied(m, front, a, relay);
      ActsKeepConsistent(m, front);
      EmptiedNext(m, acts, a);
      hide After, Emptied, IsEmpty, Relays, Consistent;
      ActKeepsConsistent(AfterAll(m, front), acts[|acts| - 1]);
      if relay !in AfterAll(m, front).cancelled { ActOnRelay(AfterAll(m, front), acts[|acts| - 1], a, relay); }
    }
  }

  /** `snapshot`'s first sockets, each sent to once, in order. */
  function SendsTo(relay: TaskId, a: Room, sockets: seq<TaskId>): (r: seq<Send>)
    ensures |r| == |sockets|
  {
    seq(|sockets|, i requires 0 <= i < |sockets| => Send(relay, a, sockets[i]))
  }

  lemma SendsNext(relay: TaskId, a: Room, sockets: seq<TaskId>, k: nat)
    requires k < |sockets|
    ensures SendsTo(relay, a, sockets[..k + 1]) == SendsTo(relay, a, sockets[..k]) + [Send(relay, a, sockets[k])]
  {
  }

  // ---- removing the dead sockets ---------------------------------------------------------

  /** The room without the dead sockets; if none is left, without the room and its relay. */
  ghost predicate Without(m: Rooms, now: Rooms, a: Room, dead: seq<TaskId>) {
    && a in m.relayTasks && now.created == m.created
    && (forall w :: w in Members(now.connections, a) <==> w in Members(m.connections, a) && w !in dead)
    && OthersKept(m, now, a)
    && (if IsEmpty(now, a)
        then now.relayTasks == m.relayTasks - {a} && now.cancelled == m.cancelled + {m.relayTasks[a]}
        else now.relayTasks == m.relayTasks && now.cancelled == m.cancelled)
  }

  ghost predicate OthersKept(m: Rooms, now: Rooms, a: Room) {
    forall b :: b != a ==>
      && (b in now.connections <==> b in m.connections)
      && (b in now.connections ==> now.connections[b] == m.connections[b])
  }

  lemma NoneRemoved(m: Rooms, a: Room)
    requires Consistent(m) && a in m.connections
    ensures Without(m, m, a, [])
  {
  }

  lemma OneMoreRemoved(m: Rooms, now: Rooms, a: Room, dead: seq<TaskId>, w: TaskId)
    requires Consistent(m) && Consistent(now) && Without(m, now, a, dead)
    ensures Without(m, After(now, Leaves(a, w)), a, dead + [w])
  {
    hide After, Without;
    if a in now.connections {
      assert !IsEmpty(now, a);
      OneRemoved(now, a, w);
      RemovedInTurn(m, now, After(now, Leaves(a, w)), a, dead, w);
    } else {
      NotThere(now, a, w);
      RemovedAlready(m, now, a, dead, w);
    }
  }

  lemma OneRemoved(m: Rooms, a: Room, w: TaskId)
    requires Consistent(m) && a in m.connections
    ensures Without(m, After(m, Leaves(a, w)), a, [w])
  {
    DisconnectedRooms(m.connections, a, w);
    hide RoomDropped, WithoutSocket;
  }

  lemma NotThere(m: Rooms, a: Room, w: TaskId)
    requires Consistent(m) && a !in m.connections
    ensures After(m, Leaves(a, w)) == m
  {
    assert Members(m.connections, a) == {};
  }

  lemma RemovedAlready(m: Rooms, now: Rooms, a: Room, dead: seq<TaskId>, w: TaskId)
    requires Without(m, now, a, dead) && a !in now.connections
    ensures Without(m, now, a, dead + [w])
  {
    hide OthersKept;
    assert forall v :: v in dead ==> v in dead + [w];
  }

  lemma RemovedInTurn(m: Rooms, now: Rooms, last: Rooms, a: Room, dead: seq<TaskId>, w: TaskId)
    requires Without(m, now, a, dead) && Without(now, last, a, [w]) && !IsEmpty(now, a)
    ensures Without(m, last, a, dead + [w])
  {
  }

  class AuctionRoomManager {
    var connections: map<Room, set<TaskId>>
    var relayTasks: map<Room, TaskId>
    var cancelled: set<TaskId>   // relay tasks `cancel()` was called on
    var created: nat             // relay tasks made by `create_task`
    var sent: seq<Send>

    ghost function Now(): Rooms
      reads this
    {
      Rooms(connections, relayTasks, cancelled, created)
    }

    ghost predicate Valid()
      reads this
    {
      Consistent(Now())
    }

    constructor ()
      ensures Valid() && Now() == Rooms(map[], map[], {}, 0) && sent == []
    {
      connections, relayTasks, cancelled, created, sent := map[], map[], {}, 0, [];
    }

    /** `connect` after the accept. */
    method Connect(a: Room, w: TaskId) returns (started: bool)
      requires Valid()
      modifies this`connections, this`relayTasks, this`created
      ensures Valid() && Now() == After(old(Now()), Enters(a, w))
      ensures Members(connections, a) == Members(old(connections), a) + {w} && OthersKept(old(Now()), Now(), a)
      ensures started == (a !in old(relayTasks))
      ensures relayTasks == if started then old(relayTasks)[a := old(created)] else old(relayTasks)
    {
      ActKeepsConsistent(Now(), Enters(a, w));
      connections := WithSocket(connections, a, w);
      started := a !in relayTasks;
      if started {
        relayTasks := relayTasks[a := created];
        created := created + 1;
      }
    }

    /** `disconnect`: the socket is gone, and with the last one the room and its relay,
        which is cancelled. A socket that was not there changes nothing. */
    method Disconnect(a: Room, w: TaskId)
      requires Valid()
      modifies this`connections, this`relayTasks, this`cancelled
      ensures Valid() && Now() == After(old(Now()), Leaves(a, w))
      ensures Members(connections, a) == Members(old(connections), a) - {w}
      ensures OthersKept(old(Now()), Now(), a)
      ensures var emptied := a in old(connections) && old(connections)[a] <= {w};
              && relayTasks == (if emptied then old(relayTasks) - {a} else old(relayTasks))
              && cancelled == (if emptied then old(cancelled) + {old(relayTasks)[a]} else old(cancelled))
      ensures w !in Members(old(connections), a) ==> connections == old(connections)
    {
      var discarded := WithoutSocket(connections, a, w);
      var dropped := CancelledBy(discarded, relayTasks, a);
      DisconnectedRooms(connections, a, w);
      ActKeepsConsistent(Now(), Leaves(a, w));
      hide RoomDropped, WithoutSocket, Members;
      relayTasks := RelayDropped(discarded, relayTasks, a);
      cancelled := cancelled + dropped;
      connections := RoomDropped(discarded, a);
    }

    /** Other handlers run while the relay is suspended. */
    method OthersRun(turn: seq<Act>)
      requires Valid()
      modifies this`connections, this`relayTasks, this`cancelled, this`created
      ensures Valid() && Now() == AfterAll(old(Now()), turn)
    {
      hide Consistent, After, AfterAll;
      NoActs(Now(), turn);
      var i := 0;
      while i < |turn|
        invariant 0 <= i <= |turn|
        invariant Valid() && Now() == AfterAll(old(Now()), turn[..i])
      {
        AfterNext(old(Now()), turn, i);
        match turn[i] {
          case Enters(a, w) => var _ := Connect(a, w);
          case Leaves(a, w) => Disconnect(a, w);
        }
        i := i + 1;
      }
      assert turn[..i] == turn;
    }

    /** The sending half of `_broadcast`: one send per socket, in order, others acting during
        each; the ones whose send raised are collected. If by the end of a send the relay
        has been cancelled, the `CancelledError` leaves the loop. */
    method SendToAll(a: Room, relay: TaskId, sockets: seq<TaskId>, failing: set<TaskId>, turns: seq<seq<Act>>)
      returns (dead: seq<TaskId>, interrupted: bool)
      requires Valid() && relay !in cancelled && |turns| == |sockets|
      modifies this
      ensures Valid() && (interrupted <==> relay in cancelled)
      ensures var n := |sent| - |old(sent)|;
              && 0 <= n <= |sockets| && (!interrupted ==> n == |sockets|)
              && sent == old(sent) + SendsTo(relay, a, sockets[..n])
              && Now() == AfterAll(old(Now()), Flat(turns[..n]))
              && forall k :: 0 <= k < n ==> relay !in AfterAll(old(Now()), Flat(turns[..k])).cancelled
      ensures forall w :: !interrupted ==> (w in dead <==> w in sockets && w in failing)
    {
      hide Consistent, After;
      dead, interrupted := [], false;
      var i := 0;
      while i < |sockets|
        invariant 0 <= i <= |sockets| && Valid() && relay !in cancelled && !interrupted
        invariant sent == old(sent) + SendsTo(relay, a, sockets[..i])
        invariant Now() == AfterAll(old(Now()), Flat(turns[..i]))
        invariant forall k :: 0 <= k < i ==> relay !in AfterAll(old(Now()), Flat(turns[..k])).cancelled
        invariant forall w :: w in dead <==> w in sockets[..i] && w in failing
      {
        SendsNext(relay, a, sockets, i);
        FlatNext(turns, i);
        AfterBoth(old(Now()), Flat(turns[..i]), turns[i]);
        sent := sent + [Send(relay, a, sockets[i])];
        OthersRun(turns[i]);
        if relay in cancelled { return dead, true; }
        if sockets[i] in failing { dead := dead + [sockets[i]]; }
        i := i + 1;
      }
      assert sockets[..i] == sockets;
    }

    /** The removing half: `disconnect` for each dead socket, with no suspension, since the
        lock is free. The room goes with its last socket, and only then is its relay
        cancelled. */
    method RemoveAll(a: Room, dead: seq<TaskId>)
      requires Valid() && a in connections
      modifies this`connections, this`relayTasks, this`cancelled
      ensures Valid() && Without(old(Now()), Now(), a, dead)
    {
      hide Consistent, After, Without;
      NoneRemoved(Now(), a);
      var i := 0;
      while i < |dead|
        invariant 0 <= i <= |dead|
        invariant Valid() && Without(old(Now()), Now(), a, dead[..i])
      {
        assert dead[..i + 1] == dead[..i] + [dead[i]];
        OneMoreRemoved(old(Now()), Now(), a, dead[..i], dead[i]);
        Disconnect(a, dead[i]);
        i := i + 1;
      }
      assert dead[..i] == dead;
    }

    /** `_broadcast` by the room's relay, while handlers do what they like during its sends:
        the sockets of the snapshot are sent to in its order, each once. It breaks off,
        with no effect of its own on the maps, exactly if its room stands empty at some
        moment before a send returns, and no send starts after that. Otherwise exactly the
        failing sockets are then disconnected, and the relay cancels itself if and only if
        none is left. */
    method Broadcast(a: Room, relay: TaskId, snapshot: seq<TaskId>, failing: set<TaskId>, turns: seq<seq<Act>>)
      returns (interrupted: bool)
      requires Valid() && Relays(Now(), a, relay) && |turns| == |snapshot|
      requires forall w :: w in snapshot <==> w in Members(connections, a)
      modifies this
      ensures Valid()
      ensures var n := |sent| - |old(sent)|;
              && 0 <= n <= |snapshot|
              && sent == old(sent) + SendsTo(relay, a, snapshot[..n])
              && (forall k :: 0 <= k < n ==> !Emptied(old(Now()), Flat(turns[..k]), a))
              && (interrupted ==>
                    Emptied(old(Now()), Flat(turns[..n]), a) && Now() == AfterAll(old(Now()), Flat(turns[..n])))
              && (!interrupted ==> n == |snapshot| && !Emptied(old(Now()), Flat(turns), a))
      ensures var m, dead := AfterAll(old(Now()), Flat(turns)), old(connections)[a] * failing;
              !interrupted ==>
                && Members(connections, a) == Members(m.connections, a) - dead && OthersKept(m, Now(), a)
                && relayTasks == (if Members(m.connections, a) <= dead then m.relayTasks - {a} else m.relayTasks)
                && cancelled == (if Members(m.connections, a) <= dead then m.cancelled + {relay} else m.cancelled)
    {
      hide After, AfterAll, Flat, SendsTo, Emptied;
      ghost var was := Now();
      forall k | 0 <= k <= |turns|
        ensures relay in AfterAll(was, Flat(turns[..k])).cancelled <==> Emptied(was, Flat(turns[..k]), a)
      {
        CancelledExactlyWhenEmptied(was, Flat(turns[..k]), a, relay);
      }
      var dead;
      dead, interrupted := SendToAll(a, relay, snapshot, failing, turns);
      if interrupted { return; }
      assert turns[..|turns|] == turns;
      CancelledExactlyWhenEmptied(was, Flat(turns), a, relay);
      ghost var m := Now();
      RemoveAll(a, dead);
      assert Members(connections, a) == Members(m.connections, a) - was.connections[a] * failing;
      assert a in connections <==> Members(connections, a) != {};
    }
  }
}
