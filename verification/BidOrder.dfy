/** Order in fail-stop runs: a partition's messages are settled one after the other, replays
    change nothing, and rows and events follow the offsets. Statuses may change at any time
    and bid ids may repeat. */
module BidOrder {
  import opened Options
  import opened BidDomain
  import opened CriticalPath
  import opened BidSafety
  import opened BidEffects
  import opened OffsetAccounting
  import opened BidRuns

  /** A message at or past `reached` is new, one below it is a replay. */
  ghost predicate ReachInv(part: Partition) {
    && part.committed <= part.reached <= |part.log|
    && match part.stage
       case Idle => part.position <= part.reached
       case Taken(o) => o <= part.reached
       case Looked(o, _) => o <= part.reached
       case Judged(f) => f.offset <= part.reached
       case Stalled(o) => o <= part.reached
       case Done(o) => o < part.reached
       case Stored(f) => f.offset < part.reached
       case Arbitrated(f) => f.offset < part.reached
       case Notified(f) => f.offset < part.reached
  }

  /** A replayed message cannot be stored again. */
  ghost predicate Replayed(c: Config, s: State, p: nat, o: nat)
    requires p < |s.parts| && o < |s.parts[p].log|
  {
    Deliver(s.parts[p].log[o]).Decidable? ==> PositionTaken(s.rows, p, o) || RefusedByConstraint(c, s, p, o)
  }

  ghost predicate ReplaysRefused(c: Config, s: State, p: nat, k: nat)
    requires p < |s.parts| && k <= |s.parts[p].log|
  {
    forall o :: 0 <= o < k ==> Replayed(c, s, p, o)
  }

  /** Rows lie below what their partition has reached, and in offset order. */
  ghost predicate RowOrder(s: State) {
    && (forall i :: 0 <= i < |s.rows| && s.rows[i].partition < |s.parts|
          ==> s.rows[i].offset < s.parts[s.rows[i].partition].reached)
    && (forall i, j :: 0 <= i < j < |s.rows| && s.rows[i].partition == s.rows[j].partition
          ==> s.rows[i].offset < s.rows[j].offset)
  }

  ghost predicate Ordered(c: Config, s: State, p: nat)
    requires p < |s.parts|
  {
    ReachInv(s.parts[p]) && ReplaysRefused(c, s, p, s.parts[p].reached)
  }

  ghost predicate OrderInv(c: Config, s: State) {
    (forall p :: 0 <= p < |s.parts| ==> Ordered(c, s, p)) && RowOrder(s)
  }

  // ---- one step --------------------------------------------------------------------

  /** What a step leaves of a partition whose message it does not settle. */
  ghost predicate SameReach(part: Partition, part': Partition) {
    part'.reached == part.reached && |part.log| <= |part'.log| && part'.log[..|part.log|] == part.log
  }

  /** The step settles the message the partition reaches next. */
  ghost predicate Settles(s: State, a: Step, q: nat) {
    && (a == SkipPoison(q) || a == StoreRow(q) || (a.Refuse? && a.p == q))
    && q < |s.parts| && OffsetOf(s.parts[q].stage) == Some(s.parts[q].reached)
  }

  /** A step that is not the partition's own: it commits, restarts or leaves the partition. */
  lemma OthersReach(c: Config, s: State, a: Step, q: nat)
    requires Enabled(c, s, a) && Halts(s, a) && q < |s.parts| && Target(a) != Some(q)
    requires PartitionInv(s.parts[q]) && ReachInv(s.parts[q])
    ensures ReachInv(PartAfter(c, s, a, q)) && SameReach(s.parts[q], PartAfter(c, s, a, q)) && !Settles(s, a, q)
  {
  }

  lemma OwnReach(c: Config, s: State, a: Step, q: nat)
    requires Enabled(c, s, a) && Halts(s, a) && q < |s.parts| && Target(a) == Some(q)
    requires PartitionInv(s.parts[q]) && ReachInv(s.parts[q])
    ensures ReachInv(Worked(c, s, a))
    ensures if Settles(s, a, q)
              then Worked(c, s, a).log == s.parts[q].log && Worked(c, s, a).reached == s.parts[q].reached + 1
            else SameReach(s.parts[q], Worked(c, s, a))
  {
    hide PartAfter, Apply;
  }

  lemma ReachStep(c: Config, s: State, a: Step, q: nat)
    requires Enabled(c, s, a) && Halts(s, a) && q < |s.parts|
    requires PartitionInv(s.parts[q]) && ReachInv(s.parts[q])
    ensures ReachInv(PartAfter(c, s, a, q))
    ensures if Settles(s, a, q)
            then PartAfter(c, s, a, q).log == s.parts[q].log && PartAfter(c, s, a, q).reached == s.parts[q].reached + 1
            else SameReach(s.parts[q], PartAfter(c, s, a, q))
  {
    hide Enabled, Settles, SameReach, PartitionInv, ReachInv, Worked, Halts;
    if Target(a) == Some(q) { OwnReach(c, s, a, q); } else { OthersReach(c, s, a, q); }
  }

  lemma ReplayedStays(c: Config, s: State, a: Step, q: nat, o: nat)
    requires Enabled(c, s, a) && q < |s.parts| && o < |s.parts[q].log| && Replayed(c, s, q, o)
    ensures var s' := Apply(c, s, a); o < |s'.parts[q].log| && Replayed(c, s', q, o)
  {
    var s' := Apply(c, s, a);
    assert s'.parts[q] == PartAfter(c, s, a, q);
    assert forall i :: 0 <= i < |s.rows| ==> s'.rows[i] == s.rows[i];
  }

  lemma ReplaysStayRefused(c: Config, s: State, a: Step, q: nat)
    requires Enabled(c, s, a) && q < |s.parts| && s.parts[q].reached <= |s.parts[q].log|
    requires ReplaysRefused(c, s, q, s.parts[q].reached)
    ensures s.parts[q].reached <= |Apply(c, s, a).parts[q].log|
    ensures ReplaysRefused(c, Apply(c, s, a), q, s.parts[q].reached)
  {
    assert Apply(c, s, a).parts[q] == PartAfter(c, s, a, q);
    forall o | 0 <= o < s.parts[q].reached ensures Replayed(c, Apply(c, s, a), q, o) {
      ReplayedStays(c, s, a, q, o);
    }
  }

  lemma ReplayConflicts(c: Config, s: State, p: nat)
    requires LogInv(c, s) && OrderInv(c, s) && p < |s.parts| && s.parts[p].stage.Judged?
    ensures var f := s.parts[p].stage.flight;
            f.offset < s.parts[p].reached ==> Conflicts(c.ref, s.rows, RowOf(p, f))
  {
    var part, f := s.parts[p], s.parts[p].stage.flight;
    assert Ordered(c, s, p) && PartitionInv(part);
    assert f.offset < part.reached ==> Replayed(c, s, p, f.offset);
  }

  /** The row stored is that of the message reached next: one below it is a replay. */
  lemma StoresNext(c: Config, s: State, p: nat)
    requires LogInv(c, s) && OrderInv(c, s) && Enabled(c, s, StoreRow(p))
    ensures Settles(s, StoreRow(p), p) && s.parts[p].reached < |s.parts[p].log|
  {
    ReplayConflicts(c, s, p);
    assert Ordered(c, s, p) && PartitionInv(s.parts[p]);
    hide Conflicts, Replayed;
  }

  lemma NewlyReplayed(c: Config, s: State, a: Step, q: nat)
    requires LogInv(c, s) && Enabled(c, s, a) && Settles(s, a, q) && s.parts[q].reached < |s.parts[q].log|
    ensures Replayed(c, Apply(c, s, a), q, s.parts[q].reached)
  {
    var s' := Apply(c, s, a);
    assert s'.parts[q] == PartAfter(c, s, a, q);
    assert PartitionInv(s.parts[q]);
    if a.StoreRow? { assert s'.rows[|s.rows|] == RowOf(q, s.parts[q].stage.flight); }
  }

  lemma OrderedStep(c: Config, s: State, a: Step, q: nat)
    requires LogInv(c, s) && OrderInv(c, s) && Enabled(c, s, a) && Halts(s, a) && q < |s.parts|
    ensures Ordered(c, Apply(c, s, a), q)
  {
    assert Apply(c, s, a).parts[q] == PartAfter(c, s, a, q);
    assert Ordered(c, s, q) && PartitionInv(s.parts[q]);
    PartitionInvStep(c, s, a, q);
    ReachStep(c, s, a, q);
    ReplaysStayRefused(c, s, a, q);
    hide PartAfter, Apply, Enabled, PartitionInv;
    if Settles(s, a, q) { NewlyReplayed(c, s, a, q); }
  }

  lemma ReachedGrows(c: Config, s: State, a: Step, q: nat)
    requires Enabled(c, s, a) && q < |s.parts|
    ensures s.parts[q].reached <= Apply(c, s, a).parts[q].reached
  {
  }

  lemma RowOrderGrows(s: State, s': State, r: Row)
    requires RowOrder(s) && |s'.parts| == |s.parts| && s'.rows == s.rows + [r]
    requires forall q :: 0 <= q < |s.parts| ==> s.parts[q].reached <= s'.parts[q].reached
    requires r.partition < |s.parts| && s.parts[r.partition].reached == r.offset < s'.parts[r.partition].reached
    ensures RowOrder(s')
  {
  }

  lemma StoredReached(c: Config, s: State, p: nat)
    requires Enabled(c, s, StoreRow(p))
    ensures s.parts[p].stage.flight.offset < Apply(c, s, StoreRow(p)).parts[p].reached
    ensures Apply(c, s, StoreRow(p)).rows == s.rows + [RowOf(p, s.parts[p].stage.flight)]
  {
  }

  lemma RowOrderStep(c: Config, s: State, a: Step)
    requires LogInv(c, s) && OrderInv(c, s) && Enabled(c, s, a)
    ensures RowOrder(Apply(c, s, a))
  {
    var s' := Apply(c, s, a);
    forall q | 0 <= q < |s.parts| ensures s.parts[q].reached <= s'.parts[q].reached {
      ReachedGrows(c, s, a, q);
    }
    if a.StoreRow? {
      StoresNext(c, s, a.p);
      StoredReached(c, s, a.p);
      RowOrderGrows(s, s', RowOf(a.p, s.parts[a.p].stage.flight));
    }
  }

  lemma OrderInvStep(c: Config, s: State, a: Step)
    requires LogInv(c, s) && OrderInv(c, s) && Enabled(c, s, a) && Halts(s, a)
    ensures OrderInv(c, Apply(c, s, a))
  {
    RowOrderStep(c, s, a);
    forall q | 0 <= q < |Apply(c, s, a).parts| ensures Ordered(c, Apply(c, s, a), q) {
      OrderedStep(c, s, a, q);
    }
  }

  // ---- whole runs ------------------------------------------------------------------

  lemma {:induction false} FailStopKeepsOrder(c: Config, s: State, steps: seq<Step>)
    requires Initial(s) && Executable(c, s, steps) && FailStop(c, s, steps)
    ensures OrderInv(c, Exec(c, s, steps))
  {
    if steps != [] {
      var front := steps[..|steps| - 1];
      FailStopKeepsOrder(c, s, front);
      RunKeepsInv(c, s, front);
      OrderInvStep(c, Exec(c, s, front), steps[|steps| - 1]);
    }
  }

  ghost predicate HasRow(rows: seq<Row>, b: Bid) {
    exists m :: 0 <= m < |rows| && rows[m].bid == b
  }

  /** Both bids have rows; about one auction, or one partition, the first lies before the
      second in the log. */
  ghost predicate OffsetPrecedes(rows: seq<Row>, first: Bid, second: Bid) {
    && HasRow(rows, first) && HasRow(rows, second)
    && forall m, n :: 0 <= m < |rows| && 0 <= n < |rows| && rows[m].bid == first && rows[n].bid == second
                      && (first.auctionId == second.auctionId || rows[m].partition == rows[n].partition)
         ==> rows[m].partition == rows[n].partition && rows[m].offset < rows[n].offset
  }

  lemma ChannelFollowsOffsets(c: Config, t: State, channel: seq<Event>, i: nat, j: nat)
    requires TableInv(c, t) && RowOrder(t) && ChannelInv(t.rows, channel) && i < j < |channel|
    ensures OffsetPrecedes(t.rows, channel[i].bid, channel[j].bid)
  {
    var first, second := channel[i].bid, channel[j].bid;
    assert Reports(t.rows, channel[i]) && Reports(t.rows, channel[j]);
    assert RowPrecedes(t.rows, first.id, second.id);
    forall m, n | 0 <= m < |t.rows| && 0 <= n < |t.rows| && t.rows[m].bid == first && t.rows[n].bid == second
                  && (first.auctionId == second.auctionId || t.rows[m].partition == t.rows[n].partition)
      ensures t.rows[m].partition == t.rows[n].partition && t.rows[m].offset < t.rows[n].offset
    {
      assert RowInv(c, t, t.rows[m]) && RowInv(c, t, t.rows[n]);
    }
  }

  /** In every fail-stop run, whatever statuses change and whatever ids repeat, the events of
      either channel about one auction, or one partition, come in the log's order. */
  lemma {:induction false} EventsFollowOffsets(c: Config, s: State, steps: seq<Step>, i: nat, j: nat)
    requires Initial(s) && Executable(c, s, steps) && FailStop(c, s, steps) && i < j
    ensures var t := Exec(c, s, steps);
            && (j < |t.results| ==> OffsetPrecedes(t.rows, t.results[i].bid, t.results[j].bid))
            && (j < |t.updates| ==> OffsetPrecedes(t.rows, t.updates[i].bid, t.updates[j].bid))
  {
    var t := Exec(c, s, steps);
    RunKeepsInv(c, s, steps);
    FailStopKeepsOrder(c, s, steps);
    hide TableInv, OffsetPrecedes, ChannelInv, RowOrder;
    if j < |t.results| { ChannelFollowsOffsets(c, t, t.results, i, j); }
    if j < |t.updates| { ChannelFollowsOffsets(c, t, t.updates, i, j); }
  }
}
