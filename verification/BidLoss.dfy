/** Which bids are lost: the exact condition on a run, and that a loss is for good. */
module BidLoss {
  import opened Options
  import opened BidDomain
  import opened CriticalPath
  import opened BidSafety
  import opened OffsetAccounting
  import opened BidRuns
  import opened SequentialBids

  ghost predicate ValidBid(c: Config, b: Bid) {
    b.amount > 0 && b.auctionId in c.ref.startingPrice && b.bidderId in c.ref.users
  }

  /** A valid bid below the committed offset that has no row under its id. */
  ghost predicate Lost(c: Config, s: State, p: nat, o: nat, b: Bid) {
    && p < |s.parts| && o < s.parts[p].committed && Logged(s, p, o, b)
    && ValidBid(c, b) && !HasId(s.rows, b.id)
  }

  // ---- the states of a run ------------------------------------------------------------

  /** The state after the first `k` steps. */
  ghost function StateAt(c: Config, s: State, steps: seq<Step>, k: nat): State
    requires Executable(c, s, steps) && k <= |steps|
  {
    PrefixExecutable(c, s, steps, k);
    Exec(c, s, steps[..k])
  }

  lemma Next(c: Config, s: State, steps: seq<Step>, k: nat)
    requires Executable(c, s, steps) && k < |steps|
    ensures Enabled(c, StateAt(c, s, steps, k), steps[k])
    ensures StateAt(c, s, steps, k + 1) == Apply(c, StateAt(c, s, steps, k), steps[k])
  {
    PrefixExecutable(c, s, steps, k + 1);
    assert steps[..k + 1][..k] == steps[..k];
  }

  lemma InvAt(c: Config, s: State, steps: seq<Step>, k: nat)
    requires Initial(s) && Executable(c, s, steps) && k <= |steps|
    ensures Inv(c, StateAt(c, s, steps, k))
  {
    PrefixExecutable(c, s, steps, k);
    RunKeepsInv(c, s, steps[..k]);
  }

  lemma {:induction false} LoggedLater(c: Config, s: State, steps: seq<Step>, j: nat, k: nat, p: nat, o: nat, b: Bid)
    requires Executable(c, s, steps) && j <= k <= |steps| && Logged(StateAt(c, s, steps, j), p, o, b)
    ensures Logged(StateAt(c, s, steps, k), p, o, b)
    decreases k
  {
    hide StateAt, Logged;
    if j < k {
      LoggedLater(c, s, steps, j, k - 1, p, o, b);
      Next(c, s, steps, k - 1);
      LogsOnlyGrow(c, StateAt(c, s, steps, k - 1), steps[k - 1], p, o, b);
    }
  }

  lemma RowsGrow(c: Config, t: State, a: Step)
    requires Enabled(c, t, a)
    ensures t.rows <= Apply(c, t, a).rows
  {
  }

  lemma {:induction false} RowsLater(c: Config, s: State, steps: seq<Step>, j: nat, k: nat)
    requires Executable(c, s, steps) && j <= k <= |steps|
    ensures StateAt(c, s, steps, j).rows <= StateAt(c, s, steps, k).rows
    decreases k
  {
    hide StateAt;
    if j < k {
      RowsLater(c, s, steps, j, k - 1);
      Next(c, s, steps, k - 1);
      RowsGrow(c, StateAt(c, s, steps, k - 1), steps[k - 1]);
    }
  }

  lemma NoRowsAtFirst(c: Config, s: State, steps: seq<Step>)
    requires Initial(s) && Executable(c, s, steps)
    ensures StateAt(c, s, steps, 0).rows == []
  {
  }

  // ---- deliveries -----------------------------------------------------------------------

  /** The message at (`p`, `o`) is being processed and has no row yet. */
  ghost predicate InHand(t: State, p: nat, o: nat) {
    p < |t.parts| && Undecided(t.parts[p].stage) && OffsetOf(t.parts[p].stage) == Some(o)
  }

  /** Step `k` of the run delivers the message at (`p`, `o`) to the worker. */
  ghost predicate Delivers(c: Config, s: State, steps: seq<Step>, p: nat, o: nat, k: nat)
    requires Executable(c, s, steps)
  {
    k < |steps| && steps[k] == Take(p) && p < |StateAt(c, s, steps, k).parts|
      && StateAt(c, s, steps, k).parts[p].position == o
  }

  /** An exception, or the process dies. */
  ghost predicate Breaks(a: Step, p: nat) {
    a == Fail(p) || (a.Crash? && p in a.ps)
  }

  ghost predicate InHandThrough(c: Config, s: State, steps: seq<Step>, p: nat, o: nat, k: nat, m: nat)
    requires Executable(c, s, steps)
  {
    k < m <= |steps| && forall j :: k < j <= m ==> InHand(StateAt(c, s, steps, j), p, o)
  }

  /** The delivery of step `k` ends in a failure or a crash before a row is committed. */
  ghost predicate DeliveryBreaks(c: Config, s: State, steps: seq<Step>, p: nat, o: nat, k: nat)
    requires Executable(c, s, steps)
  {
    exists m :: 0 <= m < |steps| && InHandThrough(c, s, steps, p, o, k, m) && Breaks(steps[m], p)
  }

  lemma TakesInHand(c: Config, t: State, p: nat)
    requires Enabled(c, t, Take(p))
    ensures InHand(Apply(c, t, Take(p)), p, t.parts[p].position)
  {
  }

  /** How a message leaves the worker's hands. */
  lemma LeavesHand(c: Config, t: State, a: Step, p: nat, o: nat, b: Bid)
    requires LogInv(c, t) && Enabled(c, t, a) && InHand(t, p, o) && !InHand(Apply(c, t, a), p, o) && Logged(t, p, o, b)
    ensures || Breaks(a, p)
            || (a == StoreRow(p) && t.parts[p].stage.flight.bid == b)
            || (a.Refuse? && a.p == p && t.parts[p].stage.flight.bid == b
                && Conflicts(c.ref, t.rows, RowOf(p, t.parts[p].stage.flight)))
  {
    assert Apply(c, t, a).parts[p] == PartAfter(c, t, a, p);
    assert PartitionInv(t.parts[p]);
  }

  lemma StaysInHand(c: Config, t: State, a: Step, p: nat, o: nat)
    requires Enabled(c, t, a) && InHand(t, p, o)
    ensures InHand(Apply(c, t, a), p, o) ==> !Breaks(a, p) && a != StoreRow(p)
  {
    assert Apply(c, t, a).parts[p] == PartAfter(c, t, a, p);
  }

  lemma OwnPositionHasId(c: Config, t: State, p: nat, o: nat, b: Bid)
    requires TableInv(c, t) && Logged(t, p, o, b)
    ensures PositionTaken(t.rows, p, o) ==> HasId(t.rows, b.id)
  {
    if PositionTaken(t.rows, p, o) {
      var i :| 0 <= i < |t.rows| && t.rows[i].partition == p && t.rows[i].offset == o;
      assert RowInv(c, t, t.rows[i]);
    }
  }

  /** A refused valid bid has a row under its id: another message's, or its own. */
  lemma RefusedHasRow(c: Config, t: State, p: nat, b: Bid)
    requires Inv(c, t) && p < |t.parts| && t.parts[p].stage.Judged? && t.parts[p].stage.flight.bid == b
    requires ValidBid(c, b)
    requires Conflicts(c.ref, t.rows, RowOf(p, t.parts[p].stage.flight))
    ensures HasId(t.rows, b.id)
  {
    assert PartitionInv(t.parts[p]);
    OwnPositionHasId(c, t, p, t.parts[p].stage.flight.offset, b);
  }

  /** A delivery that has not ended in a row by step `n` is still in hand there, or broke. */
  lemma {:induction false} DeliveryEnds(c: Config, s: State, steps: seq<Step>, p: nat, o: nat, b: Bid, k: nat, n: nat)
    requires Initial(s) && Executable(c, s, steps) && k < n <= |steps| && Delivers(c, s, steps, p, o, k)
    requires Logged(StateAt(c, s, steps, k), p, o, b) && ValidBid(c, b) && !HasId(StateAt(c, s, steps, n).rows, b.id)
    ensures InHandThrough(c, s, steps, p, o, k, n) || DeliveryBreaks(c, s, steps, p, o, k)
    decreases n
  {
    hide StateAt, Inv, Apply, Enabled, Logged, InHand, LogInv, TableInv, Initial;
    Next(c, s, steps, n - 1);
    var t := StateAt(c, s, steps, n - 1);
    if n == k + 1 {
      TakesInHand(c, t, p);
    } else {
      RowsLater(c, s, steps, n - 1, n);
      DeliveryEnds(c, s, steps, p, o, b, k, n - 1);
      LoggedLater(c, s, steps, k, n - 1, p, o, b);
      InvAt(c, s, steps, n - 1);
      if InHandThrough(c, s, steps, p, o, k, n - 1) && !InHand(Apply(c, t, steps[n - 1]), p, o)
        && !Breaks(steps[n - 1], p) {
        EndsInRow(c, t, steps[n - 1], p, o, b);
      }
    }
  }

  lemma EndsInRow(c: Config, t: State, a: Step, p: nat, o: nat, b: Bid)
    requires Inv(c, t) && Enabled(c, t, a) && InHand(t, p, o) && Logged(t, p, o, b) && ValidBid(c, b)
    requires !InHand(Apply(c, t, a), p, o) && !Breaks(a, p)
    ensures HasId(Apply(c, t, a).rows, b.id)
  {
    var t' := Apply(c, t, a);
    LeavesHand(c, t, a, p, o, b);
    if a == StoreRow(p) {
      assert t'.rows[|t.rows|].bid == b;
    } else {
      RefusedHasRow(c, t, p, b);
      RowsGrow(c, t, a);
      var i :| 0 <= i < |t.rows| && t.rows[i].bid.id == b.id;
      assert t'.rows[i] == t.rows[i];
    }
  }

  /** The step that stored a row of the run. */
  lemma {:induction false} RowWasStored(c: Config, s: State, steps: seq<Step>, i: nat, n: nat) returns (m: nat)
    requires Initial(s) && Executable(c, s, steps) && n <= |steps| && i < |StateAt(c, s, steps, n).rows|
    ensures var r := StateAt(c, s, steps, n).rows[i];
            && m < n && steps[m] == StoreRow(r.partition)
            && InHand(StateAt(c, s, steps, m), r.partition, r.offset)
    decreases n
  {
    assert n > 0;
    Next(c, s, steps, n - 1);
    if i < |StateAt(c, s, steps, n - 1).rows| {
      hide StateAt;
      m := RowWasStored(c, s, steps, i, n - 1);
      RowsGrow(c, StateAt(c, s, steps, n - 1), steps[n - 1]);
    } else {
      m := n - 1;
    }
  }

  lemma CameInHand(c: Config, t: State, a: Step, p: nat, o: nat)
    requires Enabled(c, t, a) && InHand(Apply(c, t, a), p, o) && !InHand(t, p, o)
    ensures a == Take(p) && p < |t.parts| && t.parts[p].position == o
  {
    assert Apply(c, t, a).parts[p] == PartAfter(c, t, a, p);
  }

  lemma NothingInHandAtFirst(c: Config, s: State, steps: seq<Step>, p: nat, o: nat)
    requires Initial(s) && Executable(c, s, steps)
    ensures !InHand(StateAt(c, s, steps, 0), p, o)
  {
  }

  /** What is in hand was delivered, and has been in hand since. */
  lemma {:induction false} WasDelivered(c: Config, s: State, steps: seq<Step>, p: nat, o: nat, m: nat) returns (k: nat)
    requires Initial(s) && Executable(c, s, steps) && m <= |steps| && InHand(StateAt(c, s, steps, m), p, o)
    ensures Delivers(c, s, steps, p, o, k) && InHandThrough(c, s, steps, p, o, k, m)
    decreases m
  {
    hide Apply, Enabled, StateAt, InHand, Initial, Executable, Exec;
    NothingInHandAtFirst(c, s, steps, p, o);
    Next(c, s, steps, m - 1);
    if InHand(StateAt(c, s, steps, m - 1), p, o) {
      k := WasDelivered(c, s, steps, p, o, m - 1);
    } else {
      k := m - 1;
      CameInHand(c, StateAt(c, s, steps, k), steps[k], p, o);
    }
  }

  /** A delivery that led to a row did not break. */
  lemma StoredDidNotBreak(c: Config, s: State, steps: seq<Step>, p: nat, o: nat, k: nat, m: nat)
    requires Executable(c, s, steps) && m < |steps| && steps[m] == StoreRow(p) && InHandThrough(c, s, steps, p, o, k, m)
    ensures !DeliveryBreaks(c, s, steps, p, o, k)
  {
    hide StateAt, Apply, Enabled, InHand;
    Next(c, s, steps, m);
    StaysInHand(c, StateAt(c, s, steps, m), steps[m], p, o);
    assert !InHand(StateAt(c, s, steps, m + 1), p, o);
    forall n | 0 <= n < |steps| && InHandThrough(c, s, steps, p, o, k, n) ensures !Breaks(steps[n], p) {
      if n < m {
        Next(c, s, steps, n);
        assert InHand(StateAt(c, s, steps, n + 1), p, o);
        StaysInHand(c, StateAt(c, s, steps, n), steps[n], p, o);
      }
    }
  }

  /** Below the committed offset nothing is in hand. */
  lemma CommittedIsNotInHand(c: Config, t: State, p: nat, o: nat)
    requires LogInv(c, t) && AccountInv(c, t) && p < |t.parts| && o < t.parts[p].committed
    ensures !InHand(t, p, o)
  {
    assert PartitionInv(t.parts[p]);
  }

  lemma {:induction false} DeliveredBefore(c: Config, s: State, steps: seq<Step>, p: nat, o: nat, b: Bid, k: nat)
    requires Initial(s) && Executable(c, s, steps) && Delivers(c, s, steps, p, o, k)
    requires Logged(Exec(c, s, steps), p, o, b)
    ensures Logged(StateAt(c, s, steps, k), p, o, b)
  {
    Next(c, s, steps, k);
    var t := StateAt(c, s, steps, k);
    assert o < |t.parts[p].log|;
    LogLater(c, s, steps, p, k);
    assert steps[..|steps|] == steps;
  }

  lemma {:induction false} LogLater(c: Config, s: State, steps: seq<Step>, p: nat, k: nat)
    requires Executable(c, s, steps) && k <= |steps| && p < |StateAt(c, s, steps, k).parts|
    ensures p < |StateAt(c, s, steps, |steps|).parts|
    ensures StateAt(c, s, steps, k).parts[p].log <= StateAt(c, s, steps, |steps|).parts[p].log
    decreases |steps| - k
  {
    if k < |steps| {
      Next(c, s, steps, k);
      assert StateAt(c, s, steps, k + 1).parts[p] == PartAfter(c, StateAt(c, s, steps, k), steps[k], p);
      hide StateAt, Enabled;
      LogLater(c, s, steps, p, k + 1);
    }
  }

  /** A valid bid with an id of its own, below the committed offset, is lost exactly when
      every one of its deliveries ended in a failure or a crash before its row was
      committed: one delivery that got through is enough, whatever failed before it. */
  lemma {:induction false} LostExactlyWhen(c: Config, s: State, steps: seq<Step>, p: nat, o: nat, b: Bid)
    requires Initial(s) && Executable(c, s, steps)
    requires p < |Exec(c, s, steps).parts| && o < Exec(c, s, steps).parts[p].committed
    requires Logged(Exec(c, s, steps), p, o, b)
    requires ValidBid(c, b) && OnlyMessage(Exec(c, s, steps), p, o, b.id)
    ensures Lost(c, Exec(c, s, steps), p, o, b)
            <==> forall k: nat :: Delivers(c, s, steps, p, o, k) ==> DeliveryBreaks(c, s, steps, p, o, k)
  {
    var t := Exec(c, s, steps);
    assert steps[..|steps|] == steps;
    assert t == StateAt(c, s, steps, |steps|);
    InvAt(c, s, steps, |steps|);
    CommittedIsNotInHand(c, t, p, o);
    hide StateAt, Initial, InHand, AccountInv;
    if HasId(t.rows, b.id) {
      var i :| 0 <= i < |t.rows| && t.rows[i].bid.id == b.id;
      assert RowInv(c, t, t.rows[i]);
      hide TableInv, LogInv, Logged;
      var m := RowWasStored(c, s, steps, i, |steps|);
      var k := WasDelivered(c, s, steps, p, o, m);
      StoredDidNotBreak(c, s, steps, p, o, k, m);
    } else {
      forall k: nat | Delivers(c, s, steps, p, o, k) ensures DeliveryBreaks(c, s, steps, p, o, k) {
        DeliveredBefore(c, s, steps, p, o, b, k);
        DeliveryEnds(c, s, steps, p, o, b, k, |steps|);
      }
    }
  }

  /** Every lost bid was passed over, so fail-stop runs lose none. */
  lemma LostWasPassedOver(c: Config, s: State, steps: seq<Step>, p: nat, o: nat, b: Bid)
    requires Initial(s) && Executable(c, s, steps) && Lost(c, Exec(c, s, steps), p, o, b)
    ensures o in Exec(c, s, steps).parts[p].skipped
  {
    CommittedOffsetsAreSettled(c, s, steps, p, o);
    RunKeepsInv(c, s, steps);
    OwnPositionHasId(c, Exec(c, s, steps), p, o, b);
  }

  // ---- for good -------------------------------------------------------------------------

  lemma LostStep(c: Config, t: State, a: Step, p: nat, o: nat, b: Bid)
    requires Inv(c, t) && Enabled(c, t, a) && Lost(c, t, p, o, b) && OnlyMessage(t, p, o, b.id)
    ensures Lost(c, Apply(c, t, a), p, o, b)
  {
    var t' := Apply(c, t, a);
    assert t'.parts[p] == PartAfter(c, t, a, p);
    assert PartitionInv(t.parts[p]) && t.parts[p].committed <= Frontier(t.parts[p]);
    LogsOnlyGrow(c, t, a, p, o, b);
    if a.StoreRow? {
      var f := t.parts[a.p].stage.flight;
      assert Logged(t, a.p, f.offset, f.bid) by { assert PartitionInv(t.parts[a.p]); }
    }
  }

  lemma OnlyMessageEarlier(c: Config, t: State, a: Step, p: nat, o: nat, id: Id)
    requires Enabled(c, t, a) && OnlyMessage(Apply(c, t, a), p, o, id)
    ensures OnlyMessage(t, p, o, id)
  {
    forall q, n, d | Logged(t, q, n, d) && d.id == id ensures q == p && n == o { LogsOnlyGrow(c, t, a, q, n, d); }
  }

  /** A lost bid stays lost, whatever is submitted, replayed or restarted after it, as long as
      no other message carries its id. */
  lemma {:induction false} LostForGood(c: Config, s: State, steps: seq<Step>, j: nat, k: nat, p: nat, o: nat, b: Bid)
    requires Initial(s) && Executable(c, s, steps) && j <= k <= |steps|
    requires Lost(c, StateAt(c, s, steps, j), p, o, b) && OnlyMessage(StateAt(c, s, steps, k), p, o, b.id)
    ensures Lost(c, StateAt(c, s, steps, k), p, o, b)
    decreases k
  {
    hide StateAt, Inv, Lost, OnlyMessage, Apply, Enabled, Initial;
    if j < k {
      Next(c, s, steps, k - 1);
      OnlyMessageEarlier(c, StateAt(c, s, steps, k - 1), steps[k - 1], p, o, b.id);
      LostForGood(c, s, steps, j, k - 1, p, o, b);
      InvAt(c, s, steps, k - 1);
      LostStep(c, StateAt(c, s, steps, k - 1), steps[k - 1], p, o, b);
    }
  }
}
