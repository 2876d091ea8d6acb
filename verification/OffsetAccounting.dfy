/** What a committed offset promises about the messages below it. */
module OffsetAccounting {
  import opened BidDomain
  import opened CriticalPath
  import opened BidSafety

  ghost predicate RefusedByConstraint(c: Config, s: State, p: nat, o: nat)
    requires p < |s.parts| && o < |s.parts[p].log|
  {
    Deliver(s.parts[p].log[o]).Decidable? && Refusable(c.ref, s.rows, Deliver(s.parts[p].log[o]).bid)
  }

  /** The message has a row, is poison, is refused by a constraint, or failed before
      its commit and was passed over. */
  ghost predicate Settled(c: Config, s: State, p: nat, o: nat) {
    && p < |s.parts| && o < |s.parts[p].log|
    && (|| PositionTaken(s.rows, p, o)
        || Deliver(s.parts[p].log[o]).Poison?
        || RefusedByConstraint(c, s, p, o)
        || o in s.parts[p].skipped)
  }

  /** Yielded by the consumer, its row not committed. */
  predicate Undecided(stage: Stage) {
    stage.Taken? || stage.Looked? || stage.Judged?
  }

  /** One past the last offset the consumer has finished with. */
  function Frontier(part: Partition): int {
    if Undecided(part.stage) || part.stage.Stalled? then part.position - 1 else part.position
  }

  ghost predicate AccountInv(c: Config, s: State) {
    && (forall p :: 0 <= p < |s.parts| ==> s.parts[p].committed <= Frontier(s.parts[p]))
    && (forall p, o :: 0 <= p < |s.parts| && 0 <= o < Frontier(s.parts[p]) ==> Settled(c, s, p, o))
  }

  lemma SettledStays(c: Config, s: State, a: Step, p: nat, o: nat)
    requires Settled(c, s, p, o) && Enabled(c, s, a)
    ensures Settled(c, Apply(c, s, a), p, o)
  {
    var s' := Apply(c, s, a);
    assert s'.parts[p] == PartAfter(c, s, a, p);
    assert forall i :: 0 <= i < |s.rows| ==> s'.rows[i] == s.rows[i];
  }

  /** The step that finishes with a message settles it. */
  lemma FrontierMoves(c: Config, s: State, a: Step, p: nat, o: nat)
    requires LogInv(c, s) && TableInv(c, s) && Enabled(c, s, a) && p < |s.parts|
    requires s.parts[p].committed <= Frontier(s.parts[p]) <= o < Frontier(Apply(c, s, a).parts[p])
    ensures Settled(c, Apply(c, s, a), p, o)
  {
    var s' := Apply(c, s, a);
    assert s'.parts[p] == PartAfter(c, s, a, p);
    assert PartitionInv(s.parts[p]);
    if a == StoreRow(p) {
      StoreSettles(c, s, p);
    } else if a.Refuse? && a.p == p {
      RefuseSettles(c, s, a);
    } else {
      hide Settled, Conflicts, Worked;
      OthersSettle(c, s, a, p, o);
    }
  }

  /** Otherwise it is poison, or passed over. */
  lemma OthersSettle(c: Config, s: State, a: Step, p: nat, o: nat)
    requires Enabled(c, s, a) && p < |s.parts| && PartitionInv(s.parts[p]) && a != StoreRow(p)
    requires !(a.Refuse? && a.p == p)
    requires s.parts[p].committed <= Frontier(s.parts[p]) <= o < Frontier(Apply(c, s, a).parts[p])
    ensures Settled(c, Apply(c, s, a), p, o)
  {
    assert Apply(c, s, a).parts[p] == PartAfter(c, s, a, p);
  }

  lemma StoreSettles(c: Config, s: State, p: nat)
    requires Enabled(c, s, StoreRow(p)) && PartitionInv(s.parts[p])
    ensures Settled(c, Apply(c, s, StoreRow(p)), p, s.parts[p].stage.flight.offset)
  {
    var s' := Apply(c, s, StoreRow(p));
    assert s'.parts[p] == PartAfter(c, s, StoreRow(p), p);
    assert s'.rows[|s.rows|] == RowOf(p, s.parts[p].stage.flight);
  }

  lemma RefuseSettles(c: Config, s: State, a: Step)
    requires Enabled(c, s, a) && a.Refuse? && PartitionInv(s.parts[a.p])
    ensures Settled(c, Apply(c, s, a), a.p, s.parts[a.p].stage.flight.offset)
  {
    assert Apply(c, s, a).parts[a.p] == PartAfter(c, s, a, a.p);
  }

  lemma AccountInvStep(c: Config, s: State, a: Step)
    requires LogInv(c, s) && TableInv(c, s) && AccountInv(c, s) && Enabled(c, s, a)
    ensures AccountInv(c, Apply(c, s, a))
  {
    var s' := Apply(c, s, a);
    forall p | 0 <= p < |s'.parts| ensures s'.parts[p].committed <= Frontier(s'.parts[p]) {
      assert s'.parts[p] == PartAfter(c, s, a, p);
      assert PartitionInv(s.parts[p]);
    }
    forall p, o | 0 <= p < |s'.parts| && 0 <= o < Frontier(s'.parts[p]) ensures Settled(c, s', p, o) {
      if o < Frontier(s.parts[p]) { SettledStays(c, s, a, p, o); } else { FrontierMoves(c, s, a, p, o); }
    }
  }
}
