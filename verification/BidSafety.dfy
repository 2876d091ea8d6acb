/** What every run of the critical path keeps, with crashes, replays, skipped
    messages, out-of-order retries, status changes and interleaved partitions. */
module BidSafety {
  import opened Options
  import opened BidDomain
  import opened CriticalPath

  // ---- the log and the stages -------------------------------------------------

  ghost predicate Logged(s: State, p: nat, o: nat, b: Bid) {
    p < |s.parts| && o < |s.parts[p].log| && Deliver(s.parts[p].log[o]) == Decidable(b)
  }

  /** Every message about an auction is in the partition its key maps to. */
  ghost predicate Keyed(c: Config, s: State) {
    forall p, o, b :: Logged(s, p, o, b) ==> c.route(b.auctionId) == p
  }

  function OffsetOf(stage: Stage): Option<nat> {
    match stage
    case Idle => None
    case Taken(o) => Some(o)
    case Looked(o, _) => Some(o)
    case Done(o) => Some(o)
    case Stalled(o) => Some(o)
    case Judged(f) => Some(f.offset)
    case Stored(f) => Some(f.offset)
    case Arbitrated(f) => Some(f.offset)
    case Notified(f) => Some(f.offset)
  }

  predicate InDecision(stage: Stage) {
    stage.Judged? || Storing(stage)
  }

  /** The row of the message in flight is committed, its effects are under way. */
  predicate Storing(stage: Stage) {
    stage.Stored? || stage.Arbitrated? || stage.Notified?
  }

  ghost predicate PartitionInv(part: Partition) {
    && part.committed <= part.position <= |part.log|
    && part.reached <= |part.log|
    && (OffsetOf(part.stage).Some? ==> OffsetOf(part.stage).value + 1 == part.position)
    && (InDecision(part.stage) ==>
          var f := part.stage.flight;
          f.offset < |part.log| && Deliver(part.log[f.offset]) == Decidable(f.bid))
  }

  ghost predicate LogInv(c: Config, s: State) {
    Keyed(c, s) && forall p :: 0 <= p < |s.parts| ==> PartitionInv(s.parts[p])
  }

  lemma LogsOnlyGrow(c: Config, s: State, a: Step, p: nat, o: nat, b: Bid)
    requires Enabled(c, s, a) && Logged(s, p, o, b)
    ensures Logged(Apply(c, s, a), p, o, b)
  {
  }

  lemma PartitionInvStep(c: Config, s: State, a: Step, q: nat)
    requires q < |s.parts| && PartitionInv(s.parts[q]) && Enabled(c, s, a)
    ensures PartitionInv(Apply(c, s, a).parts[q])
  {
    assert Apply(c, s, a).parts[q] == PartAfter(c, s, a, q);
  }

  lemma LogInvStep(c: Config, s: State, a: Step)
    requires LogInv(c, s) && Enabled(c, s, a)
    ensures LogInv(c, Apply(c, s, a))
  {
    var s' := Apply(c, s, a);
    forall p | 0 <= p < |s'.parts| ensures PartitionInv(s'.parts[p]) {
      PartitionInvStep(c, s, a, p);
    }
    forall p, o, b | Logged(s', p, o, b) ensures c.route(b.auctionId) == p {
      NewlyLogged(c, s, a, p, o, b);
    }
  }

  lemma NewlyLogged(c: Config, s: State, a: Step, p: nat, o: nat, b: Bid)
    requires Enabled(c, s, a) && Logged(Apply(c, s, a), p, o, b)
    ensures Logged(s, p, o, b) || (a.Submit? && a.p == p && Deliver(a.message) == Decidable(b))
  {
  }

  // ---- the bids table -----------------------------------------------------------

  ghost predicate RowInv(c: Config, s: State, r: Row) {
    && Logged(s, r.partition, r.offset, r.bid)
    && 0 < r.bid.amount
    && r.bid.auctionId in c.ref.startingPrice
    && r.bid.bidderId in c.ref.users
    && c.route(r.bid.auctionId) == r.partition
  }

  ghost predicate SamePosition(r: Row, t: Row) {
    r.partition == t.partition && r.offset == t.offset
  }

  /** At most one row per log position and at most one per bid id. */
  ghost predicate RowsUnique(rows: seq<Row>) {
    forall i, j :: 0 <= i < j < |rows| ==> !SamePosition(rows[i], rows[j]) && rows[i].bid.id != rows[j].bid.id
  }

  /** The constraints of the bids table. */
  ghost predicate Constrained(ref: Reference, rows: seq<Row>) {
    && RowsUnique(rows)
    && forall i :: 0 <= i < |rows| ==>
         && rows[i].bid.amount > 0 && rows[i].bid.auctionId in ref.startingPrice && rows[i].bid.bidderId in ref.users
  }

  /** An insert is refused exactly if the table with the row would break a constraint. */
  lemma ConflictBreaksConstraints(ref: Reference, rows: seq<Row>, r: Row)
    requires Constrained(ref, rows)
    ensures Conflicts(ref, rows, r) <==> !Constrained(ref, rows + [r])
  {
    var after := rows + [r];
    assert after[|rows|] == r;
    assert forall i :: 0 <= i < |rows| ==> after[i] == rows[i];
  }

  lemma TableIsConstrained(c: Config, s: State)
    requires TableInv(c, s)
    ensures Constrained(c.ref, s.rows)
  {
    assert forall i :: 0 <= i < |s.rows| ==> RowInv(c, s, s.rows[i]);
  }

  /** Accepted amounts of an auction strictly increase in commit order. */
  ghost predicate Increasing(rows: seq<Row>) {
    forall i, j :: 0 <= i < j < |rows| && rows[i].accepted && rows[j].accepted
                   && rows[i].bid.auctionId == rows[j].bid.auctionId
      ==> rows[i].bid.amount < rows[j].bid.amount
  }

  ghost predicate AboveStart(ref: Reference, rows: seq<Row>) {
    forall i :: 0 <= i < |rows| && rows[i].accepted && rows[i].bid.auctionId in ref.startingPrice
      ==> rows[i].bid.amount > ref.startingPrice[rows[i].bid.auctionId]
  }

  /** The last row committed for a partition. */
  function LastIn(rows: seq<Row>, p: nat): (r: Option<Row>)
    ensures r.None? ==> forall i :: 0 <= i < |rows| ==> rows[i].partition != p
    ensures r.Some? ==> exists i :: 0 <= i < |rows| && rows[i] == r.value && r.value.partition == p
                                    && forall j :: i < j < |rows| ==> rows[j].partition != p
  {
    if rows == [] then None
    else if rows[|rows| - 1].partition == p then Some(rows[|rows| - 1])
    else LastIn(rows[..|rows| - 1], p)
  }

  /** A decision still follows from the status it read and the committed table. */
  ghost predicate StillRight(ref: Reference, rows: seq<Row>, f: Flight) {
    f.verdict == Judge(ref, SeenLive(f.bid, f.live), rows, f.bid)
  }

  ghost predicate FlightInv(c: Config, s: State, p: nat)
    requires p < |s.parts|
  {
    var stage := s.parts[p].stage;
    && (stage.Judged? ==> StillRight(c.ref, s.rows, stage.flight))
    && (Storing(stage) ==> LastIn(s.rows, p) == Some(RowOf(p, stage.flight)))
  }

  ghost predicate TableInv(c: Config, s: State) {
    && (forall i :: 0 <= i < |s.rows| ==> RowInv(c, s, s.rows[i]))
    && RowsUnique(s.rows)
    && Increasing(s.rows)
    && AboveStart(c.ref, s.rows)
    && (forall p :: 0 <= p < |s.parts| ==> FlightInv(c, s, p))
  }

  lemma AppendLast(rows: seq<Row>, r: Row, p: nat)
    ensures LastIn(rows + [r], p) == if r.partition == p then Some(r) else LastIn(rows, p)
  {
  }

  lemma AppendHighest(rows: seq<Row>, r: Row, a: Id)
    requires !AcceptedFor(r, a)
    ensures Highest(rows + [r], a) == Highest(rows, a)
  {
  }

  /** Committing another partition's row leaves a decision in flight right: this is
      what makes the read and the insert of `decide_bid` serial without a lock. */
  lemma DecisionSurvives(c: Config, s: State, p: nat, r: Row)
    requires LogInv(c, s) && TableInv(c, s) && p < |s.parts| && s.parts[p].stage.Judged?
    requires r.partition != p && c.route(r.bid.auctionId) == r.partition
    ensures StillRight(c.ref, s.rows + [r], s.parts[p].stage.flight)
  {
    var f := s.parts[p].stage.flight;
    assert Logged(s, p, f.offset, f.bid);
    assert FlightInv(c, s, p);
    AppendHighest(s.rows, r, f.bid.auctionId);
  }

  lemma StoreKeepsRows(c: Config, s: State, p: nat, r: Row)
    requires LogInv(c, s) && TableInv(c, s) && Enabled(c, s, StoreRow(p)) && r == RowOf(p, s.parts[p].stage.flight)
    ensures RowsUnique(s.rows + [r]) && Increasing(s.rows + [r]) && AboveStart(c.ref, s.rows + [r])
  {
    assert FlightInv(c, s, p);
    FreshRow(c, s, r);
    hide LogInv, PartsAfter, Conflicts;
  }

  lemma FreshRow(c: Config, s: State, r: Row)
    requires RowsUnique(s.rows) && !Conflicts(c.ref, s.rows, r)
    ensures RowsUnique(s.rows + [r])
  {
  }

  lemma StoreKeepsFlights(c: Config, s: State, p: nat, q: nat)
    requires LogInv(c, s) && TableInv(c, s) && Enabled(c, s, StoreRow(p)) && q < |s.parts|
    ensures FlightInv(c, Apply(c, s, StoreRow(p)), q)
  {
    var f := s.parts[p].stage.flight;
    assert Logged(s, p, f.offset, f.bid);
    AppendLast(s.rows, RowOf(p, f), q);
    assert FlightInv(c, s, q);
    assert Apply(c, s, StoreRow(p)).parts[q] == PartAfter(c, s, StoreRow(p), q);
    if q != p && s.parts[q].stage.Judged? { DecisionSurvives(c, s, q, RowOf(p, f)); }
  }

  lemma RowInvStep(c: Config, s: State, a: Step, r: Row)
    requires RowInv(c, s, r) && Enabled(c, s, a)
    ensures RowInv(c, Apply(c, s, a), r)
  {
    LogsOnlyGrow(c, s, a, r.partition, r.offset, r.bid);
  }

  lemma StoredRowInv(c: Config, s: State, p: nat)
    requires LogInv(c, s) && Enabled(c, s, StoreRow(p))
    ensures RowInv(c, Apply(c, s, StoreRow(p)), RowOf(p, s.parts[p].stage.flight))
  {
    var f := s.parts[p].stage.flight;
    assert Logged(s, p, f.offset, f.bid);
    LogsOnlyGrow(c, s, StoreRow(p), p, f.offset, f.bid);
  }

  lemma StoreKeepsTable(c: Config, s: State, p: nat)
    requires LogInv(c, s) && TableInv(c, s) && Enabled(c, s, StoreRow(p))
    ensures TableInv(c, Apply(c, s, StoreRow(p)))
  {
    var s' := Apply(c, s, StoreRow(p));
    forall i | 0 <= i < |s'.rows| ensures RowInv(c, s', s'.rows[i]) {
      if i < |s.rows| { RowInvStep(c, s, StoreRow(p), s.rows[i]); } else { StoredRowInv(c, s, p); }
    }
    StoreKeepsRows(c, s, p, RowOf(p, s.parts[p].stage.flight));
    forall q | 0 <= q < |s'.parts| ensures FlightInv(c, s', q) {
      StoreKeepsFlights(c, s, p, q);
    }
  }

  lemma FlightInvStep(c: Config, s: State, a: Step, q: nat)
    requires q < |s.parts| && FlightInv(c, s, q) && Enabled(c, s, a) && !a.StoreRow?
    ensures FlightInv(c, Apply(c, s, a), q)
  {
    assert Apply(c, s, a).parts[q] == PartAfter(c, s, a, q);
  }

  lemma TableInvStep(c: Config, s: State, a: Step)
    requires LogInv(c, s) && TableInv(c, s) && Enabled(c, s, a)
    ensures TableInv(c, Apply(c, s, a))
  {
    var s' := Apply(c, s, a);
    if a.StoreRow? {
      StoreKeepsTable(c, s, a.p);
    } else {
      assert s'.rows == s.rows;
      forall i | 0 <= i < |s.rows| ensures RowInv(c, s', s.rows[i]) {
        RowInvStep(c, s, a, s.rows[i]);
      }
      forall p | 0 <= p < |s'.parts| ensures FlightInv(c, s', p) {
        FlightInvStep(c, s, a, p);
      }
    }
  }
}
