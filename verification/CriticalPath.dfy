/** The bid critical path as a step system. A partition has an append-only log, the
    consumer's position, the committed offset and the stage of the message in
    flight; the bids table, the cache and the two outgoing channels are shared.
    Every await between two effects is a point where another step, a failure or a
    crash can come.

    Three fields only record history, the code has no such state: `reached` and
    `skipped` of a partition, and `arbitrated`. */
module CriticalPath {
  import opened Options
  import opened BidDomain
  import Binary64

  /** `route` is the partitioner: it maps a message key (an auction id) to a partition. */
  datatype Config = Config(ref: Reference, route: Id -> nat)

  /** The locals of `decide_bid` once the decision is made; `live` is the status it read. */
  datatype Flight = Flight(offset: nat, bid: Bid, live: bool, verdict: Verdict)

  datatype Stage =
    | Idle
    | Taken(offset: nat)        // yielded by the consumer, nothing decided
    | Looked(offset: nat, live: bool) // auction read, highest bid not yet
    | Judged(flight: Flight)    // decided inside the transaction, row not committed
    | Stored(flight: Flight)    // row committed
    | Arbitrated(flight: Flight) // cache updated, or nothing to update
    | Notified(flight: Flight)  // update channel published
    | Done(offset: nat)         // back in the worker, about to commit the offset
    | Stalled(offset: nat)      // an exception before any row was committed

  datatype Partition = Partition(
    log: seq<Message>,
    position: nat,        // next offset the consumer will yield
    committed: nat,       // next offset after a restart
    stage: Stage,
    reached: nat,         // history: one past the highest offset ever settled
    skipped: set<nat>     // history: offsets passed over while stalled
  )

  /** A `BidResult`. */
  datatype Event = Event(bid: Bid, verdict: Verdict)

  datatype State = State(
    parts: seq<Partition>,
    rows: seq<Row>,          // the bids table, in commit order
    cache: map<Id, Cached>,
    arbitrated: seq<Id>,     // history: ids of the bids the script was run for
    updates: seq<Event>,     // the Redis channel
    results: seq<Event>,     // the results topic
    live: set<Id>            // auctions whose status is "live"
  )

  datatype Step =
    | Submit(p: nat, message: Message)
    | SetLive(auction: Id, on: bool)
    | Take(p: nat)
    | SkipPoison(p: nat)
    | Look(p: nat)
    | JudgeBid(p: nat)
    | StoreRow(p: nat)
    | Refuse(p: nat, acknowledged: bool)
    | RunScript(p: nat)
    | Notify(p: nat)
    | Publish(p: nat)
    | CommitOffsets(p: nat, others: set<nat>)
    | Fail(p: nat)
    | Crash(ps: set<nat>)

  function RowOf(p: nat, f: Flight): Row {
    Row(f.bid, f.verdict.Accepted?, p, f.offset)
  }

  function Max(a: nat, b: nat): nat {
    if a < b then b else a
  }

  /** Offsets a partition has passed over, once its consumer moves on. */
  function PassedOver(part: Partition): set<nat> {
    if part.stage.Stalled? then part.skipped + {part.stage.offset} else part.skipped
  }

  predicate Resting(stage: Stage) {
    stage.Idle? || stage.Stalled?
  }

  ghost predicate Enabled(c: Config, s: State, a: Step) {
    match a
    case Submit(p, m) =>
      p < |s.parts| && (Deliver(m).Decidable? ==> c.route(Deliver(m).bid.auctionId) == p)
    case SetLive(_, _) => true
    case Take(p) => p < |s.parts| && Resting(s.parts[p].stage) && s.parts[p].position < |s.parts[p].log|
    case SkipPoison(p) =>
      p < |s.parts| && s.parts[p].stage.Taken? && s.parts[p].stage.offset < |s.parts[p].log|
      && Deliver(s.parts[p].log[s.parts[p].stage.offset]).Poison?
    case Look(p) =>
      p < |s.parts| && s.parts[p].stage.Taken? && s.parts[p].stage.offset < |s.parts[p].log|
      && Deliver(s.parts[p].log[s.parts[p].stage.offset]).Decidable?
    case JudgeBid(p) =>
      p < |s.parts| && s.parts[p].stage.Looked? && s.parts[p].stage.offset < |s.parts[p].log|
      && Deliver(s.parts[p].log[s.parts[p].stage.offset]).Decidable?
    case StoreRow(p) =>
      p < |s.parts| && s.parts[p].stage.Judged? && !Conflicts(c.ref, s.rows, RowOf(p, s.parts[p].stage.flight))
    case Refuse(p, _) =>
      p < |s.parts| && s.parts[p].stage.Judged? && Conflicts(c.ref, s.rows, RowOf(p, s.parts[p].stage.flight))
    case RunScript(p) =>
      p < |s.parts| && s.parts[p].stage.Stored? && CacheReady(s, s.parts[p].stage.flight.bid)
    case Notify(p) => p < |s.parts| && s.parts[p].stage.Arbitrated?
    case Publish(p) => p < |s.parts| && s.parts[p].stage.Notified?
    case CommitOffsets(p, others) =>
      p < |s.parts| && s.parts[p].stage.Done? && forall q :: q in others && q < |s.parts| ==> Resting(s.parts[q].stage)
    case Fail(p) => p < |s.parts| && !Resting(s.parts[p].stage)
    case Crash(_) => true
  }

  /** Amounts in the cache and in the bid are within the column's range. */
  predicate CacheReady(s: State, b: Bid) {
    0 <= b.amount < Binary64.MAX_CENTS
    && (b.auctionId in s.cache ==> s.cache[b.auctionId].amount < Binary64.MAX_CENTS)
  }

  /** The message at `o` is settled: its row is in, or it was refused or skipped as poison. */
  function Settle(part: Partition, o: nat, stage: Stage): Partition {
    part.(stage := stage, reached := Max(part.reached, o + 1))
  }

  /** `consumer.commit()` without arguments: every assigned partition's position. */
  function CommitPartition(part: Partition): Partition {
    part.(committed := part.position, stage := Idle, skipped := PassedOver(part))
  }

  function RestartPartition(part: Partition): Partition {
    part.(position := part.committed, stage := Idle)
  }

  function FailPartition(part: Partition): Partition {
    match part.stage
    case Taken(o) => part.(stage := Stalled(o))
    case Looked(o, _) => part.(stage := Stalled(o))
    case Judged(f) => part.(stage := Stalled(f.offset))
    case _ => part.(stage := Idle)
  }

  /** The partition a step works on; commits, restarts and status changes have none. */
  function Target(a: Step): Option<nat> {
    match a
    case SetLive(_, _) => None
    case CommitOffsets(_, _) => None
    case Crash(_) => None
    case Submit(p, _) => Some(p)
    case Take(p) => Some(p)
    case SkipPoison(p) => Some(p)
    case Look(p) => Some(p)
    case JudgeBid(p) => Some(p)
    case StoreRow(p) => Some(p)
    case Refuse(p, _) => Some(p)
    case RunScript(p) => Some(p)
    case Notify(p) => Some(p)
    case Publish(p) => Some(p)
    case Fail(p) => Some(p)
  }

  /** The effect of a step on the partition it works on. */
  ghost function Worked(c: Config, s: State, a: Step): Partition
    requires Enabled(c, s, a) && Target(a).Some?
  {
    var part := s.parts[Target(a).value];
    match a
    case Submit(_, m) => part.(log := part.log + [m])
    case Take(_) => part.(position := part.position + 1, stage := Taken(part.position), skipped := PassedOver(part))
    case SkipPoison(_) => Settle(part, part.stage.offset, Done(part.stage.offset))
    case Look(_) => part.(stage := Looked(part.stage.offset,
                                          Deliver(part.log[part.stage.offset]).bid.auctionId in s.live))
    case JudgeBid(_) =>
      var b, live := Deliver(part.log[part.stage.offset]).bid, part.stage.live;
      part.(stage := Judged(Flight(part.stage.offset, b, live, Judge(c.ref, SeenLive(b, live), s.rows, b))))
    case StoreRow(_) => Settle(part, part.stage.flight.offset, Stored(part.stage.flight))
    case Refuse(_, acknowledged) =>
      var o := part.stage.flight.offset;
      Settle(part, o, if acknowledged then Done(o) else Idle)
    case RunScript(_) => part.(stage := Arbitrated(part.stage.flight))
    case Notify(_) => part.(stage := Notified(part.stage.flight))
    case Publish(_) => part.(stage := Done(part.stage.flight.offset))
    case Fail(_) => FailPartition(part)
  }

  ghost function PartAfter(c: Config, s: State, a: Step, q: nat): Partition
    requires Enabled(c, s, a) && q < |s.parts|
  {
    match a
    case SetLive(_, _) => s.parts[q]
    case CommitOffsets(p, others) => if q == p || q in others then CommitPartition(s.parts[q]) else s.parts[q]
    case Crash(ps) => if q in ps then RestartPartition(s.parts[q]) else s.parts[q]
    case _ => if Target(a) == Some(q) then Worked(c, s, a) else s.parts[q]
  }

  ghost function PartsAfter(c: Config, s: State, a: Step): (parts: seq<Partition>)
    requires Enabled(c, s, a)
    ensures |parts| == |s.parts|
    ensures forall q :: 0 <= q < |parts| ==> parts[q] == PartAfter(c, s, a, q)
  {
    seq(|s.parts|, q requires 0 <= q < |s.parts| => PartAfter(c, s, a, q))
  }

  /** The script runs for accepted bids only. */
  ghost predicate Scripts(s: State, a: Step) {
    a.RunScript? && a.p < |s.parts| && s.parts[a.p].stage.Stored? && s.parts[a.p].stage.flight.verdict.Accepted?
  }

  function EventOf(f: Flight): Event {
    Event(f.bid, f.verdict)
  }

  ghost function Apply(c: Config, s: State, a: Step): (s': State)
    requires Enabled(c, s, a)
  {
    State(
      PartsAfter(c, s, a),
      if a.StoreRow? then s.rows + [RowOf(a.p, s.parts[a.p].stage.flight)] else s.rows,
      if Scripts(s, a) then Arbitrate(s.cache, s.parts[a.p].stage.flight.bid) else s.cache,
      if Scripts(s, a) then s.arbitrated + [s.parts[a.p].stage.flight.bid.id] else s.arbitrated,
      if a.Notify? then s.updates + [EventOf(s.parts[a.p].stage.flight)] else s.updates,
      if a.Publish? then s.results + [EventOf(s.parts[a.p].stage.flight)] else s.results,
      if a.SetLive? then (if a.on then s.live + {a.auction} else s.live - {a.auction}) else s.live)
  }

  ghost predicate Initial(s: State) {
    && (forall p :: 0 <= p < |s.parts| ==> s.parts[p] == Partition([], 0, 0, Idle, 0, {}))
    && s.rows == [] && s.cache == map[] && s.arbitrated == [] && s.updates == [] && s.results == []
  }

  // ---- runs -----------------------------------------------------------------

  /** `steps` can be taken one after the other from `s`. */
  ghost predicate Executable(c: Config, s: State, steps: seq<Step>)
    decreases |steps|, 0
  {
    steps == []
    || (Executable(c, s, steps[..|steps| - 1]) && Enabled(c, Exec(c, s, steps[..|steps| - 1]), steps[|steps| - 1]))
  }

  /** The state after `steps`. */
  ghost function Exec(c: Config, s: State, steps: seq<Step>): State
    requires Executable(c, s, steps)
    decreases |steps|, 1
  {
    if steps == [] then s else Apply(c, Exec(c, s, steps[..|steps| - 1]), steps[|steps| - 1])
  }

  lemma {:induction false} PrefixExecutable(c: Config, s: State, steps: seq<Step>, k: nat)
    requires Executable(c, s, steps) && k <= |steps|
    ensures Executable(c, s, steps[..k])
  {
    if k < |steps| {
      PrefixExecutable(c, s, steps[..|steps| - 1], k);
      assert steps[..|steps| - 1][..k] == steps[..k];
    } else {
      assert steps[..k] == steps;
    }
  }

  /** A run is fail-stop when no stalled message is ever passed over: the process
      restarts before the consumer yields or commits past it. */
  ghost predicate Halts(s: State, a: Step) {
    match a
    case Take(p) => p < |s.parts| && !s.parts[p].stage.Stalled?
    case CommitOffsets(_, others) => forall q :: q in others && q < |s.parts| ==> !s.parts[q].stage.Stalled?
    case _ => true
  }

  ghost predicate FailStop(c: Config, s: State, steps: seq<Step>)
    requires Executable(c, s, steps)
  {
    steps == []
    || (FailStop(c, s, steps[..|steps| - 1]) && Halts(Exec(c, s, steps[..|steps| - 1]), steps[|steps| - 1]))
  }

  ghost predicate StatusesFixed(steps: seq<Step>) {
    forall i :: 0 <= i < |steps| ==> !steps[i].SetLive?
  }
}
