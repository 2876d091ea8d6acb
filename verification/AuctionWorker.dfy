/** The API's publish, the worker's transaction, `decide_bid` and the consumer loop, as
    one process runs them. Every method is a sequence of steps of the critical path,
    so what holds of every run holds of what these methods do. */
module AuctionWorker {
  import opened Options
  import opened BidDomain
  import opened CriticalPath
  import opened BidSafety
  import opened BidEffects
  import opened BidRuns
  import Binary64

  /** One SQLAlchemy session inside `session_scope`. */
  class Session {
    var table: seq<Row>        // committed rows
    var flushed: Option<Row>   // written in this transaction
    var deactivated: bool      // a flush failed: only a rollback is possible

    constructor (rows: seq<Row>)
      ensures table == rows && flushed == None && !deactivated
    {
      table, flushed, deactivated := rows, None, false;
    }

    /** `add` and `flush`; true is `IntegrityError`. */
    method Flush(ref: Reference, r: Row) returns (violated: bool)
      requires flushed == None && !deactivated
      modifies this
      ensures table == old(table)
      ensures violated == Conflicts(ref, table, r)
      ensures Constrained(ref, table) ==> (violated <==> !Constrained(ref, table + [r]))
      ensures deactivated == violated && flushed == if violated then None else Some(r)
    {
      if Constrained(ref, table) { ConflictBreaksConstraints(ref, table, r); }
      violated := Conflicts(ref, table, r);
      if violated { deactivated := true; } else { flushed := Some(r); }
    }

    /** The commit of `session_scope`, with its rollback when the commit raises: all of
        the transaction or nothing of it, and the session is usable again. */
    method CommitOrRollback(raises: bool, pendingRaises: bool) returns (raised: bool)
      modifies this
      ensures raised == (if old(deactivated) then pendingRaises else raises)
      ensures table == if raised || old(flushed).None? then old(table) else old(table) + [old(flushed).value]
      ensures flushed == None && !deactivated
    {
      raised := if deactivated then pendingRaises else raises;
      if !raised && flushed.Some? { table := table + [flushed.value]; }
      flushed, deactivated := None, false;
    }
  }

  /** Where one delivery of a message raises; `applied` tells whether the effect took
      place before the exception. */
  datatype Fault =
    | Fine
    | BeforeInsert
    | AtCommit
    | AtScript(applied: bool)
    | AtUpdate(applied: bool)
    | AtResult(applied: bool)

  /** `pendingRaises`: whether committing after a failed flush raises. */
  datatype Attempt = Attempt(fault: Fault, pendingRaises: bool)

  datatype Decision = Decided(event: Event) | AlreadyProcessed | RaisedError

  /** What becomes of a publish: acknowledged, or an exception with or without the message
      in the log. */
  datatype Broker = Acknowledges | AppendsAndFails | Fails

  datatype Submission = Received(bid: Bid) | AuctionNotFound | AuctionNotLive | NotEligible | PublishFailed

  // ---- composing runs --------------------------------------------------------------

  /** `steps` leads from `s` to `t`. */
  ghost predicate Leads(c: Config, s: State, steps: seq<Step>, t: State) {
    Executable(c, s, steps) && Exec(c, s, steps) == t
  }

  lemma LeadsFurther(c: Config, s: State, steps: seq<Step>, t: State, a: Step)
    requires Leads(c, s, steps, t) && Enabled(c, t, a)
    ensures Leads(c, s, steps + [a], Apply(c, t, a))
  {
  }

  lemma {:induction false} LeadsOn(c: Config, s: State, steps: seq<Step>, t: State, more: seq<Step>, u: State)
    requires Leads(c, s, steps, t) && Leads(c, t, more, u)
    ensures Leads(c, s, steps + more, u)
  {
    if more == [] {
      assert steps + more == steps;
    } else {
      var front := more[..|more| - 1];
      LeadsOn(c, s, steps, t, front, Exec(c, t, front));
      LeadsFurther(c, s, steps + front, Exec(c, t, front), more[|more| - 1]);
      assert steps + front + [more[|more| - 1]] == steps + more;
    }
  }

  lemma {:induction false} LeadsKeepsInv(c: Config, s: State, steps: seq<Step>)
    requires Inv(c, s) && Executable(c, s, steps)
    ensures Inv(c, Exec(c, s, steps))
  {
    if steps != [] {
      LeadsKeepsInv(c, s, steps[..|steps| - 1]);
      InvStep(c, Exec(c, s, steps[..|steps| - 1]), steps[|steps| - 1]);
    }
  }

  lemma StartsAt(c: Config, s: State)
    ensures Leads(c, s, [], s)
  {
  }

  lemma LeadsInv(c: Config, s: State, steps: seq<Step>, t: State)
    requires Inv(c, s) && Leads(c, s, steps, t)
    ensures Inv(c, t)
  {
    LeadsKeepsInv(c, s, steps);
  }

  lemma WorkedOnly(c: Config, s: State, a: Step)
    requires Enabled(c, s, a) && Target(a).Some? && Target(a).value < |s.parts|
    ensures PartsAfter(c, s, a) == s.parts[Target(a).value := Worked(c, s, a)]
  {
  }

  function Count(stream: seq<nat>, q: nat): nat {
    if stream == [] then 0
    else Count(stream[..|stream| - 1], q) + (if stream[|stream| - 1] == q then 1 else 0)
  }

  lemma CountNext(stream: seq<nat>, q: nat, k: nat)
    requires k < |stream|
    ensures Count(stream[..k + 1], q) == Count(stream[..k], q) + (if stream[k] == q then 1 else 0)
  {
    assert stream[..k + 1][..k] == stream[..k];
  }

  /** Where partition `q` is once the stream has yielded its messages, as far as it has any. */
  function Yielded(part: Partition, stream: seq<nat>, q: nat): nat {
    var n := part.position + Count(stream, q);
    if n < |part.log| then n else Max(part.position, |part.log|)
  }

  ghost predicate ReadTo(was: seq<Partition>, parts: seq<Partition>, stream: seq<nat>) {
    && |parts| == |was|
    && forall q :: 0 <= q < |parts| ==>
         parts[q].log == was[q].log && parts[q].position == Yielded(was[q], stream, q)
  }

  /** Nothing raises, and the consumer starts from the committed offsets. */
  ghost predicate Smooth(was: seq<Partition>, owned: set<nat>, attempts: seq<Attempt>) {
    && (forall k :: 0 <= k < |attempts| ==> attempts[k] == Attempt(Fine, false))
    && (forall q, o :: 0 <= q < |was| && 0 <= o < |was[q].log| ==> !AlwaysRaises(was[q].log[o]))
    && (forall q :: q in owned && q < |was| ==> was[q].position == was[q].committed)
  }

  ghost predicate CaughtUp(parts: seq<Partition>, owned: set<nat>) {
    forall q :: q in owned && q < |parts| ==> parts[q].committed == parts[q].position
  }

  lemma ReadNothing(was: seq<Partition>, owned: set<nat>, stream: seq<nat>, attempts: seq<Attempt>)
    ensures ReadTo(was, was, stream[..0])
    ensures Smooth(was, owned, attempts[..0]) ==> CaughtUp(was, owned)
  {
  }

  /** One turn of the loop reads one message of the next partition, if there is one. */
  lemma ReadNext(was: seq<Partition>, before: seq<Partition>, parts: seq<Partition>, stream: seq<nat>, k: nat)
    requires k < |stream| && ReadTo(was, before, stream[..k]) && |parts| == |before|
    requires var p := stream[k];
             var more := p < |before| && before[p].position < |before[p].log|;
             forall q :: 0 <= q < |parts| ==>
               && parts[q].log == before[q].log
               && parts[q].position == before[q].position + (if more && q == p then 1 else 0)
    ensures ReadTo(was, parts, stream[..k + 1])
  {
    forall q | 0 <= q < |parts| ensures parts[q].position == Yielded(was[q], stream[..k + 1], q) {
      CountNext(stream, q, k);
    }
  }

  lemma SmoothSoFar(was: seq<Partition>, owned: set<nat>, attempts: seq<Attempt>, k: nat)
    requires k < |attempts|
    ensures Smooth(was, owned, attempts[..k + 1]) ==>
              && Smooth(was, owned, attempts[..k]) && attempts[k] == Attempt(Fine, false)
              && forall q, o :: 0 <= q < |was| && 0 <= o < |was[q].log| ==> !AlwaysRaises(was[q].log[o])
  {
    if Smooth(was, owned, attempts[..k + 1]) {
      assert attempts[..k + 1][k] == attempts[k];
      assert forall j :: 0 <= j < k ==> attempts[..k][j] == attempts[..k + 1][j];
    }
  }

  lemma AllRead(was: seq<Partition>, parts: seq<Partition>, owned: set<nat>, stream: seq<nat>)
    requires ReadTo(was, parts, stream) && CaughtUp(parts, owned)
    ensures forall q :: q in owned && q < |parts| ==> parts[q].committed == Yielded(was[q], stream, q)
  {
  }

  const REQUIRED_BID_ROLES := {"Buyer", "AuctionsHead"}

  function CommitAll(parts: seq<Partition>, ps: set<nat>): (r: seq<Partition>)
    ensures |r| == |parts|
    ensures forall q :: 0 <= q < |parts| ==> r[q] == if q in ps then CommitPartition(parts[q]) else parts[q]
  {
    seq(|parts|, q requires 0 <= q < |parts| => if q in ps then CommitPartition(parts[q]) else parts[q])
  }

  function RestartAll(parts: seq<Partition>, ps: set<nat>): (r: seq<Partition>)
    ensures |r| == |parts|
    ensures forall q :: 0 <= q < |parts| ==> r[q] == if q in ps then RestartPartition(parts[q]) else parts[q]
  {
    seq(|parts|, q requires 0 <= q < |parts| => if q in ps then RestartPartition(parts[q]) else parts[q])
  }

  lemma CommitsAll(c: Config, s: State, p: nat, others: set<nat>)
    requires Enabled(c, s, CommitOffsets(p, others))
    ensures Apply(c, s, CommitOffsets(p, others)) == s.(parts := CommitAll(s.parts, others + {p}))
  {
    assert PartsAfter(c, s, CommitOffsets(p, others)) == CommitAll(s.parts, others + {p});
  }

  /** Nothing but the stage and the history of partition `p` changed. */
  ghost predicate Untouched(p: nat, parts: seq<Partition>, before: seq<Partition>) {
    && |parts| == |before|
    && (forall q :: 0 <= q < |parts| && q != p ==> parts[q] == before[q])
    && (p < |parts| ==> parts[p].log == before[p].log && parts[p].position == before[p].position
                        && parts[p].committed == before[p].committed)
  }

  /** None, the first, or both of the two publications of `e` took place. */
  ghost predicate Prefix(updates: seq<Event>, updates': seq<Event>, results: seq<Event>, results': seq<Event>,
                         e: Event) {
    || (updates' == updates && results' == results)
    || (updates' == updates + [e] && results' == results)
    || (updates' == updates + [e] && results' == results + [e])
  }

  /** What the script leaves: it runs for accepted bids only. */
  function CacheAfter(cache: map<Id, Cached>, f: Flight): map<Id, Cached>
    requires 0 <= f.bid.amount < Binary64.MAX_CENTS
    requires f.bid.auctionId in cache ==> cache[f.bid.auctionId].amount < Binary64.MAX_CENTS
  {
    if f.verdict.Accepted? then Arbitrate(cache, f.bid) else cache
  }

  /** For an accepted row in flight the script always writes. */
  lemma ScriptedCache(c: Config, t: State, p: nat)
    requires Inv(c, t) && Enabled(c, t, RunScript(p))
    ensures var f := t.parts[p].stage.flight;
            && f.bid.amount > 0
            && CacheAfter(t.cache, f)
               == if f.verdict.Accepted? then t.cache[f.bid.auctionId := Cached(f.bid.amount, f.bid.bidderId)]
                    else t.cache
  {
    StoredBidIsPositive(c, t, p);
    hide LogInv, TableInv, EffectInv, CacheInv, Apply, Arbitrate, Storing;
    if t.parts[p].stage.flight.verdict.Accepted? { ScriptWrites(c, t, p); }
  }

  lemma StoredBidIsPositive(c: Config, t: State, p: nat)
    requires TableInv(c, t) && p < |t.parts| && Storing(t.parts[p].stage)
    ensures t.parts[p].stage.flight.bid.amount > 0
  {
    var k := StorageHasRow(c, t, p);
    assert RowInv(c, t, t.rows[k]);
  }

  lemma ScriptApplied(c: Config, s: State, p: nat)
    requires p < |s.parts| && s.parts[p].stage.Stored? && Enabled(c, s, RunScript(p))
    ensures var f := s.parts[p].stage.flight;
            Apply(c, s, RunScript(p))
            == s.(parts := s.parts[p := s.parts[p].(stage := Arbitrated(f))], cache := CacheAfter(s.cache, f),
                  arbitrated := if f.verdict.Accepted? then s.arbitrated + [f.bid.id] else s.arbitrated)
  {
    WorkedOnly(c, s, RunScript(p));
    hide Arbitrate;
  }

  lemma CanNotify(c: Config, t: State, p: nat)
    requires p < |t.parts| && t.parts[p].stage.Arbitrated?
    ensures Enabled(c, t, Notify(p))
  {
  }

  lemma CanPublish(c: Config, t: State, p: nat)
    requires p < |t.parts| && t.parts[p].stage.Notified?
    ensures Enabled(c, t, Publish(p))
  {
  }

  /** The three ways on from a verdict. */
  lemma InsertSteps(c: Config, t: State, p: nat)
    requires p < |t.parts| && t.parts[p].stage.Judged?
    ensures var f := t.parts[p].stage.flight;
            && Enabled(c, t, Fail(p)) && Worked(c, t, Fail(p)) == t.parts[p].(stage := Stalled(f.offset))
            && (if Conflicts(c.ref, t.rows, RowOf(p, f))
                then Enabled(c, t, Refuse(p, true)) && Enabled(c, t, Refuse(p, false))
                else Enabled(c, t, StoreRow(p)))
  {
  }

  class Worker {
    const config: Config
    var parts: seq<Partition>
    var rows: seq<Row>
    var cache: map<Id, Cached>
    ghost var arbitrated: seq<Id>
    var updates: seq<Event>
    var results: seq<Event>
    var live: set<Id>

    ghost function St(): State
      reads this
    {
      State(parts, rows, cache, arbitrated, updates, results, live)
    }

    constructor (c: Config, partitions: nat)
      ensures Initial(St()) && |parts| == partitions && config == c && live == {}
    {
      config := c;
      parts := seq(partitions, _ => Partition([], 0, 0, Idle, 0, {}));
      rows, cache, arbitrated, updates, results, live := [], map[], [], [], [], {};
    }

    /** `submit_bid`: the live check, the role check, then the publish under the auction's
        key. A publish that raises may have appended the message all the same. */
    method SubmitBid(b: Bid, roles: set<string>, broker: Broker) returns (r: Submission)
      requires b.amount > 0 && config.route(b.auctionId) < |parts|
      modifies this
      ensures r == if b.auctionId !in config.ref.startingPrice then AuctionNotFound
                   else if b.auctionId !in live then AuctionNotLive
                   else if "Buyer" !in roles && "AuctionsHead" !in roles then NotEligible
                   else if !broker.Acknowledges? then PublishFailed
                   else Received(b)
      ensures var p := config.route(b.auctionId);
              if r.Received? || (r.PublishFailed? && broker.AppendsAndFails?)
              then && Enabled(config, old(St()), Submit(p, Envelope(b)))
                   && St() == Apply(config, old(St()), Submit(p, Envelope(b)))
                   && (b.amount < Binary64.MAX_CENTS ==> Logged(St(), p, |old(parts[p].log)|, b))
              else St() == old(St())
    {
      if b.auctionId !in config.ref.startingPrice { return AuctionNotFound; }
      if b.auctionId !in live { return AuctionNotLive; }
      if roles !! REQUIRED_BID_ROLES { return NotEligible; }
      if broker.Fails? { return PublishFailed; }
      var p := config.route(b.auctionId);
      PublishedBidIsDelivered(b);
      WorkedOnly(config, St(), Submit(p, Envelope(b)));
      parts := parts[p := parts[p].(log := parts[p].log + [Envelope(b)])];
      r := if broker.AppendsAndFails? then PublishFailed else Received(b);
    }

    method SetStage(p: nat, stage: Stage, ghost a: Step)
      requires Enabled(config, St(), a) && Target(a) == Some(p) && p < |parts|
      requires Worked(config, St(), a) == parts[p].(stage := stage)
      requires !a.StoreRow? && !Scripts(St(), a) && !a.Notify? && !a.Publish?
      modifies this`parts
      ensures St() == Apply(config, old(St()), a)
      ensures parts == old(parts)[p := old(parts[p]).(stage := stage)]
    {
      WorkedOnly(config, St(), a);
      parts := parts[p := parts[p].(stage := stage)];
    }

    /** The insert of a decided bid in its transaction: the row is committed, refused by a
        constraint, or lost to an exception. */
    method InsertRow(p: nat, attempt: Attempt) returns (decision: Decision, ghost a: Step)
      requires p < |parts| && parts[p].stage.Judged?
      modifies this
      ensures Enabled(config, old(St()), a) && St() == Apply(config, old(St()), a)
      ensures Untouched(p, parts, old(parts)) && cache == old(cache)
      ensures updates == old(updates) && results == old(results) && live == old(live)
      ensures attempt == Attempt(Fine, false) ==> !decision.RaisedError?
      ensures var f := old(parts[p].stage.flight);
              match decision
              case Decided(e) => e == EventOf(f) && parts[p].stage == Stored(f) && rows == old(rows) + [RowOf(p, f)]
                                 && !Conflicts(config.ref, old(rows), RowOf(p, f))
              case AlreadyProcessed => rows == old(rows) && parts[p].stage == Done(f.offset)
                                       && Conflicts(config.ref, old(rows), RowOf(p, f))
              case RaisedError => rows == old(rows) && Resting(parts[p].stage)
    {
      hide Conflicts, Apply, Worked, Enabled;
      var f := parts[p].stage.flight;
      InsertSteps(config, St(), p);
      var violated, raised, table := Transact(RowOf(p, f), attempt);
      if attempt.fault == BeforeInsert || (raised && !violated) {
        a := Fail(p);
        SetStage(p, Stalled(f.offset), a);
        decision := RaisedError;
      } else if violated {
        a := Refuse(p, !raised);
        SetRefused(p, !raised);
        decision := if raised then RaisedError else AlreadyProcessed;
      } else {
        a := StoreRow(p);
        SetStored(p, table);
        decision := Decided(EventOf(f));
      }
    }

    /** One session: add, flush, commit or roll back. */
    method Transact(r: Row, attempt: Attempt) returns (violated: bool, raised: bool, table: seq<Row>)
      ensures violated == (attempt.fault != BeforeInsert && Conflicts(config.ref, rows, r))
      ensures raised == if violated then attempt.pendingRaises else attempt.fault == AtCommit
      ensures table == if violated || raised || attempt.fault == BeforeInsert then rows else rows + [r]
    {
      var session := new Session(rows);
      violated := false;
      if attempt.fault != BeforeInsert { violated := session.Flush(config.ref, r); }
      raised := session.CommitOrRollback(attempt.fault == AtCommit, attempt.pendingRaises);
      table := session.table;
    }

    method SetRefused(p: nat, acknowledged: bool)
      requires Enabled(config, St(), Refuse(p, acknowledged))
      modifies this`parts
      ensures St() == Apply(config, old(St()), Refuse(p, acknowledged)) && Untouched(p, parts, old(parts))
      ensures var o := old(parts[p].stage.flight.offset); parts[p].stage == if acknowledged then Done(o) else Idle
    {
      var o := parts[p].stage.flight.offset;
      WorkedOnly(config, St(), Refuse(p, acknowledged));
      parts := parts[p := Settle(parts[p], o, if acknowledged then Done(o) else Idle)];
    }

    method SetStored(p: nat, table: seq<Row>)
      requires Enabled(config, St(), StoreRow(p)) && table == rows + [RowOf(p, parts[p].stage.flight)]
      modifies this`parts, this`rows
      ensures St() == Apply(config, old(St()), StoreRow(p)) && Untouched(p, parts, old(parts))
      ensures parts[p].stage == Stored(old(parts[p].stage.flight)) && rows == table
    {
      var f := parts[p].stage.flight;
      WorkedOnly(config, St(), StoreRow(p));
      parts := parts[p := Settle(parts[p], f.offset, Stored(f))];
      rows := table;
    }

    /** The two reads of `decide_bid`, the auction and then its highest bid, and the verdict. */
    method Judging(p: nat) returns (ghost steps: seq<Step>)
      requires p < |parts| && parts[p].stage.Taken? && parts[p].stage.offset < |parts[p].log|
      requires Deliver(parts[p].log[parts[p].stage.offset]).Decidable?
      modifies this`parts
      ensures steps == [Look(p), JudgeBid(p)] && Leads(config, old(St()), steps, St())
      ensures var o := old(parts[p].stage.offset);
              var b := Deliver(old(parts[p].log[o])).bid;
              var f := Flight(o, b, b.auctionId in live, Judge(config.ref, live, rows, b));
              parts == old(parts)[p := old(parts[p]).(stage := Judged(f))]
    {
      ghost var s := St();
      var o := parts[p].stage.offset;
      var b := Deliver(parts[p].log[o]).bid;
      var seen := b.auctionId in live;
      SetStage(p, Looked(o, seen), Look(p));
      LeadsFurther(config, s, [], s, Look(p));
      ghost var t := St();
      JudgeReadsOneStatus(config.ref, live, rows, b);
      SetStage(p, Judged(Flight(o, b, seen, Judge(config.ref, SeenLive(b, seen), rows, b))), JudgeBid(p));
      LeadsFurther(config, s, [Look(p)], t, JudgeBid(p));
      steps := [Look(p), JudgeBid(p)];
      assert [Look(p)] + [JudgeBid(p)] == steps;
    }

    /** The transaction of `decide_bid`: the verdict is taken and the row inserted, or
        nothing is. */
    method DecideAndStore(p: nat, attempt: Attempt) returns (decision: Decision, ghost steps: seq<Step>)
      requires p < |parts| && parts[p].stage.Taken? && parts[p].stage.offset < |parts[p].log|
      requires Deliver(parts[p].log[parts[p].stage.offset]).Decidable?
      modifies this
      ensures Leads(config, old(St()), steps, St()) && Untouched(p, parts, old(parts))
      ensures cache == old(cache) && updates == old(updates) && results == old(results) && live == old(live)
      ensures attempt == Attempt(Fine, false) ==> !decision.RaisedError?
      ensures var o := old(parts[p].stage.offset);
              var b := Deliver(old(parts[p].log[o])).bid;
              var v := Judge(config.ref, old(live), old(rows), b);
              var r := Row(b, v.Accepted?, p, o);
              match decision
              case Decided(e) =>
                && e == Event(b, v) && parts[p].stage == Stored(Flight(o, b, b.auctionId in old(live), v))
                && rows == old(rows) + [r] && !Conflicts(config.ref, old(rows), r)
              case AlreadyProcessed =>
                && rows == old(rows) && parts[p].stage == Done(o) && Conflicts(config.ref, old(rows), r)
              case RaisedError => rows == old(rows) && Resting(parts[p].stage)
    {
      ghost var s := St();
      steps := Judging(p);
      hide Judge, Conflicts, Apply, Worked, Enabled, Exec, Executable;
      ghost var t := St();
      ghost var a;
      decision, a := InsertRow(p, attempt);
      LeadsFurther(config, s, steps, t, a);
      steps := steps + [a];
    }

    /** The cache script for an accepted bid; a rejected one has nothing to write. */
    method Script(p: nat) returns (ghost steps: seq<Step>)
      requires p < |parts| && parts[p].stage.Stored? && Enabled(config, St(), RunScript(p))
      modifies this
      ensures steps == [RunScript(p)] && Leads(config, old(St()), steps, St())
      ensures parts == old(parts)[p := old(parts[p]).(stage := Arbitrated(old(parts[p].stage.flight)))]
      ensures rows == old(rows) && updates == old(updates) && results == old(results) && live == old(live)
      ensures cache == CacheAfter(old(cache), old(parts[p].stage.flight))
    {
      ghost var s := St();
      var f := parts[p].stage.flight;
      ScriptApplied(config, s, p);
      LeadsFurther(config, s, [], s, RunScript(p));
      hide Arbitrate, Exec, Executable, Apply, Enabled, CacheReady, PassedOver;
      ghost var after := CacheAfter(cache, f);
      parts := parts[p := parts[p].(stage := Arbitrated(f))];
      if f.verdict.Accepted? {
        cache := Arbitrate(cache, f.bid);
        arbitrated := arbitrated + [f.bid.id];
      }
      assert cache == after;
      assert St() == Apply(config, s, RunScript(p));
      steps := [RunScript(p)];
    }

    /** One of the two publications. */
    method Announce(p: nat, ghost a: Step) returns (ghost steps: seq<Step>)
      requires p < |parts| && (a == Notify(p) || a == Publish(p)) && Enabled(config, St(), a)
      modifies this
      ensures steps == [a] && Leads(config, old(St()), steps, St())
      ensures rows == old(rows) && cache == old(cache) && live == old(live) && Untouched(p, parts, old(parts))
      ensures var f := old(parts[p].stage.flight);
              if a.Notify?
              then parts[p] == old(parts[p]).(stage := Notified(f)) && updates == old(updates) + [EventOf(f)]
                   && results == old(results)
              else parts[p] == old(parts[p]).(stage := Done(f.offset)) && results == old(results) + [EventOf(f)]
                   && updates == old(updates)
    {
      ghost var s := St();
      var f := parts[p].stage.flight;
      WorkedOnly(config, St(), a);
      LeadsFurther(config, s, [], s, a);
      if parts[p].stage.Arbitrated? {
        parts := parts[p := parts[p].(stage := Notified(f))];
        updates := updates + [EventOf(f)];
      } else {
        parts := parts[p := parts[p].(stage := Done(f.offset))];
        results := results + [EventOf(f)];
      }
      steps := [a];
    }

    /** An exception after the row is committed: the worker logs it and moves on. */
    method GiveUp(p: nat) returns (ghost steps: seq<Step>)
      requires p < |parts| && (Storing(parts[p].stage) || parts[p].stage.Done?)
      modifies this
      ensures steps == [Fail(p)] && Leads(config, old(St()), steps, St())
      ensures parts == old(parts)[p := old(parts[p]).(stage := Idle)] && rows == old(rows)
      ensures results == old(results) && updates == old(updates) && cache == old(cache)
    {
      ghost var s := St();
      LeadsFurther(config, s, [], s, Fail(p));
      SetStage(p, Idle, Fail(p));
      steps := [Fail(p)];
    }

    /** The three effects after the commit, up to where the attempt raises. */
    method FanOut(p: nat, fault: Fault) returns (done: bool, ghost steps: seq<Step>)
      requires p < |parts| && parts[p].stage.Stored? && Enabled(config, St(), RunScript(p))
      modifies this
      ensures Leads(config, old(St()), steps, St()) && Untouched(p, parts, old(parts)) && rows == old(rows)
      ensures var f := old(parts[p].stage.flight);
              if done
              then parts[p] == old(parts[p]).(stage := Done(f.offset))
                   && updates == old(updates) + [EventOf(f)] && results == old(results) + [EventOf(f)]
              else parts[p] == old(parts[p]).(stage := Idle)
                   && Prefix(old(updates), updates, old(results), results, EventOf(f))
      ensures cache == CacheAfter(old(cache), old(parts[p].stage.flight))
              || (!done && cache == old(cache) && updates == old(updates))
      ensures done == !(fault.AtScript? || fault.AtUpdate? || fault.AtResult?)
    {
      hide Apply, Worked, Exec, Executable, CacheAfter;
      ghost var s, t := St(), St();
      ghost var more: seq<Step> := [];
      steps := [];
      done := false;
      StartsAt(config, s);
      if fault != AtScript(false) {
        steps := Script(p);
        if !fault.AtScript? {
          t := St();
          done, more := PublishBoth(p, fault);
          LeadsOn(config, s, steps, t, more, St());
          steps := steps + more;
        }
      }
      if !done {
        t := St();
        more := GiveUp(p);
        LeadsOn(config, s, steps, t, more, St());
        steps := steps + more;
      }
    }

    /** The two publications, up to where the attempt raises. */
    method PublishBoth(p: nat, fault: Fault) returns (done: bool, ghost steps: seq<Step>)
      requires p < |parts| && parts[p].stage.Arbitrated?
      modifies this
      ensures Leads(config, old(St()), steps, St()) && Untouched(p, parts, old(parts))
      ensures rows == old(rows) && cache == old(cache)
      ensures done == !(fault.AtUpdate? || fault.AtResult?)
      ensures parts[p] == old(parts[p]).(stage := parts[p].stage) && (Storing(parts[p].stage) || parts[p].stage.Done?)
      ensures var f := old(parts[p].stage.flight);
              if done
              then parts[p].stage == Done(f.offset) && updates == old(updates) + [EventOf(f)]
                   && results == old(results) + [EventOf(f)]
              else Prefix(old(updates), updates, old(results), results, EventOf(f))
    {
      ghost var s, t := St(), St();
      steps, done := [], false;
      StartsAt(config, s);
      if fault != AtUpdate(false) {
        CanNotify(config, s, p);
        hide Apply, Worked, Exec, Executable, Enabled;
        steps := Announce(p, Notify(p));
        if !fault.AtUpdate? && fault != AtResult(false) {
          t := St();
          CanPublish(config, t, p);
          ghost var more := Announce(p, Publish(p));
          LeadsOn(config, s, steps, t, more, St());
          steps := steps + more;
          done := !fault.AtResult?;
        }
      }
    }

    lemma DecisionExplained(p: nat)
      requires Inv(config, St()) && p < |parts| && parts[p].stage.Taken? && parts[p].stage.offset < |parts[p].log|
      requires Deliver(parts[p].log[parts[p].stage.offset]).Decidable?
      ensures var o := parts[p].stage.offset;
              var b := Deliver(parts[p].log[o]).bid;
              && Explains(config.ref, b.auctionId in live, rows, b, Judge(config.ref, live, rows, b))
              && forall accepted ::
                   Conflicts(config.ref, rows, Row(b, accepted, p, o))
                   <==> !Constrained(config.ref, rows + [Row(b, accepted, p, o)])
    {
      var b := Deliver(parts[p].log[parts[p].stage.offset]).bid;
      assert AboveStart(config.ref, rows);
      VerdictExplained(config.ref, live, rows, b);
      TableIsConstrained(config, St());
      hide Conflicts, Constrained, Explains, Inv, Judge;
      forall accepted
        ensures Conflicts(config.ref, rows, Row(b, accepted, p, parts[p].stage.offset))
                <==> !Constrained(config.ref, rows + [Row(b, accepted, p, parts[p].stage.offset)])
      {
        ConflictBreaksConstraints(config.ref, rows, Row(b, accepted, p, parts[p].stage.offset));
      }
    }

    /** `decide_bid`: the transaction, then the effects of a committed row. */
    method DecideBid(p: nat, attempt: Attempt) returns (decision: Decision, ghost steps: seq<Step>)
      requires Inv(config, St())
      requires p < |parts| && parts[p].stage.Taken? && parts[p].stage.offset < |parts[p].log|
      requires Deliver(parts[p].log[parts[p].stage.offset]).Decidable?
      modifies this
      ensures Leads(config, old(St()), steps, St()) && Inv(config, St()) && Untouched(p, parts, old(parts))
      ensures var o := old(parts[p].stage.offset);
              var b := Deliver(old(parts[p].log[o])).bid;
              var v := Judge(config.ref, old(live), old(rows), b);
              var r := Row(b, v.Accepted?, p, o);
              match decision
              case Decided(e) =>
                && e == Event(b, v) && b.amount > 0 && parts[p].stage == Done(o) && rows == old(rows) + [r]
                && updates == old(updates) + [e] && results == old(results) + [e]
                && cache
                   == if v.Accepted? then old(cache)[b.auctionId := Cached(b.amount, b.bidderId)] else old(cache)
              case AlreadyProcessed =>
                && Conflicts(config.ref, old(rows), r) && parts[p].stage == Done(o) && rows == old(rows)
                && cache == old(cache) && updates == old(updates) && results == old(results)
              case RaisedError =>
                && Resting(parts[p].stage)
                && (|| (rows == old(rows) && cache == old(cache) && updates == old(updates) && results == old(results))
                    || (rows == old(rows) + [r] && Prefix(old(updates), updates, old(results), results, Event(b, v))))
      ensures attempt == Attempt(Fine, false) ==> !decision.RaisedError?
      ensures var o := old(parts[p].stage.offset);
              var b := Deliver(old(parts[p].log[o])).bid;
              && (decision.Decided? ==>
                    && Explains(config.ref, b.auctionId in old(live), old(rows), b, decision.event.verdict)
                    && rows == old(rows) + [Row(b, decision.event.verdict.Accepted?, p, o)])
              && (decision.AlreadyProcessed? ==>
                    forall accepted :: !Constrained(config.ref, old(rows) + [Row(b, accepted, p, o)]))
    {
      ghost var s := St();
      DecisionExplained(p);
      decision, steps := DecideAndStore(p, attempt);
      LeadsKeepsInv(config, s, steps);
      if decision.Decided? {
        ghost var t := St();
        ScriptAlwaysReady(config, t, p);
        ScriptedCache(config, t, p);
        var done;
        ghost var more;
        done, more := FanOut(p, attempt.fault);
        LeadsOn(config, s, steps, t, more, St());
        steps := steps + more;
        if !done { decision := RaisedError; }
      }
      LeadsKeepsInv(config, s, steps);
    }

    /** One turn of the consumer loop for the next message of `p`, with the offset commit
        that ends it unless an exception did. */
    method HandleNext(p: nat, owned: set<nat>, attempt: Attempt) returns (committed: bool, ghost steps: seq<Step>)
      requires Inv(config, St()) && p < |parts| && parts[p].position < |parts[p].log|
      requires forall q :: q in owned + {p} && q < |parts| ==> Resting(parts[q].stage)
      modifies this
      ensures Leads(config, old(St()), steps, St()) && Inv(config, St()) && |parts| == |old(parts)|
      ensures forall q :: q in owned + {p} && q < |parts| ==> Resting(parts[q].stage)
      ensures forall q :: 0 <= q < |parts| ==>
                && parts[q].log == old(parts)[q].log
                && parts[q].position == old(parts)[q].position + (if q == p then 1 else 0)
                && parts[q].committed
                   == if committed && q in owned + {p} then parts[q].position else old(parts)[q].committed
      ensures var o := old(parts[p].position);
              var m := old(parts[p].log[o]);
              && (IsMalformed(m) ==> committed)
              && (AlwaysRaises(m) ==> !committed && parts[p].stage == Stalled(o))
              && (IsMalformed(m) || AlwaysRaises(m) ==>
                    rows == old(rows) && cache == old(cache) && updates == old(updates) && results == old(results))
              && (attempt == Attempt(Fine, false) && !AlwaysRaises(m) ==> committed)
    {
      ghost var s := St();
      hide Inv, Apply, Worked, Enabled, Exec, Executable, Leads, Deliver, IsMalformed, AlwaysRaises;
      steps := Receive(p, attempt);
      committed := parts[p].stage.Done?;
      if committed {
        ghost var t := St();
        ghost var more := CommitOwned(p, owned - {p});
        assert owned - {p} + {p} == owned + {p};
        LeadsOn(config, s, steps, t, more, St());
        steps := steps + more;
        LeadsInv(config, s, steps, St());
      }
    }

    /** A message is taken and processed, up to the point where its offset is committed. */
    method Receive(p: nat, attempt: Attempt) returns (ghost steps: seq<Step>)
      requires Inv(config, St()) && p < |parts| && Resting(parts[p].stage) && parts[p].position < |parts[p].log|
      modifies this
      ensures Leads(config, old(St()), steps, St()) && Inv(config, St()) && |parts| == |old(parts)|
      ensures forall q :: 0 <= q < |parts| && q != p ==> parts[q] == old(parts)[q]
      ensures parts[p].log == old(parts[p].log) && parts[p].position == old(parts[p].position) + 1
      ensures parts[p].committed == old(parts[p].committed)
      ensures Resting(parts[p].stage) || parts[p].stage.Done?
      ensures var o := old(parts[p].position);
              var m := old(parts[p].log[o]);
              && (IsMalformed(m) ==> parts[p].stage == Done(o))
              && (AlwaysRaises(m) ==> parts[p].stage == Stalled(o))
              && (IsMalformed(m) || AlwaysRaises(m) ==>
                    rows == old(rows) && cache == old(cache) && updates == old(updates) && results == old(results))
              && (attempt == Attempt(Fine, false) && !AlwaysRaises(m) ==> parts[p].stage.Done?)
    {
      ghost var s := St();
      hide Inv, Apply, Worked, Enabled, Exec, Executable, IsMalformed, AlwaysRaises;
      steps := TakeNext(p);
      ghost var t := St();
      LeadsInv(config, s, steps, t);
      ghost var more := Process(p, attempt);
      LeadsOn(config, s, steps, t, more, St());
      steps := steps + more;
    }

    /** The consumer yields the next message of `p`. */
    method TakeNext(p: nat) returns (ghost steps: seq<Step>)
      requires p < |parts| && Resting(parts[p].stage) && parts[p].position < |parts[p].log|
      modifies this`parts
      ensures steps == [Take(p)] && Leads(config, old(St()), steps, St())
      ensures var o := old(parts[p].position);
              parts == old(parts)[p := old(parts[p]).(position := o + 1, stage := Taken(o),
                                                      skipped := PassedOver(old(parts[p])))]
    {
      ghost var s := St();
      var o := parts[p].position;
      WorkedOnly(config, s, Take(p));
      LeadsFurther(config, s, [], s, Take(p));
      parts := parts[p := parts[p].(position := o + 1, stage := Taken(o), skipped := PassedOver(parts[p]))];
      steps := [Take(p)];
    }

    /** The `try` block of the loop: skip poison, decide, or fail. */
    method Process(p: nat, attempt: Attempt) returns (ghost steps: seq<Step>)
      requires Inv(config, St()) && p < |parts| && parts[p].stage.Taken? && parts[p].stage.offset < |parts[p].log|
      modifies this
      ensures Leads(config, old(St()), steps, St()) && Inv(config, St()) && Untouched(p, parts, old(parts))
      ensures Resting(parts[p].stage) || parts[p].stage.Done?
      ensures var o := old(parts[p].stage.offset);
              var m := old(parts[p].log[o]);
              && (IsMalformed(m) ==> parts[p].stage == Done(o))
              && (AlwaysRaises(m) ==> parts[p].stage == Stalled(o))
              && (IsMalformed(m) || AlwaysRaises(m) ==>
                    rows == old(rows) && cache == old(cache) && updates == old(updates) && results == old(results))
              && (attempt == Attempt(Fine, false) && !AlwaysRaises(m) ==> parts[p].stage.Done?)
    {
      ghost var s := St();
      var o := parts[p].stage.offset;
      DeliveryByFields(parts[p].log[o]);
      hide IsMalformed, AlwaysRaises;
      match Deliver(parts[p].log[o]) {
        case Crashing => steps := Stall(p);
        case Poison => steps := SkipMessage(p);
        case Decidable(_) =>
          var decision;
          decision, steps := DecideBid(p, attempt);
      }
      hide Inv, Exec, Executable, Enabled, Apply, Worked;
      LeadsInv(config, s, steps, St());
    }

    /** An exception before anything is decided: logged, and not committed. */
    method Stall(p: nat) returns (ghost steps: seq<Step>)
      requires p < |parts| && parts[p].stage.Taken?
      modifies this`parts
      ensures steps == [Fail(p)] && Leads(config, old(St()), steps, St()) && Untouched(p, parts, old(parts))
      ensures parts[p].stage == Stalled(old(parts[p].stage.offset))
    {
      ghost var s := St();
      LeadsFurther(config, s, [], s, Fail(p));
      SetStage(p, Stalled(parts[p].stage.offset), Fail(p));
      steps := [Fail(p)];
    }

    /** A poison message is logged and skipped. */
    method SkipMessage(p: nat) returns (ghost steps: seq<Step>)
      requires Enabled(config, St(), SkipPoison(p))
      modifies this`parts
      ensures steps == [SkipPoison(p)] && Leads(config, old(St()), steps, St()) && Untouched(p, parts, old(parts))
      ensures parts[p].stage == Done(old(parts[p].stage.offset))
    {
      ghost var s := St();
      var o := parts[p].stage.offset;
      LeadsFurther(config, s, [], s, SkipPoison(p));
      WorkedOnly(config, St(), SkipPoison(p));
      parts := parts[p := Settle(parts[p], o, Done(o))];
      steps := [SkipPoison(p)];
    }

    /** `consumer.commit()`. */
    method CommitOwned(p: nat, others: set<nat>) returns (ghost steps: seq<Step>)
      requires p < |parts| && parts[p].stage.Done? && p !in others
      requires forall q :: q in others && q < |parts| ==> Resting(parts[q].stage)
      modifies this`parts
      ensures steps == [CommitOffsets(p, others)] && Leads(config, old(St()), steps, St())
      ensures parts == CommitAll(old(parts), others + {p})
      ensures forall q :: q in others + {p} && q < |parts|
                ==> parts[q].committed == parts[q].position && Resting(parts[q].stage)
      ensures forall q :: 0 <= q < |parts|
                ==> parts[q].log == old(parts)[q].log && parts[q].position == old(parts)[q].position
      ensures forall q :: 0 <= q < |parts| && q !in others + {p} ==> parts[q] == old(parts)[q]
    {
      ghost var s := St();
      LeadsFurther(config, s, [], s, CommitOffsets(p, others));
      CommitsAll(config, s, p, others);
      hide Apply, Enabled, Exec, Executable, PartAfter;
      parts := CommitAll(parts, others + {p});
      assert St() == Apply(config, s, CommitOffsets(p, others));
      steps := [CommitOffsets(p, others)];
    }

    /** `run_worker`: messages of the assigned partitions in the order the consumer yields
        them, until it is told to shut down or has nothing left to yield; then the
        consumer stops, and whoever is assigned next starts from the committed offsets. */
    method RunWorker(owned: set<nat>, stream: seq<nat>, attempts: seq<Attempt>, shutdownAt: nat)
      returns (ghost steps: seq<Step>)
      requires Inv(config, St()) && |attempts| == |stream|
      requires forall q :: q in owned && q < |parts| ==> Resting(parts[q].stage)
      requires forall k :: 0 <= k < |stream| ==> stream[k] in owned
      modifies this
      ensures Leads(config, old(St()), steps, St()) && Inv(config, St()) && |parts| == |old(parts)|
      ensures forall q :: q in owned && q < |parts|
                ==> parts[q].stage == Idle && parts[q].position == parts[q].committed
      ensures var n := if shutdownAt < |stream| then shutdownAt else |stream|;
              Smooth(old(parts), owned, attempts[..n]) ==>
                forall q :: q in owned && q < |parts| ==> parts[q].committed == Yielded(old(parts)[q], stream[..n], q)
    {
      ghost var s := St();
      ghost var was := parts;
      ghost var more: seq<Step>;
      steps := [];
      var i := 0;
      ReadNothing(parts, owned, stream, attempts);
      StartsAt(config, s);
      hide Smooth, ReadTo, Inv, Apply, Enabled, Exec, Executable, Leads, IsMalformed, AlwaysRaises;
      while i < |stream| && i < shutdownAt
        invariant 0 <= i <= |stream| && i <= shutdownAt
        invariant Leads(config, s, steps, St()) && Inv(config, St()) && |parts| == |old(parts)|
        invariant forall q :: q in owned && q < |parts| ==> Resting(parts[q].stage)
        invariant ReadTo(was, parts, stream[..i])
        invariant Smooth(was, owned, attempts[..i]) ==> CaughtUp(parts, owned)
      {
        var p := stream[i];
        ghost var before := parts;
        SmoothSoFar(was, owned, attempts, i);
        if p < |parts| && parts[p].position < |parts[p].log| {
          ghost var t := St();
          var committed;
          committed, more := HandleNext(p, owned, attempts[i]);
          LeadsOn(config, s, steps, t, more, St());
          steps := steps + more;
        }
        ReadNext(was, before, parts, stream, i);
        i := i + 1;
      }
      ghost var t := St();
      if Smooth(was, owned, attempts[..i]) { AllRead(was, parts, owned, stream[..i]); }
      more := StopConsumer(owned);
      LeadsOn(config, s, steps, t, more, St());
      steps := steps + more;
      LeadsInv(config, s, steps, St());
    }

    /** The consumer stops; whoever is assigned next starts from the committed offsets. */
    method StopConsumer(owned: set<nat>) returns (ghost steps: seq<Step>)
      modifies this`parts
      ensures steps == [Crash(owned)] && Leads(config, old(St()), steps, St()) && |parts| == |old(parts)|
      ensures forall q :: q in owned && q < |parts|
                ==> parts[q].stage == Idle && parts[q].position == parts[q].committed
      ensures forall q :: 0 <= q < |parts| ==> parts[q].committed == old(parts)[q].committed
    {
      ghost var s := St();
      LeadsFurther(config, s, [], s, Crash(owned));
      parts := RestartAll(parts, owned);
      assert parts == PartsAfter(config, s, Crash(owned));
      steps := [Crash(owned)];
    }
  }
}
