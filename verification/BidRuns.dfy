/** The critical path's promises about every run. */
module BidRuns {
  import opened Options
  import opened BidDomain
  import opened CriticalPath
  import opened BidSafety
  import opened BidEffects
  import opened OffsetAccounting

  ghost predicate Inv(c: Config, s: State) {
    LogInv(c, s) && TableInv(c, s) && EffectInv(s) && CacheInv(s) && AccountInv(c, s)
  }

  lemma InitialInv(c: Config, s: State)
    requires Initial(s)
    ensures Inv(c, s)
  {
  }

  lemma InvStep(c: Config, s: State, a: Step)
    requires Inv(c, s) && Enabled(c, s, a)
    ensures Inv(c, Apply(c, s, a))
  {
    hide LogInv, TableInv, EffectInv, CacheInv, AccountInv, Apply, Enabled;
    LogInvStep(c, s, a);
    TableInvStep(c, s, a);
    EffectInvStep(c, s, a);
    CacheInvStep(c, s, a);
    AccountInvStep(c, s, a);
  }

  lemma {:induction false} RunKeepsInv(c: Config, s: State, steps: seq<Step>)
    requires Initial(s) && Executable(c, s, steps)
    ensures Inv(c, Exec(c, s, steps))
  {
    if steps == [] {
      InitialInv(c, s);
    } else {
      RunKeepsInv(c, s, steps[..|steps| - 1]);
      InvStep(c, Exec(c, s, steps[..|steps| - 1]), steps[|steps| - 1]);
    }
  }

  /** Whatever fails, replays or interleaves, each auction's accepted amounts strictly
      increase in commit order and exceed its starting price, and every row is a
      bid of the log by a known user on a known auction. */
  lemma AcceptedAmountsIncrease(c: Config, s: State, steps: seq<Step>)
    requires Initial(s) && Executable(c, s, steps)
    ensures var t := Exec(c, s, steps);
            && (forall i, j :: 0 <= i < j < |t.rows| && t.rows[i].accepted && t.rows[j].accepted
                               && t.rows[i].bid.auctionId == t.rows[j].bid.auctionId
                  ==> t.rows[i].bid.amount < t.rows[j].bid.amount)
            && (forall i :: 0 <= i < |t.rows| ==>
                  var r := t.rows[i];
                  && r.bid.auctionId in c.ref.startingPrice && r.bid.bidderId in c.ref.users
                  && Logged(t, r.partition, r.offset, r.bid)
                  && (r.accepted ==> r.bid.amount > c.ref.startingPrice[r.bid.auctionId]))
  {
    RunKeepsInv(c, s, steps);
    var t := Exec(c, s, steps);
    forall i | 0 <= i < |t.rows| ensures RowInv(c, t, t.rows[i]) {
    }
  }

  // ---- why a bid was decided as it was --------------------------------------------

  /** Step `k` of the run read the auction of the message at (`p`, `o`) and saw whether it is
      live. */
  ghost predicate SawStatus(c: Config, s: State, steps: seq<Step>, p: nat, o: nat, b: Bid, live: bool, k: nat)
    requires Executable(c, s, steps)
  {
    k < |steps| && steps[k] == Look(p) && Executable(c, s, steps[..k])
    && var t := Exec(c, s, steps[..k]);
       p < |t.parts| && t.parts[p].stage == Taken(o) && Logged(t, p, o, b) && live == (b.auctionId in t.live)
  }

  /** Step `k` of the run read the highest bid for that message and gave the verdict that
      this and the status seen before explain. */
  ghost predicate SawBids(c: Config, s: State, steps: seq<Step>, p: nat, o: nat, b: Bid, live: bool, v: Verdict, k: nat)
    requires Executable(c, s, steps)
  {
    k < |steps| && steps[k] == JudgeBid(p) && Executable(c, s, steps[..k])
    && var t := Exec(c, s, steps[..k]);
       && p < |t.parts| && t.parts[p].stage == Looked(o, live) && Logged(t, p, o, b)
       && Explains(c.ref, live, t.rows, b, v)
  }

  lemma SawLater(c: Config, s: State, steps: seq<Step>, p: nat, o: nat, b: Bid, live: bool, v: Verdict, k: nat)
    requires steps != [] && Executable(c, s, steps)
    ensures SawStatus(c, s, steps[..|steps| - 1], p, o, b, live, k) ==> SawStatus(c, s, steps, p, o, b, live, k)
    ensures SawBids(c, s, steps[..|steps| - 1], p, o, b, live, v, k) ==> SawBids(c, s, steps, p, o, b, live, v, k)
  {
    if k < |steps| - 1 { assert steps[..|steps| - 1][..k] == steps[..k]; }
  }

  lemma LookStep(c: Config, t: State, a: Step, p: nat, b: Bid)
    requires Enabled(c, t, a) && p < |t.parts| && PartAfter(c, t, a, p).stage.Looked?
    requires Logged(Apply(c, t, a), p, PartAfter(c, t, a, p).stage.offset, b)
    ensures || PartAfter(c, t, a, p).stage == t.parts[p].stage
            || (var stage := PartAfter(c, t, a, p).stage;
                && a == Look(p) && t.parts[p].stage == Taken(stage.offset) && Logged(t, p, stage.offset, b)
                && stage.live == (b.auctionId in t.live))
    ensures PartAfter(c, t, a, p).stage == t.parts[p].stage && PartitionInv(t.parts[p])
            ==> Logged(t, p, PartAfter(c, t, a, p).stage.offset, b)
  {
  }

  /** The status a decision under way goes by was read at a step of the run. */
  lemma {:induction false} LookedAtStep(c: Config, s: State, steps: seq<Step>, p: nat, b: Bid) returns (k: nat)
    requires Initial(s) && Executable(c, s, steps)
    requires p < |Exec(c, s, steps).parts| && Exec(c, s, steps).parts[p].stage.Looked?
    requires Logged(Exec(c, s, steps), p, Exec(c, s, steps).parts[p].stage.offset, b)
    ensures var stage := Exec(c, s, steps).parts[p].stage;
            SawStatus(c, s, steps, p, stage.offset, b, stage.live, k)
  {
    assert steps != [];
    var front, a := steps[..|steps| - 1], steps[|steps| - 1];
    var t := Exec(c, s, front);
    assert Exec(c, s, steps).parts[p] == PartAfter(c, t, a, p);
    LookStep(c, t, a, p, b);
    RunKeepsInv(c, s, front);
    var stage := PartAfter(c, t, a, p).stage;
    hide PartAfter, Worked, Apply;
    if t.parts[p].stage == stage {
      k := LookedAtStep(c, s, front, p, b);
      SawLater(c, s, steps, p, stage.offset, b, stage.live, NotLive, k);
    } else {
      k := |front|;
      assert steps[..k] == front;
    }
  }

  /** A verdict in flight was there before, or is the rule's. */
  lemma VerdictStep(c: Config, t: State, a: Step, p: nat)
    requires Enabled(c, t, a) && p < |t.parts| && InDecision(PartAfter(c, t, a, p).stage)
    ensures var f := PartAfter(c, t, a, p).stage.flight;
            || (InDecision(t.parts[p].stage) && t.parts[p].stage.flight == f)
            || (&& a == JudgeBid(p) && t.parts[p].stage == Looked(f.offset, f.live) && Logged(t, p, f.offset, f.bid)
                && f.verdict == Judge(c.ref, SeenLive(f.bid, f.live), t.rows, f.bid))
  {
  }

  lemma RuleExplained(c: Config, t: State, b: Bid, live: bool)
    requires TableInv(c, t)
    ensures Explains(c.ref, live, t.rows, b, Judge(c.ref, SeenLive(b, live), t.rows, b))
  {
    assert AboveStart(c.ref, t.rows);
    VerdictExplained(c.ref, SeenLive(b, live), t.rows, b);
  }

  /** A verdict in flight was reached by two steps of the run: the auction was read, and then
      its highest bid, and what they saw explains the verdict. */
  lemma {:induction false} VerdictAtSteps(c: Config, s: State, steps: seq<Step>, p: nat) returns (k: nat, m: nat)
    requires Initial(s) && Executable(c, s, steps)
    requires p < |Exec(c, s, steps).parts| && InDecision(Exec(c, s, steps).parts[p].stage)
    ensures var f := Exec(c, s, steps).parts[p].stage.flight;
            k < m && SawStatus(c, s, steps, p, f.offset, f.bid, f.live, k)
            && SawBids(c, s, steps, p, f.offset, f.bid, f.live, f.verdict, m)
  {
    assert steps != [];
    var front, a := steps[..|steps| - 1], steps[|steps| - 1];
    var t := Exec(c, s, front);
    assert Exec(c, s, steps).parts[p] == PartAfter(c, t, a, p);
    VerdictStep(c, t, a, p);
    var f := PartAfter(c, t, a, p).stage.flight;
    hide PartAfter, Worked, Apply, Judge, Explains;
    if InDecision(t.parts[p].stage) && t.parts[p].stage.flight == f {
      k, m := VerdictAtSteps(c, s, front, p);
      SawLater(c, s, steps, p, f.offset, f.bid, f.live, f.verdict, m);
    } else {
      RunKeepsInv(c, s, front);
      RuleExplained(c, t, f.bid, f.live);
      k := LookedAtStep(c, s, front, p, f.bid);
      m := |front|;
      assert steps[..m] == front;
    }
    SawLater(c, s, steps, p, f.offset, f.bid, f.live, f.verdict, k);
  }

  /** Two steps of the run account for a verdict: the first read the auction, the second the
      highest bid. The status may have changed between them. */
  ghost predicate Accounted(c: Config, s: State, steps: seq<Step>, p: nat, o: nat, b: Bid, live: bool, v: Verdict,
                            k: nat, m: nat)
    requires Executable(c, s, steps)
  {
    k < m && SawStatus(c, s, steps, p, o, b, live, k) && SawBids(c, s, steps, p, o, b, live, v, m)
  }

  lemma AccountedLater(c: Config, s: State, steps: seq<Step>, p: nat, o: nat, b: Bid, live: bool, v: Verdict,
                       k: nat, m: nat)
    requires steps != [] && Executable(c, s, steps)
    ensures Accounted(c, s, steps[..|steps| - 1], p, o, b, live, v, k, m)
            ==> Accounted(c, s, steps, p, o, b, live, v, k, m)
  {
    SawLater(c, s, steps, p, o, b, live, v, k);
    SawLater(c, s, steps, p, o, b, live, v, m);
  }

  /** Every accepted row was decided by two steps of this run: one saw its auction live, a
      later one found its amount above the starting price and above every accepted bid. */
  lemma {:induction false} AcceptedWhileLive(c: Config, s: State, steps: seq<Step>, i: nat) returns (k: nat, m: nat)
    requires Initial(s) && Executable(c, s, steps)
    requires i < |Exec(c, s, steps).rows| && Exec(c, s, steps).rows[i].accepted
    ensures var r := Exec(c, s, steps).rows[i];
            Accounted(c, s, steps, r.partition, r.offset, r.bid, true, Accepted, k, m)
  {
    assert steps != [];
    var front := steps[..|steps| - 1];
    var t := Exec(c, s, front);
    var r := Exec(c, s, steps).rows[i];
    if i < |t.rows| {
      k, m := AcceptedWhileLive(c, s, front, i);
    } else {
      k, m := VerdictAtSteps(c, s, front, steps[|steps| - 1].p);
    }
    hide Exec, SawStatus;
    AccountedLater(c, s, steps, r.partition, r.offset, r.bid, true, Accepted, k, m);
  }

  lemma ChannelStep(c: Config, t: State, a: Step)
    requires Enabled(c, t, a)
    ensures Apply(c, t, a).updates
            == if a.Notify? then t.updates + [EventOf(t.parts[a.p].stage.flight)] else t.updates
    ensures Apply(c, t, a).results
            == if a.Publish? then t.results + [EventOf(t.parts[a.p].stage.flight)] else t.results
    ensures a.Notify? || a.Publish? ==> a.p < |t.parts| && Storing(t.parts[a.p].stage)
  {
  }

  ghost predicate OnChannel(t: State, e: Event) {
    e in t.updates || e in t.results
  }

  /** Every event, on either channel, gives its reason: `NotLive` if and only if the status
      read for it was not live or the auction is missing, `NotHighest` if and only if the
      auction was seen live and the bid was then not above the starting price or not above
      an accepted bid. */
  lemma {:induction false} EventsSayWhy(c: Config, s: State, steps: seq<Step>, e: Event)
    returns (p: nat, o: nat, live: bool, k: nat, m: nat)
    requires Initial(s) && Executable(c, s, steps) && OnChannel(Exec(c, s, steps), e)
    ensures Accounted(c, s, steps, p, o, e.bid, live, e.verdict, k, m)
  {
    assert steps != [];
    var front, a := steps[..|steps| - 1], steps[|steps| - 1];
    var t := Exec(c, s, front);
    ChannelStep(c, t, a);
    hide Exec, SawStatus, SawBids, Enabled, Executable;
    if OnChannel(t, e) {
      p, o, live, k, m := EventsSayWhy(c, s, front, e);
    } else {
      var f := t.parts[a.p].stage.flight;
      p, o, live := a.p, f.offset, f.live;
      k, m := VerdictAtSteps(c, s, front, p);
    }
    AccountedLater(c, s, steps, p, o, e.bid, live, e.verdict, k, m);
  }

  // ---- effects at most once ------------------------------------------------------

  /** At most one row per log position and per bid id; the script ran at most once
      for a position and only for an accepted row; each channel carries at most one
      event per position, with its row's status, in commit order per partition. */
  lemma {:induction false} EffectsAtMostOnce(c: Config, s: State, steps: seq<Step>)
    requires Initial(s) && Executable(c, s, steps)
    ensures var t := Exec(c, s, steps);
            && RowsUnique(t.rows)
            && Distinct(t.arbitrated)
            && (forall k :: 0 <= k < |t.arbitrated| ==> HasAcceptedRow(t.rows, t.arbitrated[k]))
            && ChannelInv(t.rows, t.updates) && ChannelInv(t.rows, t.results)
  {
    RunKeepsInv(c, s, steps);
  }

  /** The events of a channel, looked up in the table, stand for different log positions. */
  lemma EventsHaveDistinctPositions(rows: seq<Row>, channel: seq<Event>, i: nat, j: nat) returns (m: nat, n: nat)
    requires RowsUnique(rows) && ChannelInv(rows, channel) && i < j < |channel|
    ensures m < |rows| && n < |rows| && rows[m].bid == channel[i].bid && rows[n].bid == channel[j].bid
    ensures !SamePosition(rows[m], rows[n])
    ensures rows[m].partition == rows[n].partition ==> m < n
  {
    assert Reports(rows, channel[i]) && Reports(rows, channel[j]);
    m :| 0 <= m < |rows| && rows[m].bid == channel[i].bid;
    n :| 0 <= n < |rows| && rows[n].bid == channel[j].bid;
    assert RowPrecedes(rows, channel[i].bid.id, channel[j].bid.id);
  }

  // ---- the cache ----------------------------------------------------------------

  ghost predicate LastAccepted(rows: seq<Row>, a: Id, i: nat) {
    i < |rows| && AcceptedFor(rows[i], a) && forall j :: i < j < |rows| ==> !AcceptedFor(rows[j], a)
  }

  lemma LastAcceptedIsHighest(rows: seq<Row>, a: Id, i: nat)
    requires Increasing(rows) && LastAccepted(rows, a, i)
    ensures Highest(rows, a) == Some(rows[i].bid.amount)
  {
  }

  /** The cached amount and bidder are those of one accepted row, never above the
      highest bid, and equal to the highest exactly when the latest accepted bid has
      been through the script. */
  lemma CacheAgreesWithTable(c: Config, s: State, steps: seq<Step>, a: Id)
    requires Initial(s) && Executable(c, s, steps)
    ensures var t := Exec(c, s, steps);
            a in t.cache ==>
              && (exists i :: 0 <= i < |t.rows| && AcceptedFor(t.rows[i], a)
                              && t.rows[i].bid.amount == t.cache[a].amount
                              && t.rows[i].bid.bidderId == t.cache[a].bidderId)
              && Highest(t.rows, a).Some? && t.cache[a].amount <= Highest(t.rows, a).value
    ensures var t := Exec(c, s, steps);
            forall i: nat :: LastAccepted(t.rows, a, i) ==>
              ((a in t.cache && t.cache[a].amount == Highest(t.rows, a).value) <==> t.rows[i].bid.id in t.arbitrated)
  {
    RunKeepsInv(c, s, steps);
    var t := Exec(c, s, steps);
    if a in t.cache {
      var i: nat :| FromRow(t, a, i);
    }
    forall i: nat | LastAccepted(t.rows, a, i)
      ensures (a in t.cache && t.cache[a].amount == Highest(t.rows, a).value) <==> t.rows[i].bid.id in t.arbitrated
    {
      LastAcceptedIsHighest(t.rows, a, i);
      if a in t.cache && t.cache[a].amount == Highest(t.rows, a).value {
        var j: nat :| FromRow(t, a, j);
        assert i == j;
      }
    }
  }

  /** No step lowers or removes a cached amount. */
  lemma CacheNeverDecreases(c: Config, s: State, steps: seq<Step>, x: Step, a: Id)
    requires Initial(s) && Executable(c, s, steps) && Enabled(c, Exec(c, s, steps), x)
    requires a in Exec(c, s, steps).cache
    ensures var t := Exec(c, s, steps); var t' := Apply(c, t, x);
            a in t'.cache && t.cache[a].amount <= t'.cache[a].amount
  {
    RunKeepsInv(c, s, steps);
    hide LogInv, TableInv, EffectInv, CacheInv, AccountInv, Exec, Apply, Enabled;
    CacheGrows(c, Exec(c, s, steps), x, a);
  }

  lemma CacheGrows(c: Config, t: State, x: Step, a: Id)
    requires Inv(c, t) && Enabled(c, t, x) && a in t.cache
    ensures var t' := Apply(c, t, x); a in t'.cache && t.cache[a].amount <= t'.cache[a].amount
  {
    hide LogInv, TableInv, EffectInv, CacheInv, AccountInv, Apply;
    if Scripts(t, x) { ScriptWrites(c, t, x.p); } else { QuietCache(c, t, x); }
  }

  lemma QuietCache(c: Config, s: State, x: Step)
    requires Enabled(c, s, x) && !Scripts(s, x)
    ensures Apply(c, s, x).cache == s.cache
  {
  }

  /** However far the cache lagged, an accepted bid that completes the script brings it
      back to the table's highest bid. */
  lemma ScriptRepairsCache(c: Config, s: State, steps: seq<Step>, p: nat)
    requires Initial(s) && Executable(c, s, steps) && Enabled(c, Exec(c, s, steps), RunScript(p))
    requires Exec(c, s, steps).parts[p].stage.flight.verdict.Accepted?
    ensures var t := Exec(c, s, steps); var b := t.parts[p].stage.flight.bid;
            var t' := Apply(c, t, RunScript(p));
            && b.auctionId in t'.cache && t'.cache[b.auctionId] == Cached(b.amount, b.bidderId)
            && Highest(t'.rows, b.auctionId) == Some(b.amount)
  {
    RunKeepsInv(c, s, steps);
    ScriptWrites(c, Exec(c, s, steps), p);
    FlightRowIsHighest(c, Exec(c, s, steps), p);
  }

  lemma FlightRowIsHighest(c: Config, t: State, p: nat)
    requires TableInv(c, t) && p < |t.parts| && Storing(t.parts[p].stage) && t.parts[p].stage.flight.verdict.Accepted?
    ensures var b := t.parts[p].stage.flight.bid; Highest(t.rows, b.auctionId) == Some(b.amount)
  {
    var k := StorageHasRow(c, t, p);
    forall i | 0 <= i < |t.rows| && AcceptedFor(t.rows[i], t.rows[k].bid.auctionId)
      ensures t.rows[i].bid.amount <= t.rows[k].bid.amount
    {
      if i != k { FlightIsHighest(c, t, p, k, i); }
    }
  }

  // ---- offsets -----------------------------------------------------------------

  /** Below the committed offset every message is accounted for. */
  lemma CommittedOffsetsAreSettled(c: Config, s: State, steps: seq<Step>, p: nat, o: nat)
    requires Initial(s) && Executable(c, s, steps)
    requires p < |Exec(c, s, steps).parts| && o < Exec(c, s, steps).parts[p].committed
    ensures Settled(c, Exec(c, s, steps), p, o)
  {
    RunKeepsInv(c, s, steps);
  }

  /** A message that always raises is never settled: it has no row, and it is below the
      committed offset only because it was passed over. */
  lemma RaisingIsPassedOver(c: Config, s: State, steps: seq<Step>, p: nat, o: nat)
    requires Initial(s) && Executable(c, s, steps) && p < |Exec(c, s, steps).parts|
    requires o < |Exec(c, s, steps).parts[p].log| && AlwaysRaises(Exec(c, s, steps).parts[p].log[o])
    ensures !PositionTaken(Exec(c, s, steps).rows, p, o)
    ensures o < Exec(c, s, steps).parts[p].committed ==> o in Exec(c, s, steps).parts[p].skipped
  {
    var t := Exec(c, s, steps);
    RunKeepsInv(c, s, steps);
    DeliveryByFields(t.parts[p].log[o]);
    assert forall i :: 0 <= i < |t.rows| ==> RowInv(c, t, t.rows[i]);
    if o < t.parts[p].committed { CommittedOffsetsAreSettled(c, s, steps, p, o); }
  }

  lemma {:induction false} FailStopSkipsNothing(c: Config, s: State, steps: seq<Step>, p: nat)
    requires Initial(s) && Executable(c, s, steps) && FailStop(c, s, steps)
    requires p < |Exec(c, s, steps).parts|
    ensures Exec(c, s, steps).parts[p].skipped == {}
  {
    if steps != [] {
      var front := steps[..|steps| - 1];
      var a := steps[|steps| - 1];
      var t := Exec(c, s, front);
      FailStopSkipsNothing(c, s, front, p);
      assert Exec(c, s, steps).parts[p] == PartAfter(c, t, a, p);
    }
  }

  /** No other message of any log carries the bid id. */
  ghost predicate OnlyMessage(s: State, p: nat, o: nat, id: Id) {
    forall q, n, d :: Logged(s, q, n, d) && d.id == id ==> q == p && n == o
  }

  /** A fail-stop run loses no valid bid: below the committed offset every bid by a known
      user on a known auction has its id in the table, and has its own row at its own
      position unless another message used the id. */
  lemma NoBidLost(c: Config, s: State, steps: seq<Step>, p: nat, o: nat, b: Bid) returns (i: nat)
    requires Initial(s) && Executable(c, s, steps) && FailStop(c, s, steps)
    requires p < |Exec(c, s, steps).parts| && o < Exec(c, s, steps).parts[p].committed
    requires Logged(Exec(c, s, steps), p, o, b)
    requires b.amount > 0 && b.auctionId in c.ref.startingPrice && b.bidderId in c.ref.users
    ensures var t := Exec(c, s, steps);
            && i < |t.rows| && t.rows[i].bid.id == b.id
            && (OnlyMessage(t, p, o, b.id) ==> t.rows[i].bid == b && t.rows[i].partition == p && t.rows[i].offset == o)
  {
    CommittedOffsetsAreSettled(c, s, steps, p, o);
    FailStopSkipsNothing(c, s, steps, p);
    RunKeepsInv(c, s, steps);
    var t := Exec(c, s, steps);
    if PositionTaken(t.rows, p, o) {
      i :| 0 <= i < |t.rows| && t.rows[i].partition == p && t.rows[i].offset == o;
    } else {
      i :| 0 <= i < |t.rows| && t.rows[i].bid.id == b.id;
    }
    assert RowInv(c, t, t.rows[i]);
  }
}
