/** The effects that follow a committed row - the cache script and the two
    channels - in every run: at most once, in commit order, and never ahead of
    the table. */
module BidEffects {
  import opened Options
  import opened BidDomain
  import opened CriticalPath
  import opened BidSafety

  // ---- at most once -------------------------------------------------------------

  ghost predicate HasAcceptedRow(rows: seq<Row>, id: Id) {
    exists i :: 0 <= i < |rows| && rows[i].bid.id == id && rows[i].accepted
  }

  /** The event tells the bid and the status of a committed row. */
  ghost predicate Reports(rows: seq<Row>, e: Event) {
    exists i :: 0 <= i < |rows| && rows[i].bid == e.bid && (rows[i].accepted <==> e.verdict.Accepted?)
  }

  ghost predicate Published(channel: seq<Event>, id: Id) {
    exists k :: 0 <= k < |channel| && channel[k].bid.id == id
  }

  ghost predicate Distinct(ids: seq<Id>) {
    forall i, j :: 0 <= i < j < |ids| ==> ids[i] != ids[j]
  }

  /** Where both bids have rows in one partition, the first one's was committed first. */
  ghost predicate RowPrecedes(rows: seq<Row>, first: Id, second: Id) {
    forall m, n :: 0 <= m < |rows| && 0 <= n < |rows| && rows[m].bid.id == first && rows[n].bid.id == second
                   && rows[m].partition == rows[n].partition
      ==> m < n
  }

  /** Two events of one channel about one partition come in the commit order of their rows. */
  ghost predicate InCommitOrder(rows: seq<Row>, channel: seq<Event>) {
    forall i, j :: 0 <= i < j < |channel| ==> RowPrecedes(rows, channel[i].bid.id, channel[j].bid.id)
  }

  ghost predicate ChannelInv(rows: seq<Row>, channel: seq<Event>) {
    && (forall k :: 0 <= k < |channel| ==> Reports(rows, channel[k]))
    && (forall i, j :: 0 <= i < j < |channel| ==> channel[i].bid.id != channel[j].bid.id)
    && InCommitOrder(rows, channel)
  }

  /** Which effects the message in flight has had. */
  ghost predicate PendingInv(s: State, stage: Stage) {
    && (stage.Stored? ==> stage.flight.bid.id !in s.arbitrated)
    && (stage.Stored? || stage.Arbitrated? ==> !Published(s.updates, stage.flight.bid.id))
    && (Storing(stage) ==> !Published(s.results, stage.flight.bid.id))
  }

  ghost predicate EffectInv(s: State) {
    && (forall k :: 0 <= k < |s.arbitrated| ==> HasAcceptedRow(s.rows, s.arbitrated[k]))
    && Distinct(s.arbitrated)
    && ChannelInv(s.rows, s.updates)
    && ChannelInv(s.rows, s.results)
    && (forall p :: 0 <= p < |s.parts| ==> PendingInv(s, s.parts[p].stage))
  }

  lemma ReportedHasRow(rows: seq<Row>, channel: seq<Event>, id: Id)
    requires ChannelInv(rows, channel) && Published(channel, id)
    ensures exists i :: 0 <= i < |rows| && rows[i].bid.id == id
  {
  }

  lemma ReportsAfterStore(rows: seq<Row>, e: Event, r: Row)
    requires Reports(rows, e)
    ensures Reports(rows + [r], e)
  {
    var i :| 0 <= i < |rows| && rows[i].bid == e.bid && (rows[i].accepted <==> e.verdict.Accepted?);
    assert (rows + [r])[i] == rows[i];
  }

  lemma ChannelAfterStore(rows: seq<Row>, channel: seq<Event>, r: Row)
    requires ChannelInv(rows, channel)
    requires forall i :: 0 <= i < |rows| ==> rows[i].bid.id != r.bid.id
    ensures ChannelInv(rows + [r], channel)
    ensures !Published(channel, r.bid.id)
  {
    if Published(channel, r.bid.id) { ReportedHasRow(rows, channel, r.bid.id); }
    forall k | 0 <= k < |channel| ensures Reports(rows + [r], channel[k]) {
      ReportsAfterStore(rows, channel[k], r);
    }
    forall i, j | 0 <= i < j < |channel| ensures RowPrecedes(rows + [r], channel[i].bid.id, channel[j].bid.id) {
      assert RowPrecedes(rows, channel[i].bid.id, channel[j].bid.id);
      assert Published(channel, channel[i].bid.id) && Published(channel, channel[j].bid.id);
    }
  }

  /** The row in flight is the last of its partition, so its event comes last. */
  lemma ChannelAfterEvent(rows: seq<Row>, channel: seq<Event>, p: nat, f: Flight)
    requires ChannelInv(rows, channel) && RowsUnique(rows)
    requires LastIn(rows, p) == Some(RowOf(p, f)) && !Published(channel, f.bid.id)
    ensures ChannelInv(rows, channel + [EventOf(f)])
  {
    var e := EventOf(f);
    var channel' := channel + [e];
    var last :| 0 <= last < |rows| && rows[last] == RowOf(p, f)
                && forall j :: last < j < |rows| ==> rows[j].partition != p;
    assert Reports(rows, e);
    forall k | 0 <= k < |channel'| ensures Reports(rows, channel'[k]) {
      if k < |channel| { assert Reports(rows, channel[k]); }
    }
    forall i, j | 0 <= i < j < |channel'| ensures RowPrecedes(rows, channel'[i].bid.id, channel'[j].bid.id) {
      if j < |channel| {
        assert RowPrecedes(rows, channel[i].bid.id, channel[j].bid.id);
      } else {
        assert Published(channel, channel[i].bid.id);
      }
    }
  }

  /** Two partitions never have the same bid in flight after its row is committed. */
  lemma FlightsDiffer(c: Config, s: State, p: nat, q: nat)
    requires TableInv(c, s) && p < |s.parts| && q < |s.parts| && p != q
    requires Storing(s.parts[p].stage) && Storing(s.parts[q].stage)
    ensures s.parts[p].stage.flight.bid.id != s.parts[q].stage.flight.bid.id
  {
    assert FlightInv(c, s, p) && FlightInv(c, s, q);
    var i :| 0 <= i < |s.rows| && s.rows[i] == RowOf(p, s.parts[p].stage.flight);
    var j :| 0 <= j < |s.rows| && s.rows[j] == RowOf(q, s.parts[q].stage.flight);
    assert i != j;
  }

  lemma StoreKeepsEffects(c: Config, s: State, p: nat)
    requires EffectInv(s) && Enabled(c, s, StoreRow(p))
    ensures EffectInv(Apply(c, s, StoreRow(p)))
  {
    var s' := Apply(c, s, StoreRow(p));
    var r := RowOf(p, s.parts[p].stage.flight);
    ChannelAfterStore(s.rows, s.updates, r);
    ChannelAfterStore(s.rows, s.results, r);
    forall k | 0 <= k < |s.arbitrated| ensures HasAcceptedRow(s'.rows, s.arbitrated[k]) && s.arbitrated[k] != r.bid.id {
      assert HasAcceptedRow(s.rows, s.arbitrated[k]);
      var i :| 0 <= i < |s.rows| && s.rows[i].bid.id == s.arbitrated[k] && s.rows[i].accepted;
      assert s'.rows[i] == s.rows[i];
    }
    forall q | 0 <= q < |s'.parts| ensures PendingInv(s', s'.parts[q].stage) {
      assert PendingInv(s, s.parts[q].stage);
    }
  }

  lemma StorageHasRow(c: Config, s: State, p: nat) returns (i: nat)
    requires TableInv(c, s) && p < |s.parts| && Storing(s.parts[p].stage)
    ensures i < |s.rows| && s.rows[i] == RowOf(p, s.parts[p].stage.flight)
    ensures forall j :: i < j < |s.rows| ==> s.rows[j].partition != p
  {
    assert FlightInv(c, s, p);
    i :| 0 <= i < |s.rows| && s.rows[i] == RowOf(p, s.parts[p].stage.flight)
         && forall j :: i < j < |s.rows| ==> s.rows[j].partition != p;
  }

  lemma ScriptKeepsEffects(c: Config, s: State, p: nat)
    requires TableInv(c, s) && EffectInv(s) && Enabled(c, s, RunScript(p))
    ensures EffectInv(Apply(c, s, RunScript(p)))
  {
    var s' := Apply(c, s, RunScript(p));
    var i := StorageHasRow(c, s, p);
    assert PendingInv(s, s.parts[p].stage);
    forall k | 0 <= k < |s'.arbitrated| ensures HasAcceptedRow(s'.rows, s'.arbitrated[k]) {
      if k < |s.arbitrated| { assert HasAcceptedRow(s.rows, s.arbitrated[k]); }
    }
    forall q | 0 <= q < |s'.parts| ensures PendingInv(s', s'.parts[q].stage) {
      assert PendingInv(s, s.parts[q].stage);
      if q != p && s.parts[q].stage.Stored? { FlightsDiffer(c, s, p, q); }
    }
  }

  lemma PublishedAppend(channel: seq<Event>, e: Event, id: Id)
    ensures Published(channel + [e], id) <==> Published(channel, id) || e.bid.id == id
  {
    if Published(channel, id) {
      var k :| 0 <= k < |channel| && channel[k].bid.id == id;
      assert (channel + [e])[k].bid.id == id;
    }
    assert (channel + [e])[|channel|] == e;
  }

  lemma EventKeepsEffects(c: Config, s: State, p: nat, a: Step)
    requires TableInv(c, s) && EffectInv(s) && Enabled(c, s, a) && (a == Notify(p) || a == Publish(p))
    ensures EffectInv(Apply(c, s, a))
  {
    var s' := Apply(c, s, a);
    var f := s.parts[p].stage.flight;
    assert FlightInv(c, s, p) && PendingInv(s, s.parts[p].stage);
    ChannelAfterEvent(s.rows, if a.Notify? then s.updates else s.results, p, f);
    forall q | 0 <= q < |s'.parts| ensures PendingInv(s', s'.parts[q].stage) {
      assert PendingInv(s, s.parts[q].stage);
      if Storing(s'.parts[q].stage) {
        PublishedAppend(if a.Notify? then s.updates else s.results, EventOf(f), s'.parts[q].stage.flight.bid.id);
        if q != p { FlightsDiffer(c, s, p, q); }
      }
    }
  }

  lemma QuietStepKeepsPending(c: Config, s: State, a: Step, q: nat)
    requires q < |s.parts| && PendingInv(s, s.parts[q].stage) && Enabled(c, s, a)
    requires !a.StoreRow? && !a.RunScript? && !a.Notify? && !a.Publish?
    ensures PendingInv(Apply(c, s, a), Apply(c, s, a).parts[q].stage)
  {
  }

  lemma EffectInvStep(c: Config, s: State, a: Step)
    requires TableInv(c, s) && EffectInv(s) && Enabled(c, s, a)
    ensures EffectInv(Apply(c, s, a))
  {
    match a
    case StoreRow(p) => StoreKeepsEffects(c, s, p);
    case RunScript(p) => ScriptKeepsEffects(c, s, p);
    case Notify(p) => EventKeepsEffects(c, s, p, a);
    case Publish(p) => EventKeepsEffects(c, s, p, a);
    case _ => QuietStepKeepsEffects(c, s, a);
  }

  lemma QuietStepKeepsEffects(c: Config, s: State, a: Step)
    requires EffectInv(s) && Enabled(c, s, a) && !a.StoreRow? && !a.RunScript? && !a.Notify? && !a.Publish?
    ensures EffectInv(Apply(c, s, a))
  {
    var s' := Apply(c, s, a);
    assert s'.rows == s.rows && s'.arbitrated == s.arbitrated && s'.updates == s.updates && s'.results == s.results;
    hide PartAfter, Worked, ChannelInv, Distinct, PendingInv;
    forall q | 0 <= q < |s'.parts| ensures PendingInv(s', s'.parts[q].stage) {
      QuietStepKeepsPending(c, s, a, q);
    }
  }

  // ---- the cache ---------------------------------------------------------------

  ghost predicate FromRow(s: State, a: Id, i: nat)
    requires a in s.cache
  {
    && i < |s.rows| && AcceptedFor(s.rows[i], a)
    && s.rows[i].bid.amount == s.cache[a].amount
    && s.rows[i].bid.bidderId == s.cache[a].bidderId
    && s.rows[i].bid.id in s.arbitrated
  }

  ghost predicate CacheInv(s: State) {
    && (forall a :: a in s.cache ==> exists i: nat :: FromRow(s, a, i))
    && (forall i :: 0 <= i < |s.rows| && s.rows[i].accepted && s.rows[i].bid.id in s.arbitrated
          ==> s.rows[i].bid.auctionId in s.cache && s.rows[i].bid.amount <= s.cache[s.rows[i].bid.auctionId].amount)
  }

  /** The arguments of the script are always in the range the comparison is exact for. */
  lemma ScriptAlwaysReady(c: Config, s: State, p: nat)
    requires LogInv(c, s) && TableInv(c, s) && CacheInv(s) && p < |s.parts| && s.parts[p].stage.Stored?
    ensures Enabled(c, s, RunScript(p))
  {
    var k := StorageHasRow(c, s, p);
    assert RowInv(c, s, s.rows[k]);
    var a := s.parts[p].stage.flight.bid.auctionId;
    if a in s.cache {
      var i: nat :| FromRow(s, a, i);
      assert RowInv(c, s, s.rows[i]);
    }
  }

  /** An accepted row in flight is the highest of its auction. */
  lemma FlightIsHighest(c: Config, s: State, p: nat, k: nat, i: nat)
    requires TableInv(c, s) && p < |s.parts| && Storing(s.parts[p].stage) && s.parts[p].stage.flight.verdict.Accepted?
    requires k < |s.rows| && s.rows[k] == RowOf(p, s.parts[p].stage.flight)
    requires forall j :: k < j < |s.rows| ==> s.rows[j].partition != p
    requires i < |s.rows| && i != k && AcceptedFor(s.rows[i], s.rows[k].bid.auctionId)
    ensures s.rows[i].bid.amount < s.rows[k].bid.amount
  {
  }

  /** The script always writes: the cached amount, if any, is a smaller accepted one. */
  lemma ScriptWrites(c: Config, s: State, p: nat)
    requires LogInv(c, s) && TableInv(c, s) && EffectInv(s) && CacheInv(s) && Enabled(c, s, RunScript(p))
    requires s.parts[p].stage.flight.verdict.Accepted?
    ensures var f, s' := s.parts[p].stage.flight, Apply(c, s, RunScript(p));
            && s'.cache == Arbitrate(s.cache, f.bid) == s.cache[f.bid.auctionId := Cached(f.bid.amount, f.bid.bidderId)]
            && s'.arbitrated == s.arbitrated + [f.bid.id] && s'.rows == s.rows
            && (f.bid.auctionId in s.cache ==> s.cache[f.bid.auctionId].amount < f.bid.amount)
  {
    var s' := Apply(c, s, RunScript(p));
    var f := s.parts[p].stage.flight;
    var a := f.bid.auctionId;
    var k := StorageHasRow(c, s, p);
    assert RowInv(c, s, s.rows[k]);
    assert PendingInv(s, s.parts[p].stage);
    if a in s.cache {
      var i: nat :| FromRow(s, a, i);
      FlightIsHighest(c, s, p, k, i);
    }
    ArbitrateKeepsLarger(s.cache, f.bid);
    assert s'.cache == Arbitrate(s.cache, f.bid);
  }

  /** `s'` is `s` with the accepted row `k` in flight at `p` written to the cache. */
  ghost predicate Written(s: State, p: nat, k: nat, s': State) {
    && p < |s.parts| && s.parts[p].stage.Stored? && s.parts[p].stage.flight.verdict.Accepted?
    && k < |s.rows| && s.rows[k] == RowOf(p, s.parts[p].stage.flight) && s.rows[k].bid.amount >= 0
    && (forall j :: k < j < |s.rows| ==> s.rows[j].partition != p)
    && s'.cache == s.cache[s.rows[k].bid.auctionId := Cached(s.rows[k].bid.amount, s.rows[k].bid.bidderId)]
    && s'.arbitrated == s.arbitrated + [s.rows[k].bid.id] && s'.rows == s.rows
  }

  lemma WrittenCacheHasRows(s: State, p: nat, k: nat, s': State, b: Id)
    requires CacheInv(s) && Written(s, p, k, s') && b in s'.cache
    ensures exists i: nat :: FromRow(s', b, i)
  {
    if b == s.rows[k].bid.auctionId {
      assert FromRow(s', b, k);
    } else {
      var i: nat :| FromRow(s, b, i);
      assert FromRow(s', b, i);
    }
  }

  lemma WrittenCacheIsHighest(c: Config, s: State, p: nat, k: nat, s': State, i: nat)
    requires TableInv(c, s) && CacheInv(s) && Written(s, p, k, s')
    requires i < |s.rows| && s.rows[i].accepted && s.rows[i].bid.id in s'.arbitrated
    ensures s.rows[i].bid.auctionId in s'.cache && s.rows[i].bid.amount <= s'.cache[s.rows[i].bid.auctionId].amount
  {
    if i != k {
      assert s.rows[i].bid.id != s.rows[k].bid.id;
      if s.rows[i].bid.auctionId == s.rows[k].bid.auctionId { FlightIsHighest(c, s, p, k, i); }
    }
  }

  lemma WrittenKeepsCache(c: Config, s: State, p: nat, k: nat, s': State)
    requires TableInv(c, s) && CacheInv(s) && Written(s, p, k, s')
    ensures CacheInv(s')
  {
    forall b | b in s'.cache ensures exists i: nat :: FromRow(s', b, i) {
      WrittenCacheHasRows(s, p, k, s', b);
    }
    forall i | 0 <= i < |s'.rows| && s'.rows[i].accepted && s'.rows[i].bid.id in s'.arbitrated
      ensures s'.rows[i].bid.auctionId in s'.cache && s'.rows[i].bid.amount <= s'.cache[s'.rows[i].bid.auctionId].amount
    {
      WrittenCacheIsHighest(c, s, p, k, s', i);
    }
  }

  lemma ScriptKeepsCache(c: Config, s: State, p: nat)
    requires LogInv(c, s) && TableInv(c, s) && EffectInv(s) && CacheInv(s) && Enabled(c, s, RunScript(p))
    requires s.parts[p].stage.flight.verdict.Accepted?
    ensures CacheInv(Apply(c, s, RunScript(p)))
  {
    ScriptWrites(c, s, p);
    var k := StorageHasRow(c, s, p);
    assert Written(s, p, k, Apply(c, s, RunScript(p)));
    WrittenKeepsCache(c, s, p, k, Apply(c, s, RunScript(p)));
  }

  lemma StoreAddsRow(c: Config, s: State, p: nat)
    requires Enabled(c, s, StoreRow(p))
    ensures var s', r := Apply(c, s, StoreRow(p)), RowOf(p, s.parts[p].stage.flight);
            && s'.rows == s.rows + [r] && s'.cache == s.cache && s'.arbitrated == s.arbitrated
            && forall i :: 0 <= i < |s.rows| ==> s.rows[i].bid.id != r.bid.id
  {
  }

  lemma StoreKeepsCache(c: Config, s: State, p: nat)
    requires EffectInv(s) && CacheInv(s) && Enabled(c, s, StoreRow(p))
    ensures CacheInv(Apply(c, s, StoreRow(p)))
  {
    var s' := Apply(c, s, StoreRow(p));
    StoreAddsRow(c, s, p);
    var r := RowOf(p, s.parts[p].stage.flight);
    hide Apply, Enabled, Conflicts, PartsAfter;
    forall a | a in s'.cache ensures exists i: nat :: FromRow(s', a, i) {
      var i: nat :| FromRow(s, a, i);
      assert FromRow(s', a, i);
    }
    forall k | 0 <= k < |s.arbitrated| ensures s.arbitrated[k] != r.bid.id {
      assert HasAcceptedRow(s.rows, s.arbitrated[k]);
    }
  }

  lemma CacheInvFrame(s: State, s': State)
    requires CacheInv(s) && s'.rows == s.rows && s'.arbitrated == s.arbitrated && s'.cache == s.cache
    ensures CacheInv(s')
  {
    forall b | b in s'.cache ensures exists i: nat :: FromRow(s', b, i) {
      var i: nat :| FromRow(s, b, i);
      assert FromRow(s', b, i);
    }
  }

  lemma QuietStepKeepsTables(c: Config, s: State, a: Step)
    requires Enabled(c, s, a) && !a.StoreRow? && !Scripts(s, a)
    ensures Apply(c, s, a).rows == s.rows && Apply(c, s, a).arbitrated == s.arbitrated
    ensures Apply(c, s, a).cache == s.cache
  {
  }

  lemma CacheInvStep(c: Config, s: State, a: Step)
    requires LogInv(c, s) && TableInv(c, s) && EffectInv(s) && CacheInv(s) && Enabled(c, s, a)
    ensures CacheInv(Apply(c, s, a))
  {
    if a.StoreRow? {
      StoreKeepsCache(c, s, a.p);
    } else if Scripts(s, a) {
      ScriptKeepsCache(c, s, a.p);
    } else {
      QuietStepKeepsTables(c, s, a);
      CacheInvFrame(s, Apply(c, s, a));
    }
  }
}
