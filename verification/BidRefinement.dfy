/** Fail-stop runs refine the sequential specification: crash points, replays and the
    interleaving of partitions cannot be seen in the bids table. */
module BidRefinement {
  import opened Options
  import opened BidDomain
  import opened CriticalPath
  import opened BidSafety
  import opened BidRuns
  import opened BidOrder
  import opened SequentialBids
  import opened BidProjection
  import opened BidSettling

  // ---- the settling history ----------------------------------------------------------

  /** The message a partition settles next, if the step settles it. */
  ghost function EntryAt(t: State, a: Step, p: nat): seq<Entry> {
    if Settles(t, a, p) && t.parts[p].reached < |t.parts[p].log|
    then
      var part := t.parts[p];
      [Entry(p, part.reached, part.log[part.reached], InDecision(part.stage) && part.stage.flight.live)]
    else []
  }

  ghost function SettledBy(t: State, a: Step): seq<Entry> {
    match a
    case SkipPoison(p) => EntryAt(t, a, p)
    case StoreRow(p) => EntryAt(t, a, p)
    case Refuse(p, _) => EntryAt(t, a, p)
    case _ => []
  }

  /** The messages of all partitions in the order the run settled them, each once. */
  ghost function Settling(c: Config, s: State, steps: seq<Step>): seq<Entry>
    requires Executable(c, s, steps)
  {
    if steps == [] then []
    else Settling(c, s, steps[..|steps| - 1]) + SettledBy(Exec(c, s, steps[..|steps| - 1]), steps[|steps| - 1])
  }

  lemma SettleNext(ref: Reference, es: seq<Entry>, e: Entry)
    ensures SettleAll(ref, es + [e]) == SettleEntry(ref, SettleAll(ref, es), e)
  {
    assert (es + [e])[..|es|] == es;
  }

  // ---- the table, in every run ---------------------------------------------------------

  /** The message whose row a step commits, with the status its decision read. */
  ghost function StoredBy(t: State, a: Step): seq<Entry> {
    if a.StoreRow? && a.p < |t.parts| && t.parts[a.p].stage.Judged?
      && t.parts[a.p].stage.flight.offset < |t.parts[a.p].log|
    then
      var f := t.parts[a.p].stage.flight;
      [Entry(a.p, f.offset, t.parts[a.p].log[f.offset], f.live)]
    else []
  }

  /** The messages that got a row, in commit order. */
  ghost function Stores(c: Config, s: State, steps: seq<Step>): seq<Entry>
    requires Executable(c, s, steps)
  {
    if steps == [] then []
    else Stores(c, s, steps[..|steps| - 1]) + StoredBy(Exec(c, s, steps[..|steps| - 1]), steps[|steps| - 1])
  }

  lemma StoredEntry(c: Config, t: State, p: nat)
    requires LogInv(c, t) && TableInv(c, t) && Enabled(c, t, StoreRow(p))
    ensures |StoredBy(t, StoreRow(p))| == 1
    ensures SettleEntry(c.ref, t.rows, StoredBy(t, StoreRow(p))[0]) == t.rows + [RowOf(p, t.parts[p].stage.flight)]
  {
    assert PartitionInv(t.parts[p]) && FlightInv(c, t, p);
    hide Judge, LogInv, TableInv;
  }

  lemma StoresStep(c: Config, t: State, a: Step, es: seq<Entry>)
    requires LogInv(c, t) && TableInv(c, t) && Enabled(c, t, a) && t.rows == SettleAll(c.ref, es)
    ensures Apply(c, t, a).rows == SettleAll(c.ref, es + StoredBy(t, a))
  {
    if a.StoreRow? {
      StoredEntry(c, t, a.p);
      SettleNext(c.ref, es, StoredBy(t, a)[0]);
      assert StoredBy(t, a) == [StoredBy(t, a)[0]];
    } else {
      assert es + [] == es;
    }
  }

  /** In every run at all, whatever is passed over, replayed out of order or flipped, the table
      is the fold of the decision rule over the messages that got a row, in commit order: no
      verdict depends on anything but the rows before it and the status that was read. */
  lemma {:induction false} TableIsFoldOfStores(c: Config, s: State, steps: seq<Step>)
    requires Initial(s) && Executable(c, s, steps)
    ensures Exec(c, s, steps).rows == SettleAll(c.ref, Stores(c, s, steps))
  {
    if steps != [] {
      var front := steps[..|steps| - 1];
      TableIsFoldOfStores(c, s, front);
      RunKeepsInv(c, s, front);
      hide LogInv, TableInv, Apply, SettleAll, StoredBy;
      StoresStep(c, Exec(c, s, front), steps[|steps| - 1], Stores(c, s, front));
    }
  }

  // ---- the settled messages, in fail-stop runs -----------------------------------------

  /** A refused message that is new is refused for what it is, not for its position. */
  lemma RefusedForItself(c: Config, t: State, p: nat)
    requires LogInv(c, t) && OrderInv(c, t) && p < |t.parts| && t.parts[p].stage.Judged?
    requires Conflicts(c.ref, t.rows, RowOf(p, t.parts[p].stage.flight))
    requires OffsetOf(t.parts[p].stage) == Some(t.parts[p].reached)
    ensures Refusable(c.ref, t.rows, t.parts[p].stage.flight.bid)
  {
  }

  /** The message settled is the one in flight. */
  lemma SettledIsInFlight(c: Config, t: State, a: Step)
    requires LogInv(c, t) && OrderInv(c, t) && Enabled(c, t, a)
    ensures a.StoreRow? ==> SettledBy(t, a) == StoredBy(t, a)
    ensures SettledBy(t, a) != [] && a.Refuse? ==>
              && Deliver(SettledBy(t, a)[0].message) == Decidable(t.parts[a.p].stage.flight.bid)
              && Refusable(c.ref, t.rows, t.parts[a.p].stage.flight.bid)
    ensures SettledBy(t, a) != [] && a.SkipPoison? ==> Deliver(SettledBy(t, a)[0].message).Poison?
    ensures |SettledBy(t, a)| <= 1
  {
    if a.StoreRow? { StoresNext(c, t, a.p); }
    if SettledBy(t, a) != [] {
      assert PartitionInv(t.parts[a.p]);
      hide Refusable;
      if a.Refuse? { RefusedForItself(c, t, a.p); }
    }
  }

  lemma SettlingStep(c: Config, t: State, a: Step, es: seq<Entry>)
    requires LogInv(c, t) && TableInv(c, t) && OrderInv(c, t) && Enabled(c, t, a) && t.rows == SettleAll(c.ref, es)
    ensures Apply(c, t, a).rows == SettleAll(c.ref, es + SettledBy(t, a))
  {
    SettledIsInFlight(c, t, a);
    StoresStep(c, t, a, es);
    hide LogInv, TableInv, OrderInv, Refusable, SettleAll;
    assert es + [] == es;
    if SettledBy(t, a) != [] && !a.StoreRow? {
      SettleNext(c.ref, es, SettledBy(t, a)[0]);
      assert SettledBy(t, a) == [SettledBy(t, a)[0]];
    }
  }

  /** The history holds exactly what each partition has reached, in its order. */
  ghost predicate Covers(t: State, es: seq<Entry>) {
    && InOffsetOrder(es)
    && (forall p :: 0 <= p < |t.parts|
          ==> t.parts[p].reached <= |t.parts[p].log| && MessagesOf(es, p) == t.parts[p].log[..t.parts[p].reached])
    && (forall k :: 0 <= k < |es| ==> EntryLogged(t, es[k]))
  }

  ghost predicate EntryLogged(t: State, e: Entry) {
    e.partition < |t.parts| && e.offset < |t.parts[e.partition].log| && t.parts[e.partition].log[e.offset] == e.message
  }

  lemma MessagesNext(es: seq<Entry>, e: Entry, p: nat)
    ensures MessagesOf(es + [e], p) == if e.partition == p then MessagesOf(es, p) + [e.message] else MessagesOf(es, p)
    ensures InOffsetOrder(es) && e.offset == |MessagesOf(es, e.partition)| ==> InOffsetOrder(es + [e])
  {
    assert (es + [e])[..|es|] == es;
  }

  lemma EntryStaysLogged(c: Config, t: State, a: Step, e: Entry)
    requires Enabled(c, t, a) && EntryLogged(t, e)
    ensures EntryLogged(Apply(c, t, a), e)
  {
  }

  /** Messages and log of a partition move together. */
  lemma PrefixMoves(part: Partition, part': Partition, messages: seq<Message>, messages': seq<Message>)
    requires part.reached <= |part.log| && messages == part.log[..part.reached]
    requires || (SameReach(part, part') && messages' == messages)
             || (part'.log == part.log && part'.reached == part.reached + 1 <= |part.log|
                 && messages' == messages + [part.log[part.reached]])
    ensures part'.reached <= |part'.log| && messages' == part'.log[..part'.reached]
  {
    if SameReach(part, part') { assert part'.log[..part.reached] == part'.log[..|part.log|][..part.reached]; }
  }

  /** Only the partition whose message is settled gets a message. */
  lemma SettledByOnly(t: State, a: Step, p: nat)
    requires p < |t.parts| && t.parts[p].reached <= |t.parts[p].log|
    ensures Settles(t, a, p) && t.parts[p].reached < |t.parts[p].log| ==>
              SettledBy(t, a) == EntryAt(t, a, p) && |SettledBy(t, a)| == 1
    ensures SettledBy(t, a) != [] && !Settles(t, a, p) ==> SettledBy(t, a)[0].partition != p
    ensures SettledBy(t, a) != [] ==> |SettledBy(t, a)| == 1
  {
  }

  lemma CoversPartition(c: Config, t: State, a: Step, es: seq<Entry>, p: nat)
    requires LogInv(c, t) && OrderInv(c, t) && Enabled(c, t, a) && Halts(t, a) && Covers(t, es) && p < |t.parts|
    ensures var part := Apply(c, t, a).parts[p];
            part.reached <= |part.log| && MessagesOf(es + SettledBy(t, a), p) == part.log[..part.reached]
  {
    var part, part' := t.parts[p], Apply(c, t, a).parts[p];
    assert part' == PartAfter(c, t, a, p);
    assert Ordered(c, t, p) && PartitionInv(part);
    ReachStep(c, t, a, p);
    OrderedStep(c, t, a, p);
    hide PartAfter, Apply, Enabled, PartitionInv, Settles, SettledBy, MessagesOf, InOffsetOrder, LogInv, OrderInv;
    SettledByOnly(t, a, p);
    assert es + [] == es;
    if SettledBy(t, a) != [] {
      assert SettledBy(t, a) == [SettledBy(t, a)[0]];
      MessagesNext(es, SettledBy(t, a)[0], p);
    }
    PrefixMoves(part, part', MessagesOf(es, p), MessagesOf(es + SettledBy(t, a), p));
  }

  lemma CoversStep(c: Config, t: State, a: Step, es: seq<Entry>)
    requires LogInv(c, t) && OrderInv(c, t) && Enabled(c, t, a) && Halts(t, a) && Covers(t, es)
    ensures Covers(Apply(c, t, a), es + SettledBy(t, a))
  {
    var t', es' := Apply(c, t, a), es + SettledBy(t, a);
    forall p | 0 <= p < |t'.parts|
      ensures t'.parts[p].reached <= |t'.parts[p].log| && MessagesOf(es', p) == t'.parts[p].log[..t'.parts[p].reached]
    {
      CoversPartition(c, t, a, es, p);
    }
    assert es + [] == es;
    forall k | 0 <= k < |es'| ensures EntryLogged(t', es'[k]) { EntryStaysLogged(c, t, a, es'[k]); }
    if SettledBy(t, a) != [] { MessagesNext(es, SettledBy(t, a)[0], a.p); }
  }

  /** Refinement: after any fail-stop run, whatever crashed, was replayed, changed status or
      used an id twice, the table, in commit order, is the fold of the decision rule over the
      messages in the order they were settled; and these are, for each partition, a prefix of
      its log that covers everything committed. */
  lemma {:induction false} TableIsOneFold(c: Config, s: State, steps: seq<Step>)
    requires Initial(s) && Executable(c, s, steps) && FailStop(c, s, steps)
    ensures var t := Exec(c, s, steps);
            && t.rows == SettleAll(c.ref, Settling(c, s, steps)) && Covers(t, Settling(c, s, steps))
            && forall p :: 0 <= p < |t.parts| ==> t.parts[p].committed <= t.parts[p].reached
  {
    FailStopKeepsOrder(c, s, steps);
    CommittedIsReached(c, Exec(c, s, steps));
    hide LogInv, TableInv, OrderInv, Apply, Covers, SettleAll, SettledBy, Initial, Enabled;
    if steps == [] {
      NothingSettled(c, s);
    } else {
      var front := steps[..|steps| - 1];
      TableIsOneFold(c, s, front);
      RunKeepsInv(c, s, front);
      FailStopKeepsOrder(c, s, front);
      SettlingStep(c, Exec(c, s, front), steps[|steps| - 1], Settling(c, s, front));
      CoversStep(c, Exec(c, s, front), steps[|steps| - 1], Settling(c, s, front));
    }
  }

  lemma CommittedIsReached(c: Config, t: State)
    requires OrderInv(c, t)
    ensures forall p :: 0 <= p < |t.parts| ==> t.parts[p].committed <= t.parts[p].reached
  {
    forall p | 0 <= p < |t.parts| ensures t.parts[p].committed <= t.parts[p].reached { assert Ordered(c, t, p); }
  }

  lemma NothingSettled(c: Config, s: State)
    requires Initial(s)
    ensures s.rows == SettleAll(c.ref, []) && Covers(s, [])
  {
  }

  // ---- the status a decision read -----------------------------------------------------

  ghost predicate StatusKept(steps: seq<Step>, a: Id) {
    forall i :: 0 <= i < |steps| && steps[i].SetLive? ==> steps[i].auction != a
  }

  /** Whatever is under way about `a` in the partition read the status it has throughout. */
  ghost predicate Read(part: Partition, a: Id, live: bool) {
    && (part.stage.Looked? && part.stage.offset < |part.log| && About(part.log[part.stage.offset], a)
        ==> part.stage.live == live)
    && (InDecision(part.stage) && part.stage.flight.bid.auctionId == a ==> part.stage.flight.live == live)
  }

  ghost predicate ReadEverywhere(t: State, a: Id, live: bool) {
    (a in t.live <==> live) && forall p :: 0 <= p < |t.parts| ==> Read(t.parts[p], a, live)
  }

  lemma ReadStep(c: Config, t: State, x: Step, a: Id, live: bool, p: nat)
    requires LogInv(c, t) && Enabled(c, t, x) && ReadEverywhere(t, a, live) && p < |t.parts|
    ensures Read(Apply(c, t, x).parts[p], a, live)
  {
    assert Apply(c, t, x).parts[p] == PartAfter(c, t, x, p);
    assert Read(t.parts[p], a, live) && PartitionInv(t.parts[p]);
  }

  ghost predicate EntriesRead(es: seq<Entry>, a: Id, live: bool) {
    forall k :: 0 <= k < |es| && About(es[k].message, a) ==> es[k].live == live
  }

  lemma {:induction false} StatusRead(c: Config, s: State, steps: seq<Step>, a: Id)
    requires Initial(s) && Executable(c, s, steps) && StatusKept(steps, a)
    ensures ReadEverywhere(Exec(c, s, steps), a, a in s.live) && EntriesRead(Settling(c, s, steps), a, a in s.live)
  {
    if steps != [] {
      var front, x := steps[..|steps| - 1], steps[|steps| - 1];
      StatusRead(c, s, front, a);
      RunKeepsInv(c, s, front);
      var t := Exec(c, s, front);
      hide Apply, LogInv, TableInv, ReadEverywhere, SettledBy, Enabled, Initial, EntriesRead;
      ReadEverywhereStep(c, t, x, a, a in s.live);
      EntryRead(c, t, x, a, a in s.live);
      JoinRead(Settling(c, s, front), SettledBy(t, x), a, a in s.live);
    } else {
      NothingRead(s, a);
    }
  }

  lemma JoinRead(es: seq<Entry>, more: seq<Entry>, a: Id, live: bool)
    requires EntriesRead(es, a, live) && EntriesRead(more, a, live)
    ensures EntriesRead(es + more, a, live)
  {
  }

  lemma NothingRead(s: State, a: Id)
    requires Initial(s)
    ensures ReadEverywhere(s, a, a in s.live) && EntriesRead([], a, a in s.live)
  {
  }

  lemma ReadEverywhereStep(c: Config, t: State, x: Step, a: Id, live: bool)
    requires LogInv(c, t) && Enabled(c, t, x) && ReadEverywhere(t, a, live) && (x.SetLive? ==> x.auction != a)
    ensures ReadEverywhere(Apply(c, t, x), a, live)
  {
    hide LogInv, Read;
    forall p | 0 <= p < |t.parts| ensures Read(Apply(c, t, x).parts[p], a, live) { ReadStep(c, t, x, a, live, p); }
  }

  lemma EntryRead(c: Config, t: State, x: Step, a: Id, live: bool)
    requires LogInv(c, t) && Enabled(c, t, x) && ReadEverywhere(t, a, live)
    ensures EntriesRead(SettledBy(t, x), a, live)
  {
    if SettledBy(t, x) != [] { assert PartitionInv(t.parts[x.p]) && Read(t.parts[x.p], a, live); }
  }

  // ---- one partition ------------------------------------------------------------------

  /** No bid id is used in two partitions; a fresh UUID per submission gives more. */
  ghost predicate IdsSeparate(s: State) {
    forall p, o, b, q, n, d :: Logged(s, p, o, b) && Logged(s, q, n, d) && b.id == d.id ==> p == q
  }

  ghost predicate CleanRun(c: Config, s: State, steps: seq<Step>) {
    Initial(s) && Executable(c, s, steps) && FailStop(c, s, steps) && StatusesFixed(steps)
      && IdsSeparate(Exec(c, s, steps))
  }

  lemma EntriesSeparate(c: Config, t: State, es: seq<Entry>)
    requires LogInv(c, t) && IdsSeparate(t) && Covers(t, es)
    ensures Separate(es)
  {
    forall j, k | 0 <= j < |es| && 0 <= k < |es| && Akin(es[j].message, es[k].message)
      ensures es[j].partition == es[k].partition
    {
      assert EntryLogged(t, es[j]) && EntryLogged(t, es[k]);
      assert Logged(t, es[j].partition, es[j].offset, Deliver(es[j].message).bid);
      assert Logged(t, es[k].partition, es[k].offset, Deliver(es[k].message).bid);
    }
  }

  /** With statuses fixed and ids not shared between partitions, a partition's rows are what
      a reader of its log alone would store. */
  lemma {:induction false} TableIsFold(c: Config, s: State, steps: seq<Step>, p: nat)
    requires CleanRun(c, s, steps) && p < |Exec(c, s, steps).parts|
    ensures var t := Exec(c, s, steps); var part := t.parts[p];
            && part.committed <= part.reached <= |part.log|
            && RowsOf(t.rows, p) == Fold(c.ref, s.live, p, part.log[..part.reached])
  {
    var t, es := Exec(c, s, steps), Settling(c, s, steps);
    TableIsOneFold(c, s, steps);
    RunKeepsInv(c, s, steps);
    EntriesSeparate(c, t, es);
    forall k, b | 0 <= k < |es| && Deliver(es[k].message) == Decidable(b)
      ensures es[k].live == (b.auctionId in s.live)
    {
      StatusRead(c, s, steps, b.auctionId);
      assert About(es[k].message, b.auctionId);
    }
    SettlingOnePartition(c.ref, s.live, p, es);
  }

  // ---- one auction --------------------------------------------------------------------

  /** No other auction's message carries a bid id of `a`. */
  ghost predicate OwnIdsLogged(t: State, a: Id) {
    forall p, o, b, q, n, d :: Logged(t, p, o, b) && Logged(t, q, n, d) && b.auctionId == a && b.id == d.id
      ==> d.auctionId == a
  }

  /** A fail-stop run in which the status of `a` stays what it is; other auctions may open and
      close at any time. */
  ghost predicate AuctionRun(c: Config, s: State, steps: seq<Step>, a: Id) {
    && Initial(s) && Executable(c, s, steps) && FailStop(c, s, steps) && StatusKept(steps, a)
    && OwnIdsLogged(Exec(c, s, steps), a) && c.route(a) < |Exec(c, s, steps).parts|
  }

  lemma EntriesAlone(c: Config, t: State, es: seq<Entry>, a: Id, live: set<Id>)
    requires LogInv(c, t) && OwnIdsLogged(t, a) && Covers(t, es) && EntriesRead(es, a, a in live)
    ensures Alone(es, a, c.route(a), live)
  {
    forall k | 0 <= k < |es| && About(es[k].message, a) ensures es[k].partition == c.route(a) {
      assert Logged(t, es[k].partition, es[k].offset, Deliver(es[k].message).bid) by { assert EntryLogged(t, es[k]); }
    }
    forall b, d | DeliveredBy(es, b) && DeliveredBy(es, d) && b.auctionId == a && b.id == d.id
      ensures d.auctionId == a
    {
      EntryOf(t, es, b);
      EntryOf(t, es, d);
    }
  }

  lemma EntryOf(t: State, es: seq<Entry>, b: Bid)
    requires Covers(t, es) && DeliveredBy(es, b)
    ensures exists p, o :: Logged(t, p, o, b)
  {
    var k :| 0 <= k < |es| && Deliver(es[k].message) == Decidable(b);
    assert EntryLogged(t, es[k]);
    assert Logged(t, es[k].partition, es[k].offset, b);
  }

  /** The messages of its partition that are settled. */
  ghost function SettledLog(c: Config, t: State, a: Id): seq<Message> {
    var p := c.route(a);
    if p < |t.parts| && t.parts[p].reached <= |t.parts[p].log| then t.parts[p].log[..t.parts[p].reached] else []
  }

  /** An auction's rows are those a reader of its partition alone would store for it. */
  lemma {:induction false} AuctionIsFold(c: Config, s: State, steps: seq<Step>, a: Id)
    requires AuctionRun(c, s, steps, a)
    ensures var t := Exec(c, s, steps);
            RowsFor(t.rows, a) == RowsFor(Fold(c.ref, s.live, c.route(a), SettledLog(c, t, a)), a)
  {
    var t, es := Exec(c, s, steps), Settling(c, s, steps);
    TableIsOneFold(c, s, steps);
    RunKeepsInv(c, s, steps);
    StatusRead(c, s, steps, a);
    EntriesAlone(c, t, es, a, s.live);
    SettlingOneAuction(c.ref, s.live, c.route(a), es, a);
  }

  /** A highest accepted row of one table is one of any other with the same rows for `a`. */
  lemma TopRowOf(rows: seq<Row>, rows': seq<Row>, a: Id, i: nat)
    requires RowsFor(rows, a) == RowsFor(rows', a) && TopRow(rows, a, i)
    ensures exists j: nat :: TopRow(rows', a, j) && rows'[j] == rows[i]
  {
    HighestFor(rows, a);
    HighestFor(rows', a);
    InRowsFor(rows, a, rows[i]);
    InRowsFor(rows', a, rows[i]);
    var j :| 0 <= j < |rows'| && rows'[j] == rows[i];
    assert TopRow(rows', a, j);
  }

  lemma OneTopRow(rows: seq<Row>, a: Id, i: nat, j: nat)
    requires Increasing(rows) && TopRow(rows, a, i) && TopRow(rows, a, j)
    ensures i == j
  {
  }

  /** The winner: an auction live throughout a fail-stop run, whatever other auctions do, is
      led by the largest bid on it above the starting price in the settled log prefix, the
      earliest one on a tie; it has no accepted row exactly when there is no such bid. */
  lemma {:induction false} AuctionWinner(c: Config, s: State, steps: seq<Step>, a: Id)
    requires AuctionRun(c, s, steps, a) && a in s.live && a in c.ref.startingPrice
    ensures var t := Exec(c, s, steps); var log := SettledLog(c, t, a);
            && (Highest(t.rows, a).None? <==> forall o: nat :: !Counts(c.ref, a, log, o))
            && forall i: nat :: TopRow(t.rows, a, i) ==> Wins(c.ref, a, log, t.rows[i].offset)
  {
    var t := Exec(c, s, steps);
    AuctionIsFold(c, s, steps, a);
    RunKeepsInv(c, s, steps);
    WinnerFromFold(c.ref, s.live, c.route(a), SettledLog(c, t, a), t.rows, a);
  }

  lemma WinnerFromFold(ref: Reference, live: set<Id>, p: nat, log: seq<Message>, rows: seq<Row>, a: Id)
    requires a in live && a in ref.startingPrice && Increasing(rows)
    requires RowsFor(rows, a) == RowsFor(Fold(ref, live, p, log), a)
    ensures Highest(rows, a).None? <==> forall o: nat :: !Counts(ref, a, log, o)
    ensures forall i: nat :: TopRow(rows, a, i) ==> Wins(ref, a, log, rows[i].offset)
  {
    var rows' := Fold(ref, live, p, log);
    var top := HighestRowWins(ref, live, p, log, a);
    HighestFor(rows, a);
    HighestFor(rows', a);
    hide Fold, Counts;
    forall i: nat | TopRow(rows, a, i) ensures Wins(ref, a, log, rows[i].offset) {
      TopRowOf(rows', rows, a, top.value);
      var j: nat :| TopRow(rows, a, j) && rows[j] == rows'[top.value];
      OneTopRow(rows, a, i, j);
    }
  }

  /** Projection: two fail-stop runs, of whatever deployments, in which an auction had the
      same settled messages, status, starting price and users gave it the same outcomes,
      whatever other auctions shared its partition and whenever they opened or closed. */
  lemma {:induction false} OutcomesAreLocal(c: Config, s: State, steps: seq<Step>, c': Config, s': State,
                                            steps': seq<Step>, a: Id)
    requires AuctionRun(c, s, steps, a) && AuctionRun(c', s', steps', a)
    requires SameAuction(a, c.ref, s.live, c'.ref, s'.live)
    requires SubLog(SettledLog(c, Exec(c, s, steps), a), a) == SubLog(SettledLog(c', Exec(c', s', steps'), a), a)
    ensures OutcomesOf(Exec(c, s, steps).rows, a) == OutcomesOf(Exec(c', s', steps').rows, a)
  {
    OutcomesFromFold(c, s, steps, a);
    OutcomesFromFold(c', s', steps', a);
    OutcomesDependOnOwnMessages(c.ref, s.live, c.route(a), SettledLog(c, Exec(c, s, steps), a),
                                c'.ref, s'.live, c'.route(a), SettledLog(c', Exec(c', s', steps'), a), a);
  }

  lemma {:induction false} OutcomesFromFold(c: Config, s: State, steps: seq<Step>, a: Id)
    requires AuctionRun(c, s, steps, a)
    ensures var t := Exec(c, s, steps);
            && OwnIds(SettledLog(c, t, a), a)
            && OutcomesOf(t.rows, a) == OutcomesOf(Fold(c.ref, s.live, c.route(a), SettledLog(c, t, a)), a)
  {
    var t := Exec(c, s, steps);
    AuctionIsFold(c, s, steps, a);
    OutcomesFor(t.rows, a);
    OutcomesFor(Fold(c.ref, s.live, c.route(a), SettledLog(c, t, a)), a);
    SettledOwnIds(c, t, a);
  }

  lemma SettledOwnIds(c: Config, t: State, a: Id)
    requires OwnIdsLogged(t, a) && c.route(a) < |t.parts|
    ensures OwnIds(SettledLog(c, t, a), a)
  {
    var log, p := SettledLog(c, t, a), c.route(a);
    forall m, n | 0 <= m < |log| && 0 <= n < |log| && About(log[m], a) && Deliver(log[n]).Decidable?
      && !About(log[n], a)
      ensures Deliver(log[m]).bid.id != Deliver(log[n]).bid.id
    {
      assert Logged(t, p, m, Deliver(log[m]).bid) && Logged(t, p, n, Deliver(log[n]).bid);
    }
  }
}
