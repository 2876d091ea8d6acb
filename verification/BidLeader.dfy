/** Who leads an auction in runs that pass messages over: what the leader always is, and
    exactly when it is the log's winner. */
module BidLeader {
  import opened BidDomain
  import opened CriticalPath
  import opened BidSafety
  import opened BidRuns
  import opened SequentialBids
  import opened BidProjection
  import opened BidRefinement
  import opened BidLoss

  // ---- a table of an auction that is live throughout ------------------------------------

  /** Each row of `a` was accepted exactly if it beat the rows before it. */
  ghost predicate DecidedInTurn(ref: Reference, rows: seq<Row>, a: Id)
    requires a in ref.startingPrice
  {
    forall i :: 0 <= i < |rows| && rows[i].bid.auctionId == a ==> BeatsEarlier(ref, rows, a, i)
  }

  ghost predicate BeatsEarlier(ref: Reference, rows: seq<Row>, a: Id, i: nat)
    requires a in ref.startingPrice && i < |rows|
  {
    rows[i].accepted <==> rows[i].bid.amount > ToBeat(ref, rows[..i], a)
  }

  /** The largest amount with a row, and of equal ones the first committed. */
  ghost predicate FirstLargest(rows: seq<Row>, a: Id, i: nat) {
    && i < |rows| && rows[i].bid.auctionId == a
    && forall j :: 0 <= j < |rows| && rows[j].bid.auctionId == a ==>
         rows[j].bid.amount < rows[i].bid.amount || (rows[j].bid.amount == rows[i].bid.amount && i <= j)
  }

  /** An amount a row does not exceed was accepted before it, or is the starting price. */
  lemma ToBeatIs(ref: Reference, rows: seq<Row>, a: Id, j: nat) returns (k: nat)
    requires a in ref.startingPrice && j < |rows|
    ensures ToBeat(ref, rows[..j], a) == ref.startingPrice[a]
            || (k < j && AcceptedFor(rows[k], a) && rows[k].bid.amount == ToBeat(ref, rows[..j], a))
  {
    k := 0;
    var h := Highest(rows[..j], a);
    if h.Some? && h.value != 0 {
      k :| 0 <= k < j && AcceptedFor(rows[..j][k], a) && rows[..j][k].bid.amount == h.value;
    }
  }

  lemma LeaderOfTable(ref: Reference, rows: seq<Row>, a: Id, i: nat)
    requires a in ref.startingPrice && DecidedInTurn(ref, rows, a) && Increasing(rows) && AboveStart(ref, rows)
    requires TopRow(rows, a, i)
    ensures FirstLargest(rows, a, i)
  {
    hide Highest, ToBeat;
    forall j | 0 <= j < |rows| && rows[j].bid.auctionId == a
      ensures rows[j].bid.amount < rows[i].bid.amount || (rows[j].bid.amount == rows[i].bid.amount && i <= j)
    {
      assert BeatsEarlier(ref, rows, a, j);
      if !rows[j].accepted { var k := ToBeatIs(ref, rows, a, j); }
    }
  }

  /** The first row of `a` above the starting price is accepted. */
  lemma NoLeaderInTable(ref: Reference, rows: seq<Row>, a: Id)
    requires a in ref.startingPrice && DecidedInTurn(ref, rows, a) && AboveStart(ref, rows)
    ensures Highest(rows, a).None?
            <==> forall j :: 0 <= j < |rows| && rows[j].bid.auctionId == a
                   ==> rows[j].bid.amount <= ref.startingPrice[a]
  {
    if Highest(rows, a).None? {
      forall j | 0 <= j < |rows| && rows[j].bid.auctionId == a ensures rows[j].bid.amount <= ref.startingPrice[a] {
        assert BeatsEarlier(ref, rows, a, j);
        var k := ToBeatIs(ref, rows, a, j);
      }
    }
  }

  /** A row above the starting price that beats every earlier row of `a`, and that none
      exceeds, leads. */
  lemma FirstLargestLeads(ref: Reference, rows: seq<Row>, a: Id, i: nat)
    requires a in ref.startingPrice && DecidedInTurn(ref, rows, a) && FirstLargest(rows, a, i)
    requires rows[i].bid.amount > ref.startingPrice[a]
    ensures TopRow(rows, a, i)
  {
    assert BeatsEarlier(ref, rows, a, i);
    var k := ToBeatIs(ref, rows, a, i);
    hide ToBeat;
    assert AcceptedFor(rows[i], a);
  }

  // ---- every run ------------------------------------------------------------------------

  /** The auction is live from beginning to end; nothing is asked of failures, of other
      auctions or of bid ids. */
  ghost predicate LiveRun(c: Config, s: State, steps: seq<Step>, a: Id) {
    Initial(s) && Executable(c, s, steps) && StatusKept(steps, a) && a in s.live && a in c.ref.startingPrice
  }

  lemma TurnStep(c: Config, t: State, x: Step, a: Id)
    requires TableInv(c, t) && Enabled(c, t, x) && ReadEverywhere(t, a, true)
    requires a in c.ref.startingPrice && DecidedInTurn(c.ref, t.rows, a)
    ensures DecidedInTurn(c.ref, Apply(c, t, x).rows, a)
  {
    var rows, rows' := t.rows, Apply(c, t, x).rows;
    forall i | 0 <= i < |rows'| && rows'[i].bid.auctionId == a ensures BeatsEarlier(c.ref, rows', a, i) {
      if i < |rows| {
        assert rows'[..i] == rows[..i] && BeatsEarlier(c.ref, rows, a, i);
      } else {
        assert rows'[..i] == rows;
        assert FlightInv(c, t, x.p) && Read(t.parts[x.p], a, true);
      }
    }
  }

  lemma {:induction false} RunDecidesInTurn(c: Config, s: State, steps: seq<Step>, a: Id)
    requires LiveRun(c, s, steps, a)
    ensures DecidedInTurn(c.ref, Exec(c, s, steps).rows, a)
  {
    if steps != [] {
      var front := steps[..|steps| - 1];
      RunDecidesInTurn(c, s, front, a);
      RunKeepsInv(c, s, front);
      StatusRead(c, s, front, a);
      hide TableInv, LogInv, Apply, DecidedInTurn, ReadEverywhere, Enabled;
      TurnStep(c, Exec(c, s, front), steps[|steps| - 1], a);
    }
  }

  /** In every run, whatever is passed over or decided late, the leader of an auction live
      throughout is the largest bid that has a row, the first committed on a tie; and there
      is none exactly when no row exceeds the starting price. */
  lemma {:induction false} LeaderIsFirstLargest(c: Config, s: State, steps: seq<Step>, a: Id)
    requires LiveRun(c, s, steps, a)
    ensures var rows := Exec(c, s, steps).rows;
            && (forall i: nat :: TopRow(rows, a, i) ==> FirstLargest(rows, a, i))
            && (Highest(rows, a).None?
                <==> forall j :: 0 <= j < |rows| && rows[j].bid.auctionId == a
                       ==> rows[j].bid.amount <= c.ref.startingPrice[a])
  {
    var rows := Exec(c, s, steps).rows;
    RunDecidesInTurn(c, s, steps, a);
    RunKeepsInv(c, s, steps);
    hide DecidedInTurn, FirstLargest, Increasing, AboveStart, LogInv, Highest;
    forall i: nat | TopRow(rows, a, i) ensures FirstLargest(rows, a, i) { LeaderOfTable(c.ref, rows, a, i); }
    NoLeaderInTable(c.ref, rows, a);
  }

  // ---- against the log --------------------------------------------------------------------

  /** No other message of the log carries an id of a bid on `a`, as with a fresh id each. */
  ghost predicate IdsOnce(log: seq<Message>, a: Id) {
    forall m, n :: 0 <= m < |log| && 0 <= n < |log| && m != n && About(log[m], a) && Deliver(log[n]).Decidable?
      ==> Deliver(log[m]).bid.id != Deliver(log[n]).bid.id
  }

  /** Rows lie below what their partition has reached. */
  ghost predicate RowsReached(t: State) {
    forall i :: 0 <= i < |t.rows| && t.rows[i].partition < |t.parts|
      ==> t.rows[i].offset < t.parts[t.rows[i].partition].reached
  }

  lemma RowsReachedStep(c: Config, t: State, x: Step)
    requires Enabled(c, t, x) && RowsReached(t)
    ensures RowsReached(Apply(c, t, x))
  {
    var t' := Apply(c, t, x);
    forall i | 0 <= i < |t'.rows| && t'.rows[i].partition < |t'.parts|
      ensures t'.rows[i].offset < t'.parts[t'.rows[i].partition].reached
    {
      assert t'.parts[t'.rows[i].partition] == PartAfter(c, t, x, t'.rows[i].partition);
    }
  }

  lemma {:induction false} RunReaches(c: Config, s: State, steps: seq<Step>)
    requires Initial(s) && Executable(c, s, steps)
    ensures RowsReached(Exec(c, s, steps))
  {
    if steps != [] {
      RunReaches(c, s, steps[..|steps| - 1]);
      hide Enabled, RowsReached, Apply;
      RowsReachedStep(c, Exec(c, s, steps[..|steps| - 1]), steps[|steps| - 1]);
    }
  }

  /** A row of `a` above the starting price is a bid that counts in the settled log. */
  lemma RowCounts(c: Config, t: State, a: Id, i: nat)
    requires LogInv(c, t) && TableInv(c, t) && RowsReached(t) && IdsOnce(SettledLog(c, t, a), a)
    requires i < |t.rows| && t.rows[i].bid.auctionId == a && a in c.ref.startingPrice
    ensures var r, log := t.rows[i], SettledLog(c, t, a);
            && r.partition == c.route(a) && r.offset < |log| && Deliver(log[r.offset]) == Decidable(r.bid)
            && (r.bid.amount > c.ref.startingPrice[a] ==> Counts(c.ref, a, log, r.offset))
  {
    assert RowInv(c, t, t.rows[i]);
    assert PartitionInv(t.parts[t.rows[i].partition]);
    assert About(SettledLog(c, t, a)[t.rows[i].offset], a);
  }

  /** In the table the winner's row comes before every other one of `a` as large. */
  ghost predicate WinnerFirst(rows: seq<Row>, a: Id, o: nat) {
    exists i: nat :: i < |rows| && rows[i].bid.auctionId == a && rows[i].offset == o
                     && forall j :: 0 <= j < i && rows[j].bid.auctionId == a ==> rows[j].bid.amount < rows[i].bid.amount
  }

  ghost predicate Leads(rows: seq<Row>, a: Id, o: nat) {
    exists i: nat :: TopRow(rows, a, i) && rows[i].offset == o
  }

  lemma LeaderInTable(c: Config, t: State, a: Id, o: nat)
    requires LogInv(c, t) && TableInv(c, t) && RowsReached(t) && a in c.ref.startingPrice
    requires DecidedInTurn(c.ref, t.rows, a)
    requires IdsOnce(SettledLog(c, t, a), a) && Wins(c.ref, a, SettledLog(c, t, a), o)
    ensures Leads(t.rows, a, o) <==> WinnerFirst(t.rows, a, o)
  {
    var rows, log := t.rows, SettledLog(c, t, a);
    assert Increasing(rows) && AboveStart(c.ref, rows);
    if Leads(rows, a, o) {
      var i: nat :| TopRow(rows, a, i) && rows[i].offset == o;
      LeaderOfTable(c.ref, rows, a, i);
      hide *;
      assert WinnerFirst(rows, a, o) by { LargestIsFirst(rows, a, i); }
    }
    if WinnerFirst(rows, a, o) { WinnerLeads(c, t, a, o); }
  }

  lemma LargestIsFirst(rows: seq<Row>, a: Id, i: nat)
    requires FirstLargest(rows, a, i)
    ensures WinnerFirst(rows, a, rows[i].offset)
  {
  }

  lemma WinnerLeads(c: Config, t: State, a: Id, o: nat)
    requires LogInv(c, t) && TableInv(c, t) && RowsReached(t) && a in c.ref.startingPrice
    requires DecidedInTurn(c.ref, t.rows, a)
    requires IdsOnce(SettledLog(c, t, a), a) && Wins(c.ref, a, SettledLog(c, t, a), o) && WinnerFirst(t.rows, a, o)
    ensures Leads(t.rows, a, o)
  {
    var rows, log := t.rows, SettledLog(c, t, a);
    var i: nat :| i < |rows| && rows[i].bid.auctionId == a && rows[i].offset == o
                  && forall j :: 0 <= j < i && rows[j].bid.auctionId == a ==> rows[j].bid.amount < rows[i].bid.amount;
    RowCounts(c, t, a, i);
    hide LogInv, TableInv, Counts, DecidedInTurn, RowsReached, IdsOnce, SettledLog;
    WinnerCounts(c.ref, a, log, o);
    forall j | 0 <= j < |rows| && rows[j].bid.auctionId == a
      ensures rows[j].bid.amount < rows[i].bid.amount || (rows[j].bid.amount == rows[i].bid.amount && i <= j)
    {
      RowCounts(c, t, a, j);
    }
    FirstLargestLeads(c.ref, rows, a, i);
  }

  lemma WinnerCounts(ref: Reference, a: Id, log: seq<Message>, o: nat)
    requires Wins(ref, a, log, o)
    ensures Counts(ref, a, log, o) && a in ref.startingPrice && AmountAt(log, o) > ref.startingPrice[a]
  {
  }

  // ---- as a condition on the run ----------------------------------------------------------

  /** Step `m` commits the row of a bid on `a`. */
  ghost predicate StoresFor(c: Config, s: State, steps: seq<Step>, a: Id, m: nat)
    requires Executable(c, s, steps)
  {
    m < |steps| && steps[m] == StoreRow(c.route(a)) && FlightAt(c, s, steps, a, m).bid.auctionId == a
  }

  /** What the partition of `a` has in flight there. */
  ghost function FlightAt(c: Config, s: State, steps: seq<Step>, a: Id, m: nat): Flight
    requires Executable(c, s, steps) && m < |steps|
  {
    var t := StateAt(c, s, steps, m);
    if c.route(a) < |t.parts| && t.parts[c.route(a)].stage.Judged? then t.parts[c.route(a)].stage.flight
    else Flight(0, Bid(0, 0, 0, 0), false, NotLive)
  }

  /** The winner's row was committed, and before that of any other bid on `a` as large. */
  ghost predicate StoredFirst(c: Config, s: State, steps: seq<Step>, a: Id, o: nat)
    requires Executable(c, s, steps)
  {
    exists m :: StoresFor(c, s, steps, a, m) && FlightAt(c, s, steps, a, m).offset == o && BeforeAll(c, s, steps, a, m)
  }

  ghost predicate BeforeAll(c: Config, s: State, steps: seq<Step>, a: Id, m: nat)
    requires Executable(c, s, steps) && m < |steps|
  {
    forall n :: 0 <= n < m && StoresFor(c, s, steps, a, n)
      ==> FlightAt(c, s, steps, a, n).bid.amount < FlightAt(c, s, steps, a, m).bid.amount
  }

  /** The row a step commits is the next of the table. */
  lemma StepRow(c: Config, s: State, steps: seq<Step>, a: Id, m: nat)
    requires Initial(s) && Executable(c, s, steps) && StoresFor(c, s, steps, a, m)
    ensures var i, f := |StateAt(c, s, steps, m).rows|, FlightAt(c, s, steps, a, m);
            && i < |StateAt(c, s, steps, m + 1).rows| <= |Exec(c, s, steps).rows|
            && Exec(c, s, steps).rows[i] == RowOf(c.route(a), f)
  {
    Next(c, s, steps, m);
    RowsLater(c, s, steps, m + 1, |steps|);
    assert steps[..|steps|] == steps;
  }

  /** The step that committed a row of `a`. */
  lemma {:induction false} RowStep(c: Config, s: State, steps: seq<Step>, a: Id, i: nat, n: nat) returns (m: nat)
    requires Initial(s) && Executable(c, s, steps) && n <= |steps| && i < |StateAt(c, s, steps, n).rows|
    requires StateAt(c, s, steps, n).rows[i].bid.auctionId == a
    ensures m < n && StoresFor(c, s, steps, a, m) && |StateAt(c, s, steps, m).rows| == i
    decreases n
  {
    assert n > 0 by { NoRowsAtFirst(c, s, steps); }
    hide Initial, Executable, Exec;
    Next(c, s, steps, n - 1);
    var t := StateAt(c, s, steps, n - 1);
    InvAt(c, s, steps, n - 1);
    hide StateAt;
    if i < |t.rows| {
      RowsGrow(c, t, steps[n - 1]);
      m := RowStep(c, s, steps, a, i, n - 1);
    } else {
      m := n - 1;
      StoredOnOwnPartition(c, t, steps[m], a, i);
    }
  }

  lemma StoredOnOwnPartition(c: Config, t: State, x: Step, a: Id, i: nat)
    requires LogInv(c, t) && Enabled(c, t, x) && |t.rows| <= i < |Apply(c, t, x).rows|
    requires Apply(c, t, x).rows[i].bid.auctionId == a
    ensures x == StoreRow(c.route(a)) && i == |t.rows| && t.parts[c.route(a)].stage.flight.bid.auctionId == a
  {
    assert PartitionInv(t.parts[x.p]);
    var f := t.parts[x.p].stage.flight;
    assert Logged(t, x.p, f.offset, f.bid);
  }

  lemma EarlierStepEarlierRow(c: Config, s: State, steps: seq<Step>, a: Id, n: nat, m: nat)
    requires Initial(s) && Executable(c, s, steps) && n < m && StoresFor(c, s, steps, a, n) && m <= |steps|
    ensures |StateAt(c, s, steps, n).rows| < |StateAt(c, s, steps, m).rows|
  {
    StepRow(c, s, steps, a, n);
    RowsLater(c, s, steps, n + 1, m);
  }

  lemma FirstInRunIsFirstInTable(c: Config, s: State, steps: seq<Step>, a: Id, o: nat)
    requires Initial(s) && Executable(c, s, steps)
    ensures StoredFirst(c, s, steps, a, o) <==> WinnerFirst(Exec(c, s, steps).rows, a, o)
  {
    hide WinnerFirst, BeforeAll, FlightAt, Exec, Executable, Initial;
    if StoredFirst(c, s, steps, a, o) {
      var m :| StoresFor(c, s, steps, a, m) && FlightAt(c, s, steps, a, m).offset == o && BeforeAll(c, s, steps, a, m);
      RunToTable(c, s, steps, a, m);
    }
    if WinnerFirst(Exec(c, s, steps).rows, a, o) { TableToRun(c, s, steps, a, o); }
  }

  lemma RunToTable(c: Config, s: State, steps: seq<Step>, a: Id, m: nat)
    requires Initial(s) && Executable(c, s, steps) && StoresFor(c, s, steps, a, m) && BeforeAll(c, s, steps, a, m)
    ensures WinnerFirst(Exec(c, s, steps).rows, a, FlightAt(c, s, steps, a, m).offset)
  {
    hide StateAt, Exec, Executable, Initial, StoresFor, FlightAt, BeforeAll;
    var rows := Exec(c, s, steps).rows;
    StepRow(c, s, steps, a, m);
    StoresForIt(c, s, steps, a, m);
    var i := |StateAt(c, s, steps, m).rows|;
    forall j | 0 <= j < i && rows[j].bid.auctionId == a ensures rows[j].bid.amount < rows[i].bid.amount {
      SmallerBefore(c, s, steps, a, m, j);
    }
  }

  lemma TableToRun(c: Config, s: State, steps: seq<Step>, a: Id, o: nat)
    requires Initial(s) && Executable(c, s, steps) && WinnerFirst(Exec(c, s, steps).rows, a, o)
    ensures StoredFirst(c, s, steps, a, o)
  {
    assert steps[..|steps|] == steps;
    assert StateAt(c, s, steps, |steps|) == Exec(c, s, steps);
    hide StateAt, Exec, Executable, Initial, StoresFor, FlightAt;
    var rows := Exec(c, s, steps).rows;
    var i: nat :| i < |rows| && rows[i].bid.auctionId == a && rows[i].offset == o
                  && forall j :: 0 <= j < i && rows[j].bid.auctionId == a ==> rows[j].bid.amount < rows[i].bid.amount;
    var m := RowStep(c, s, steps, a, i, |steps|);
    StepRow(c, s, steps, a, m);
    StoresForIt(c, s, steps, a, m);
    forall n | 0 <= n < m && StoresFor(c, s, steps, a, n)
      ensures FlightAt(c, s, steps, a, n).bid.amount < FlightAt(c, s, steps, a, m).bid.amount
    {
      StepRow(c, s, steps, a, n);
      StoresForIt(c, s, steps, a, n);
      EarlierStepEarlierRow(c, s, steps, a, n, m);
    }
    assert BeforeAll(c, s, steps, a, m);
  }

  lemma StoresForIt(c: Config, s: State, steps: seq<Step>, a: Id, m: nat)
    requires Executable(c, s, steps) && StoresFor(c, s, steps, a, m)
    ensures m < |steps| && FlightAt(c, s, steps, a, m).bid.auctionId == a
  {
  }

  lemma SmallerBefore(c: Config, s: State, steps: seq<Step>, a: Id, m: nat, j: nat)
    requires Initial(s) && Executable(c, s, steps) && StoresFor(c, s, steps, a, m) && BeforeAll(c, s, steps, a, m)
    requires j < |StateAt(c, s, steps, m).rows| && j < |Exec(c, s, steps).rows|
    requires Exec(c, s, steps).rows[j].bid.auctionId == a
    ensures Exec(c, s, steps).rows[j].bid.amount < FlightAt(c, s, steps, a, m).bid.amount
  {
    assert steps[..|steps|] == steps;
    RowsLater(c, s, steps, m, |steps|);
    hide StateAt, Exec, Executable, Initial, StoresFor, FlightAt;
    var n := RowStep(c, s, steps, a, j, m);
    StepRow(c, s, steps, a, n);
  }

  /** The log's winner leads, in any run, exactly when its row was committed before that of
      every other bid on the auction as large: when it was neither lost nor overtaken. */
  lemma {:induction false} WinnerLeadsExactlyWhen(c: Config, s: State, steps: seq<Step>, a: Id, o: nat)
    requires LiveRun(c, s, steps, a) && IdsOnce(SettledLog(c, Exec(c, s, steps), a), a)
    requires Wins(c.ref, a, SettledLog(c, Exec(c, s, steps), a), o)
    ensures Leads(Exec(c, s, steps).rows, a, o) <==> StoredFirst(c, s, steps, a, o)
  {
    RunDecidesInTurn(c, s, steps, a);
    RunKeepsInv(c, s, steps);
    RunReaches(c, s, steps);
    FirstInRunIsFirstInTable(c, s, steps, a, o);
    hide LogInv, TableInv, DecidedInTurn, RowsReached, IdsOnce, Wins, Leads, StoredFirst, WinnerFirst, SettledLog;
    LeaderInTable(c, Exec(c, s, steps), a, o);
  }

  /** The auction has no leader exactly when no row above its starting price was committed,
      and never has one that the log does not count. */
  lemma {:induction false} NoLeaderExactlyWhen(c: Config, s: State, steps: seq<Step>, a: Id)
    requires LiveRun(c, s, steps, a) && IdsOnce(SettledLog(c, Exec(c, s, steps), a), a)
    ensures Highest(Exec(c, s, steps).rows, a).None?
            <==> forall m :: StoresFor(c, s, steps, a, m)
                   ==> FlightAt(c, s, steps, a, m).bid.amount <= c.ref.startingPrice[a]
    ensures forall i: nat :: TopRow(Exec(c, s, steps).rows, a, i) ==>
              Counts(c.ref, a, SettledLog(c, Exec(c, s, steps), a), Exec(c, s, steps).rows[i].offset)
  {
    var t := Exec(c, s, steps);
    assert steps[..|steps|] == steps;
    assert StateAt(c, s, steps, |steps|) == t;
    LeaderIsFirstLargest(c, s, steps, a);
    RunKeepsInv(c, s, steps);
    RunReaches(c, s, steps);
    assert AboveStart(c.ref, t.rows);
    forall i: nat | TopRow(t.rows, a, i)
      ensures Counts(c.ref, a, SettledLog(c, t, a), t.rows[i].offset)
    {
      RowCounts(c, t, a, i);
    }
    hide LogInv, TableInv, RowsReached, IdsOnce, StateAt, StoresFor, FlightAt, Highest, Counts, SettledLog;
    forall m | StoresFor(c, s, steps, a, m)
      ensures Highest(t.rows, a).None? ==> FlightAt(c, s, steps, a, m).bid.amount <= c.ref.startingPrice[a]
    {
      StepRow(c, s, steps, a, m);
      StoresForIt(c, s, steps, a, m);
    }
    forall j: nat | j < |t.rows| && t.rows[j].bid.auctionId == a
      ensures exists m :: StoresFor(c, s, steps, a, m) && FlightAt(c, s, steps, a, m).bid.amount == t.rows[j].bid.amount
    {
      var m := RowStep(c, s, steps, a, j, |steps|);
      StepRow(c, s, steps, a, m);
    }
  }
}
