/** One auction's outcomes depend on its own messages and status only. */
module BidProjection {
  import opened Options
  import opened BidDomain
  import opened SequentialBids

  /** What bidders see of a row: the bid and whether it was accepted. */
  datatype Outcome = Outcome(bid: Bid, accepted: bool)

  function OutcomesOf(rows: seq<Row>, a: Id): seq<Outcome> {
    if rows == [] then []
    else
      var r := rows[|rows| - 1];
      var front := OutcomesOf(rows[..|rows| - 1], a);
      if r.bid.auctionId == a then front + [Outcome(r.bid, r.accepted)] else front
  }

  predicate About(m: Message, a: Id) {
    Deliver(m).Decidable? && Deliver(m).bid.auctionId == a
  }

  /** The auction's own sub-log. */
  function SubLog(log: seq<Message>, a: Id): seq<Message> {
    if log == [] then []
    else
      var front := SubLog(log[..|log| - 1], a);
      if About(log[|log| - 1], a) then front + [log[|log| - 1]] else front
  }

  /** No bid id of auction `a` is used by another auction's message. */
  ghost predicate OwnIds(log: seq<Message>, a: Id) {
    forall m, n ::
      0 <= m < |log| && 0 <= n < |log| && About(log[m], a) && Deliver(log[n]).Decidable? && !About(log[n], a)
      ==> Deliver(log[m]).bid.id != Deliver(log[n]).bid.id
  }

  /** The two settings treat auction `a` alike. */
  ghost predicate SameAuction(a: Id, ref: Reference, live: set<Id>, ref': Reference, live': set<Id>) {
    && (a in live <==> a in live') && ref.users == ref'.users
    && (a in ref.startingPrice <==> a in ref'.startingPrice)
    && (a in ref.startingPrice ==> ref.startingPrice[a] == ref'.startingPrice[a])
  }

  function HighestOutcome(os: seq<Outcome>): Option<int> {
    if os == [] then None
    else
      var h := HighestOutcome(os[..|os| - 1]);
      var o := os[|os| - 1];
      if o.accepted && (h.None? || h.value < o.bid.amount) then Some(o.bid.amount) else h
  }

  lemma {:induction false} HighestFromOutcomes(rows: seq<Row>, a: Id)
    ensures Highest(rows, a) == HighestOutcome(OutcomesOf(rows, a))
  {
    if rows != [] {
      var front := rows[..|rows| - 1];
      HighestFromOutcomes(front, a);
      var os := OutcomesOf(rows, a);
      if rows[|rows| - 1].bid.auctionId == a { assert os[..|os| - 1] == OutcomesOf(front, a); }
    }
  }

  ghost predicate HasOutcome(os: seq<Outcome>, id: Id) {
    exists i :: 0 <= i < |os| && os[i].bid.id == id
  }

  lemma {:induction false} OutcomeIds(rows: seq<Row>, a: Id, id: Id)
    ensures HasOutcome(OutcomesOf(rows, a), id)
            <==> exists i :: 0 <= i < |rows| && rows[i].bid.auctionId == a && rows[i].bid.id == id
  {
    if rows != [] {
      var front, r := rows[..|rows| - 1], rows[|rows| - 1];
      OutcomeIds(front, a, id);
      var os, os' := OutcomesOf(front, a), OutcomesOf(rows, a);
      assert forall i :: 0 <= i < |os| ==> os'[i] == os[i];
      if r.bid.auctionId == a { assert os'[|os|].bid == r.bid; }
    }
  }

  lemma AppendOutcome(rows: seq<Row>, r: Row, a: Id)
    ensures OutcomesOf(rows + [r], a) ==
            if r.bid.auctionId == a then OutcomesOf(rows, a) + [Outcome(r.bid, r.accepted)] else OutcomesOf(rows, a)
  {
  }

  /** Where ids do not clash across auctions, a refusal depends on the auction's own rows. */
  ghost predicate RefusedOwn(ref: Reference, os: seq<Outcome>, b: Bid) {
    b.amount <= 0 || b.auctionId !in ref.startingPrice || b.bidderId !in ref.users || HasOutcome(os, b.id)
  }

  lemma RefusalIsOwn(ref: Reference, live: set<Id>, p: nat, log: seq<Message>, a: Id)
    requires log != [] && About(log[|log| - 1], a) && OwnIds(log, a)
    ensures var rows := Fold(ref, live, p, log[..|log| - 1]);
            var b := Deliver(log[|log| - 1]).bid;
            Refusable(ref, rows, b) <==> RefusedOwn(ref, OutcomesOf(rows, a), b)
  {
    var front := log[..|log| - 1];
    var rows := Fold(ref, live, p, front);
    var b := Deliver(log[|log| - 1]).bid;
    OutcomeIds(rows, a, b.id);
    FoldStoresFirstStorable(ref, live, p, front);
    forall i | 0 <= i < |rows| && rows[i].bid.id == b.id ensures rows[i].bid.auctionId == a {
      assert StoresFirst(ref, front, p, rows[i]);
      assert log[rows[i].offset] == front[rows[i].offset];
    }
  }

  lemma StepOutcome(ref: Reference, live: set<Id>, p: nat, log: seq<Message>, a: Id)
    requires log != [] && OwnIds(log, a)
    ensures var m := log[|log| - 1];
            var os := OutcomesOf(Fold(ref, live, p, log[..|log| - 1]), a);
            OutcomesOf(Fold(ref, live, p, log), a) ==
              if About(m, a) && !RefusedOwn(ref, os, Deliver(m).bid)
              then os + [Outcome(Deliver(m).bid, BeatsOwn(ref, live, os, Deliver(m).bid))]
              else os
  {
    var m := log[|log| - 1];
    var rows, rows' := Fold(ref, live, p, log[..|log| - 1]), Fold(ref, live, p, log);
    if About(m, a) { RefusalIsOwn(ref, live, p, log, a); }
    HighestFromOutcomes(rows, a);
    if rows' != rows { AppendOutcome(rows, rows'[|rows|], a); }
  }

  /** The decision rule on an auction's own outcomes. */
  ghost predicate BeatsOwn(ref: Reference, live: set<Id>, os: seq<Outcome>, b: Bid) {
    && b.auctionId in live && b.auctionId in ref.startingPrice
    && var h := HighestOutcome(os);
       b.amount > if h.Some? && h.value != 0 then h.value else ref.startingPrice[b.auctionId]
  }

  lemma OwnIdsFront(log: seq<Message>, a: Id)
    requires log != [] && OwnIds(log, a)
    ensures OwnIds(log[..|log| - 1], a)
  {
  }

  lemma {:induction false} SubLogIsAbout(log: seq<Message>, a: Id)
    ensures forall n :: 0 <= n < |SubLog(log, a)| ==> About(SubLog(log, a)[n], a)
  {
    if log != [] { SubLogIsAbout(log[..|log| - 1], a); }
  }

  /** The outcomes of `a` are those of a partition that holds only its sub-log. */
  lemma {:induction false} OutcomesOfSubLog(ref: Reference, live: set<Id>, p: nat, log: seq<Message>, a: Id,
                                            ref': Reference, live': set<Id>, p': nat)
    requires OwnIds(log, a) && SameAuction(a, ref, live, ref', live')
    ensures OutcomesOf(Fold(ref, live, p, log), a) == OutcomesOf(Fold(ref', live', p', SubLog(log, a)), a)
  {
    if log != [] {
      var front, m := log[..|log| - 1], log[|log| - 1];
      OwnIdsFront(log, a);
      OutcomesOfSubLog(ref, live, p, front, a, ref', live', p');
      StepOutcome(ref, live, p, log, a);
      if About(m, a) {
        var sub := SubLog(log, a);
        SubLogIsAbout(log, a);
        assert sub[..|sub| - 1] == SubLog(front, a);
        StepOutcome(ref', live', p', sub, a);
      }
    }
  }

  /** Two logs with the same messages about `a` give it the same outcomes, whatever
      other auctions they carry and however the messages are interleaved. */
  lemma OutcomesDependOnOwnMessages(ref: Reference, live: set<Id>, p: nat, log: seq<Message>,
                                    ref': Reference, live': set<Id>, p': nat, log': seq<Message>, a: Id)
    requires OwnIds(log, a) && OwnIds(log', a) && SubLog(log, a) == SubLog(log', a)
    requires SameAuction(a, ref, live, ref', live')
    ensures OutcomesOf(Fold(ref, live, p, log), a) == OutcomesOf(Fold(ref', live', p', log'), a)
  {
    OutcomesOfSubLog(ref, live, p, log, a, ref', live', p');
    OutcomesOfSubLog(ref', live', p', log', a, ref', live', p');
  }

  // ---- part of a table ------------------------------------------------------------------

  function RowsOf(rows: seq<Row>, p: nat): seq<Row> {
    if rows == [] then []
    else
      var front := RowsOf(rows[..|rows| - 1], p);
      if rows[|rows| - 1].partition == p then front + [rows[|rows| - 1]] else front
  }

  function RowsFor(rows: seq<Row>, a: Id): seq<Row> {
    if rows == [] then []
    else
      var front := RowsFor(rows[..|rows| - 1], a);
      if rows[|rows| - 1].bid.auctionId == a then front + [rows[|rows| - 1]] else front
  }

  lemma AppendRowOf(rows: seq<Row>, r: Row, p: nat)
    ensures RowsOf(rows + [r], p) == if r.partition == p then RowsOf(rows, p) + [r] else RowsOf(rows, p)
  {
  }

  lemma AppendRowFor(rows: seq<Row>, r: Row, a: Id)
    ensures RowsFor(rows + [r], a) == if r.bid.auctionId == a then RowsFor(rows, a) + [r] else RowsFor(rows, a)
  {
    assert (rows + [r])[..|rows|] == rows;
  }

  lemma {:induction false} HighestInPartition(rows: seq<Row>, p: nat, a: Id)
    requires forall i :: 0 <= i < |rows| && rows[i].bid.auctionId == a ==> rows[i].partition == p
    ensures Highest(RowsOf(rows, p), a) == Highest(rows, a)
  {
    if rows != [] {
      var front, r := rows[..|rows| - 1], rows[|rows| - 1];
      HighestInPartition(front, p, a);
      if r.partition == p { AppendRow(RowsOf(front, p), r, a); }
    }
  }

  lemma {:induction false} IdsInPartition(rows: seq<Row>, p: nat, id: Id)
    ensures HasId(RowsOf(rows, p), id)
            <==> exists i :: 0 <= i < |rows| && rows[i].partition == p && rows[i].bid.id == id
  {
    if rows != [] {
      var front, r := rows[..|rows| - 1], rows[|rows| - 1];
      IdsInPartition(front, p, id);
      if r.partition == p { HasIdStep(RowsOf(front, p), r, id); }
      assert forall i :: 0 <= i < |front| ==> front[i] == rows[i];
    }
  }

  /** Deciding and refusing against the whole table is deciding and refusing against one
      partition's rows, where the auction's rows and the bid id's are in that partition. */
  lemma {:induction false} PartitionDecidesAlone(ref: Reference, live: set<Id>, rows: seq<Row>, p: nat, b: Bid)
    requires forall i :: 0 <= i < |rows| && (rows[i].bid.auctionId == b.auctionId || rows[i].bid.id == b.id)
               ==> rows[i].partition == p
    ensures Judge(ref, live, RowsOf(rows, p), b) == Judge(ref, live, rows, b)
    ensures Refusable(ref, RowsOf(rows, p), b) <==> Refusable(ref, rows, b)
  {
    HighestInPartition(rows, p, b.auctionId);
    IdsInPartition(rows, p, b.id);
    assert HasId(RowsOf(rows, p), b.id) <==> HasId(rows, b.id);
  }

  lemma {:induction false} HighestFor(rows: seq<Row>, a: Id)
    ensures Highest(RowsFor(rows, a), a) == Highest(rows, a)
  {
    if rows != [] {
      var front, r := rows[..|rows| - 1], rows[|rows| - 1];
      HighestFor(front, a);
      if r.bid.auctionId == a { AppendRow(RowsFor(front, a), r, a); }
    }
  }

  lemma {:induction false} IdsFor(rows: seq<Row>, a: Id, id: Id)
    ensures HasId(RowsFor(rows, a), id)
            <==> exists i :: 0 <= i < |rows| && rows[i].bid.auctionId == a && rows[i].bid.id == id
  {
    if rows != [] {
      var front, r := rows[..|rows| - 1], rows[|rows| - 1];
      IdsFor(front, a, id);
      if r.bid.auctionId == a { HasIdStep(RowsFor(front, a), r, id); }
      assert forall i :: 0 <= i < |front| ==> front[i] == rows[i];
    }
  }

  lemma {:induction false} OutcomesFor(rows: seq<Row>, a: Id)
    ensures OutcomesOf(RowsFor(rows, a), a) == OutcomesOf(rows, a)
  {
    if rows != [] {
      var front, r := rows[..|rows| - 1], rows[|rows| - 1];
      OutcomesFor(front, a);
      if r.bid.auctionId == a { AppendOutcome(RowsFor(front, a), r, a); }
    }
  }

  lemma {:induction false} InRowsFor(rows: seq<Row>, a: Id, r: Row)
    ensures r in RowsFor(rows, a) <==> r in rows && r.bid.auctionId == a
  {
    if rows != [] {
      var front := rows[..|rows| - 1];
      InRowsFor(front, a, r);
      assert rows == front + [rows[|rows| - 1]];
    }
  }
}
