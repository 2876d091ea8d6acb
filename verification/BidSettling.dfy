/** The whole table as one fold over the messages of all partitions, in the order they were
    settled, and what that fold looks like from one partition and from one auction. */
module BidSettling {
  import opened BidDomain
  import opened SequentialBids
  import opened BidProjection

  /** A settled message, with the status its auction had when the decision read it. */
  datatype Entry = Entry(partition: nat, offset: nat, message: Message, live: bool)

  ghost function SettleEntry(ref: Reference, rows: seq<Row>, e: Entry): seq<Row> {
    match Deliver(e.message)
    case Decidable(b) =>
      if Refusable(ref, rows, b) then rows
      else rows + [Row(b, Judge(ref, SeenLive(b, e.live), rows, b).Accepted?, e.partition, e.offset)]
    case _ => rows
  }

  ghost function SettleAll(ref: Reference, es: seq<Entry>): seq<Row> {
    if es == [] then [] else SettleEntry(ref, SettleAll(ref, es[..|es| - 1]), es[|es| - 1])
  }

  function MessagesOf(es: seq<Entry>, p: nat): seq<Message> {
    if es == [] then []
    else
      var front := MessagesOf(es[..|es| - 1], p);
      if es[|es| - 1].partition == p then front + [es[|es| - 1].message] else front
  }

  /** Each partition's messages are settled from offset zero on, none left out. */
  ghost predicate InOffsetOrder(es: seq<Entry>) {
    es != [] ==>
      && InOffsetOrder(es[..|es| - 1])
      && es[|es| - 1].offset == |MessagesOf(es[..|es| - 1], es[|es| - 1].partition)|
  }

  /** Every row's bid was delivered by an entry. */
  ghost predicate BidsFrom(es: seq<Entry>, rows: seq<Row>) {
    forall i :: 0 <= i < |rows| ==> DeliveredBy(es, rows[i].bid)
  }

  ghost predicate DeliveredBy(es: seq<Entry>, b: Bid) {
    exists k :: 0 <= k < |es| && Deliver(es[k].message) == Decidable(b)
  }

  lemma DeliveredLater(es: seq<Entry>, b: Bid)
    requires es != [] && (DeliveredBy(es[..|es| - 1], b) || Deliver(es[|es| - 1].message) == Decidable(b))
    ensures DeliveredBy(es, b)
  {
    var front := es[..|es| - 1];
    if DeliveredBy(front, b) {
      var k :| 0 <= k < |front| && Deliver(front[k].message) == Decidable(b);
      assert es[k] == front[k];
    }
  }

  lemma {:induction false} RowsAreDelivered(ref: Reference, live: set<Id>, p: nat, es: seq<Entry>)
    ensures BidsFrom(es, SettleAll(ref, es)) && BidsFrom(es, Fold(ref, live, p, MessagesOf(es, p)))
  {
    hide Judge, Refusable, DeliveredBy;
    if es != [] {
      var front, e := es[..|es| - 1], es[|es| - 1];
      RowsAreDelivered(ref, live, p, front);
      if e.partition == p { assert MessagesOf(es, p)[..|MessagesOf(front, p)|] == MessagesOf(front, p); }
      forall b | DeliveredBy(front, b) || Deliver(e.message) == Decidable(b) ensures DeliveredBy(es, b) {
        DeliveredLater(es, b);
      }
    }
  }

  /** The fold of a partition's messages, one entry later. */
  lemma FoldNext(ref: Reference, live: set<Id>, p: nat, es: seq<Entry>)
    requires es != [] && InOffsetOrder(es)
    ensures var front, e := es[..|es| - 1], es[|es| - 1];
            Fold(ref, live, p, MessagesOf(es, p)) ==
              if e.partition == p
                then FoldStep(ref, live, p, Fold(ref, live, p, MessagesOf(front, p)), e.offset, e.message)
              else Fold(ref, live, p, MessagesOf(front, p))
  {
    var front := es[..|es| - 1];
    if es[|es| - 1].partition == p { assert MessagesOf(es, p)[..|MessagesOf(front, p)|] == MessagesOf(front, p); }
  }

  // ---- as one partition sees it -------------------------------------------------------

  /** Two bids on one auction or under one id. */
  predicate Akin(m: Message, n: Message) {
    && Deliver(m).Decidable? && Deliver(n).Decidable?
    && (Deliver(m).bid.auctionId == Deliver(n).bid.auctionId || Deliver(m).bid.id == Deliver(n).bid.id)
  }

  /** Messages that are akin share the partition. */
  ghost predicate Separate(es: seq<Entry>) {
    forall j, k :: 0 <= j < |es| && 0 <= k < |es| && Akin(es[j].message, es[k].message)
      ==> es[j].partition == es[k].partition
  }

  ghost predicate StatusesAre(es: seq<Entry>, live: set<Id>) {
    forall k, b :: 0 <= k < |es| && Deliver(es[k].message) == Decidable(b) ==> es[k].live == (b.auctionId in live)
  }

  lemma FrontSeparate(es: seq<Entry>, live: set<Id>)
    requires es != [] && Separate(es) && StatusesAre(es, live)
    ensures Separate(es[..|es| - 1]) && StatusesAre(es[..|es| - 1], live)
  {
    var front := es[..|es| - 1];
    assert forall k :: 0 <= k < |front| ==> front[k] == es[k];
  }

  lemma {:induction false} RowsFromPartitions(ref: Reference, es: seq<Entry>, i: nat) returns (k: nat)
    requires i < |SettleAll(ref, es)|
    ensures k < |es| && Deliver(es[k].message) == Decidable(SettleAll(ref, es)[i].bid)
    ensures SettleAll(ref, es)[i].partition == es[k].partition
  {
    hide Judge, Refusable;
    var front := es[..|es| - 1];
    if i < |SettleAll(ref, front)| {
      k := RowsFromPartitions(ref, front, i);
    } else {
      k := |front|;
    }
  }

  /** With the statuses as they are and ids and auctions kept apart, the rows of a partition
      are what a reader of that partition alone would store. */
  lemma {:induction false} SettlingOnePartition(ref: Reference, live: set<Id>, p: nat, es: seq<Entry>)
    requires InOffsetOrder(es) && Separate(es) && StatusesAre(es, live)
    ensures RowsOf(SettleAll(ref, es), p) == Fold(ref, live, p, MessagesOf(es, p))
  {
    if es != [] {
      var front, e := es[..|es| - 1], es[|es| - 1];
      FrontSeparate(es, live);
      SettlingOnePartition(ref, live, p, front);
      FoldNext(ref, live, p, es);
      PartitionEntry(ref, live, p, es);
    }
  }

  lemma PartitionEntry(ref: Reference, live: set<Id>, p: nat, es: seq<Entry>)
    requires es != [] && Separate(es) && StatusesAre(es, live)
    ensures var rows, e := SettleAll(ref, es[..|es| - 1]), es[|es| - 1];
            RowsOf(SettleAll(ref, es), p)
            == if e.partition == p then FoldStep(ref, live, p, RowsOf(rows, p), e.offset, e.message)
                 else RowsOf(rows, p)
  {
    var front, e := es[..|es| - 1], es[|es| - 1];
    var rows := SettleAll(ref, front);
    if Deliver(e.message).Decidable? {
      var b := Deliver(e.message).bid;
      forall i | 0 <= i < |rows| && (rows[i].bid.auctionId == b.auctionId || rows[i].bid.id == b.id)
        ensures rows[i].partition == e.partition
      {
        var k := RowsFromPartitions(ref, front, i);
        assert es[k] == front[k];
      }
      hide Judge, Refusable, Separate;
      PartitionDecidesAlone(ref, live, rows, e.partition, b);
      JudgeReadsOneStatus(ref, live, rows, b);
      if SettleAll(ref, es) != rows { AppendRowOf(rows, SettleAll(ref, es)[|rows|], p); }
    }
  }

  // ---- as one auction sees it ---------------------------------------------------------

  /** The auction's messages are in its partition, its status was always the same, and no
      other auction's message carries one of its bid ids. */
  ghost predicate Alone(es: seq<Entry>, a: Id, p: nat, live: set<Id>) {
    && (forall k :: 0 <= k < |es| && About(es[k].message, a) ==> es[k].partition == p && es[k].live == (a in live))
    && (forall b, d :: DeliveredBy(es, b) && DeliveredBy(es, d) && b.auctionId == a && b.id == d.id
          ==> d.auctionId == a)
  }

  lemma FrontAlone(es: seq<Entry>, a: Id, p: nat, live: set<Id>)
    requires es != [] && Alone(es, a, p, live)
    ensures Alone(es[..|es| - 1], a, p, live)
  {
    var front := es[..|es| - 1];
    assert forall k :: 0 <= k < |front| ==> front[k] == es[k];
    forall b | DeliveredBy(front, b) ensures DeliveredBy(es, b) { DeliveredLater(es, b); }
  }

  /** Refusal and verdict for a bid on `a` depend on the auction's own rows. */
  lemma OwnRowsDecide(ref: Reference, live: set<Id>, rows: seq<Row>, rows': seq<Row>, b: Bid)
    requires RowsFor(rows, b.auctionId) == RowsFor(rows', b.auctionId)
    requires forall i :: 0 <= i < |rows| && rows[i].bid.id == b.id ==> rows[i].bid.auctionId == b.auctionId
    requires forall i :: 0 <= i < |rows'| && rows'[i].bid.id == b.id ==> rows'[i].bid.auctionId == b.auctionId
    ensures Judge(ref, live, rows, b) == Judge(ref, live, rows', b)
    ensures Refusable(ref, rows, b) <==> Refusable(ref, rows', b)
  {
    var a := b.auctionId;
    HighestFor(rows, a);
    HighestFor(rows', a);
    IdsFor(rows, a, b.id);
    IdsFor(rows', a, b.id);
    assert HasId(rows, b.id) <==> HasId(rows', b.id);
  }

  lemma OwnIdsIn(es: seq<Entry>, rows: seq<Row>, a: Id, p: nat, live: set<Id>, b: Bid)
    requires Alone(es, a, p, live) && BidsFrom(es, rows) && DeliveredBy(es, b) && b.auctionId == a
    ensures forall i :: 0 <= i < |rows| && rows[i].bid.id == b.id ==> rows[i].bid.auctionId == a
  {
  }

  /** Whatever the other auctions do, the rows of `a` are those a reader of its partition
      alone would store for it. */
  lemma {:induction false} SettlingOneAuction(ref: Reference, live: set<Id>, p: nat, es: seq<Entry>, a: Id)
    requires InOffsetOrder(es) && Alone(es, a, p, live)
    ensures RowsFor(SettleAll(ref, es), a) == RowsFor(Fold(ref, live, p, MessagesOf(es, p)), a)
  {
    if es != [] {
      FrontAlone(es, a, p, live);
      SettlingOneAuction(ref, live, p, es[..|es| - 1], a);
      FoldNext(ref, live, p, es);
      if About(es[|es| - 1].message, a) { OwnEntry(ref, live, p, es, a); } else { OtherEntry(ref, live, p, es, a); }
    }
  }

  lemma OtherEntry(ref: Reference, live: set<Id>, p: nat, es: seq<Entry>, a: Id)
    requires es != [] && !About(es[|es| - 1].message, a)
    ensures RowsFor(SettleAll(ref, es), a) == RowsFor(SettleAll(ref, es[..|es| - 1]), a)
    ensures var e := es[|es| - 1];
            forall rows :: RowsFor(FoldStep(ref, live, p, rows, e.offset, e.message), a) == RowsFor(rows, a)
  {
    hide Judge, Refusable;
    var e, rows := es[|es| - 1], SettleAll(ref, es[..|es| - 1]);
    if SettleAll(ref, es) != rows { AppendRowFor(rows, SettleAll(ref, es)[|rows|], a); }
    forall rows ensures RowsFor(FoldStep(ref, live, p, rows, e.offset, e.message), a) == RowsFor(rows, a) {
      var rows' := FoldStep(ref, live, p, rows, e.offset, e.message);
      if rows' != rows { AppendRowFor(rows, rows'[|rows|], a); }
    }
  }

  lemma OwnEntry(ref: Reference, live: set<Id>, p: nat, es: seq<Entry>, a: Id)
    requires es != [] && Alone(es, a, p, live) && About(es[|es| - 1].message, a)
    requires var front := es[..|es| - 1];
             RowsFor(SettleAll(ref, front), a) == RowsFor(Fold(ref, live, p, MessagesOf(front, p)), a)
    ensures var e, rows := es[|es| - 1], Fold(ref, live, p, MessagesOf(es[..|es| - 1], p));
            RowsFor(SettleAll(ref, es), a) == RowsFor(FoldStep(ref, live, p, rows, e.offset, e.message), a)
    ensures es[|es| - 1].partition == p
  {
    var front, e := es[..|es| - 1], es[|es| - 1];
    var rows, rows' := SettleAll(ref, front), Fold(ref, live, p, MessagesOf(front, p));
    var b := Deliver(e.message).bid;
    RowsAreDelivered(ref, live, p, front);
    FrontDelivers(es, rows);
    FrontDelivers(es, rows');
    DeliveredLater(es, b);
    OwnIdsIn(es, rows, a, p, live, b);
    OwnIdsIn(es, rows', a, p, live, b);
    OwnRowsDecide(ref, SeenLive(b, e.live), rows, rows', b);
    JudgeReadsOneStatus(ref, live, rows', b);
    hide Judge, Refusable, Alone;
    if !Refusable(ref, rows, b) {
      var r := Row(b, Judge(ref, live, rows', b).Accepted?, p, e.offset);
      AppendRowFor(rows, r, a);
      AppendRowFor(rows', r, a);
    }
  }

  lemma FrontDelivers(es: seq<Entry>, rows: seq<Row>)
    requires es != [] && BidsFrom(es[..|es| - 1], rows)
    ensures BidsFrom(es, rows)
  {
    forall i | 0 <= i < |rows| ensures DeliveredBy(es, rows[i].bid) { DeliveredLater(es, rows[i].bid); }
  }
}
