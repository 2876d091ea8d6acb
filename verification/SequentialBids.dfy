/** The sequential specification: what one reader deciding a log message by message,
    without crashes, replays or positions, would store. */
module SequentialBids {
  import opened Options
  import opened BidDomain

  ghost function FoldStep(ref: Reference, live: set<Id>, p: nat, rows: seq<Row>, o: nat, m: Message): seq<Row> {
    match Deliver(m)
    case Decidable(b) =>
      if Refusable(ref, rows, b) then rows else rows + [Row(b, Judge(ref, live, rows, b).Accepted?, p, o)]
    case _ => rows
  }

  ghost function Fold(ref: Reference, live: set<Id>, p: nat, log: seq<Message>): seq<Row> {
    if log == [] then []
    else FoldStep(ref, live, p, Fold(ref, live, p, log[..|log| - 1]), |log| - 1, log[|log| - 1])
  }

  // ---- which messages get a row ---------------------------------------------------

  ghost predicate Storable(ref: Reference, m: Message) {
    && Deliver(m).Decidable?
    && var b := Deliver(m).bid;
       b.amount > 0 && b.auctionId in ref.startingPrice && b.bidderId in ref.users
  }

  /** The first storable message with its bid id. */
  ghost predicate FirstStorable(ref: Reference, log: seq<Message>, o: nat) {
    && o < |log| && Storable(ref, log[o])
    && forall n :: 0 <= n < o && Storable(ref, log[n]) ==> Deliver(log[n]).bid.id != Deliver(log[o]).bid.id
  }

  ghost predicate HasId(rows: seq<Row>, id: Id) {
    exists i :: 0 <= i < |rows| && rows[i].bid.id == id
  }

  ghost predicate StoredId(ref: Reference, log: seq<Message>, id: Id) {
    exists o :: 0 <= o < |log| && Storable(ref, log[o]) && Deliver(log[o]).bid.id == id
  }

  lemma StoredIdStep(ref: Reference, log: seq<Message>, id: Id)
    requires log != []
    ensures var m := log[|log| - 1];
            StoredId(ref, log, id) <==>
              StoredId(ref, log[..|log| - 1], id) || (Storable(ref, m) && Deliver(m).bid.id == id)
  {
  }

  lemma HasIdStep(rows: seq<Row>, r: Row, id: Id)
    ensures HasId(rows + [r], id) <==> HasId(rows, id) || r.bid.id == id
  {
    var rows' := rows + [r];
    assert rows'[|rows|] == r && forall i :: 0 <= i < |rows| ==> rows'[i] == rows[i];
  }

  lemma {:induction false} FoldIds(ref: Reference, live: set<Id>, p: nat, log: seq<Message>, id: Id)
    ensures HasId(Fold(ref, live, p, log), id) <==> StoredId(ref, log, id)
  {
    if log != [] {
      var front, m := log[..|log| - 1], log[|log| - 1];
      var rows, rows' := Fold(ref, live, p, front), Fold(ref, live, p, log);
      FoldIds(ref, live, p, front, id);
      StoredIdStep(ref, log, id);
      if Storable(ref, m) { FoldIds(ref, live, p, front, Deliver(m).bid.id); }
      if rows' != rows { HasIdStep(rows, rows'[|rows|], id); }
    }
  }

  ghost predicate StoresFirst(ref: Reference, log: seq<Message>, p: nat, r: Row) {
    r.partition == p && FirstStorable(ref, log, r.offset) && Deliver(log[r.offset]) == Decidable(r.bid)
  }

  ghost predicate HasOffset(rows: seq<Row>, o: nat) {
    exists i :: 0 <= i < |rows| && rows[i].offset == o
  }

  /** The rows, in log order, are exactly the bids of the first storable messages. */
  ghost predicate StoresFirstStorable(ref: Reference, log: seq<Message>, p: nat, rows: seq<Row>) {
    && (forall i :: 0 <= i < |rows| ==> StoresFirst(ref, log, p, rows[i]))
    && (forall i, j :: 0 <= i < j < |rows| ==> rows[i].offset < rows[j].offset)
    && (forall o: nat :: FirstStorable(ref, log, o) ==> HasOffset(rows, o))
  }

  lemma FirstStorableStep(ref: Reference, log: seq<Message>, p: nat, rows: seq<Row>, rows': seq<Row>)
    requires log != [] && StoresFirstStorable(ref, log[..|log| - 1], p, rows)
    requires var o := |log| - 1;
             if FirstStorable(ref, log, o)
             then exists accepted :: rows' == rows + [Row(Deliver(log[o]).bid, accepted, p, o)]
             else rows' == rows
    ensures StoresFirstStorable(ref, log, p, rows')
  {
    var front := log[..|log| - 1];
    forall i | 0 <= i < |rows| ensures StoresFirst(ref, log, p, rows[i]) && rows[i].offset < |front| {
      assert StoresFirst(ref, front, p, rows[i]);
      FirstStorablePrefix(ref, log, rows[i].offset);
    }
    forall o: nat | FirstStorable(ref, log, o) ensures HasOffset(rows', o) {
      if o < |front| {
        FirstStorablePrefix(ref, log, o);
        var i :| 0 <= i < |rows| && rows[i].offset == o;
        assert rows'[i] == rows[i];
      } else {
        assert rows'[|rows|].offset == o;
      }
    }
  }

  lemma {:induction false} FoldStoresFirstStorable(ref: Reference, live: set<Id>, p: nat, log: seq<Message>)
    ensures StoresFirstStorable(ref, log, p, Fold(ref, live, p, log))
  {
    if log != [] {
      var front, m := log[..|log| - 1], log[|log| - 1];
      var rows := Fold(ref, live, p, front);
      FoldStoresFirstStorable(ref, live, p, front);
      if Storable(ref, m) {
        FoldIds(ref, live, p, front, Deliver(m).bid.id);
        LastIsFirstStorable(ref, log);
        assert Refusable(ref, rows, Deliver(m).bid) <==> HasId(rows, Deliver(m).bid.id);
      }
      FirstStorableStep(ref, log, p, rows, Fold(ref, live, p, log));
    }
  }

  lemma FirstStorablePrefix(ref: Reference, log: seq<Message>, o: nat)
    requires log != [] && o < |log| - 1
    ensures FirstStorable(ref, log, o) <==> FirstStorable(ref, log[..|log| - 1], o)
  {
  }

  lemma LastIsFirstStorable(ref: Reference, log: seq<Message>)
    requires log != [] && Storable(ref, log[|log| - 1])
    ensures FirstStorable(ref, log, |log| - 1) <==> !StoredId(ref, log[..|log| - 1], Deliver(log[|log| - 1]).bid.id)
  {
  }

  // ---- who wins -------------------------------------------------------------------

  /** A bid that counts for auction `a`: stored, and above the starting price. */
  ghost predicate Counts(ref: Reference, a: Id, log: seq<Message>, o: nat) {
    && a in ref.startingPrice && FirstStorable(ref, log, o)
    && Deliver(log[o]).bid.auctionId == a && Deliver(log[o]).bid.amount > ref.startingPrice[a]
  }

  function AmountAt(log: seq<Message>, o: nat): int {
    if o < |log| && Deliver(log[o]).Decidable? then Deliver(log[o]).bid.amount else 0
  }

  /** The largest bid that counts; among equals the one with the lowest offset. */
  ghost predicate Wins(ref: Reference, a: Id, log: seq<Message>, o: nat) {
    && Counts(ref, a, log, o)
    && forall n :: Counts(ref, a, log, n) ==>
         AmountAt(log, n) < AmountAt(log, o) || (AmountAt(log, n) == AmountAt(log, o) && o <= n)
  }

  ghost predicate TopRow(rows: seq<Row>, a: Id, i: nat) {
    i < |rows| && AcceptedFor(rows[i], a) && Highest(rows, a) == Some(rows[i].bid.amount)
  }

  lemma CountsPrefix(ref: Reference, a: Id, log: seq<Message>, o: nat)
    requires log != [] && o < |log| - 1
    ensures Counts(ref, a, log, o) <==> Counts(ref, a, log[..|log| - 1], o)
    ensures AmountAt(log, o) == AmountAt(log[..|log| - 1], o)
  {
  }

  /** One more message: the new bid wins, or the prior winner still does. */
  lemma WinnerStep(ref: Reference, a: Id, log: seq<Message>, top: Option<nat>, accepted: bool)
    requires log != []
    requires var front, n := log[..|log| - 1], |log| - 1;
             && (top.Some? ==> Wins(ref, a, front, top.value))
             && (top.None? ==> forall o :: !Counts(ref, a, front, o))
             && (accepted <==> Counts(ref, a, log, n) && (top.Some? ==> AmountAt(log, n) > AmountAt(front, top.value)))
    ensures accepted ==> Wins(ref, a, log, |log| - 1)
    ensures !accepted && top.Some? ==> Wins(ref, a, log, top.value)
    ensures !accepted && top.None? ==> forall o :: !Counts(ref, a, log, o)
  {
    var front := log[..|log| - 1];
    forall o: nat | o < |front|
      ensures (Counts(ref, a, log, o) <==> Counts(ref, a, front, o)) && AmountAt(log, o) == AmountAt(front, o)
    {
      CountsPrefix(ref, a, log, o);
    }
    forall o: nat ensures Counts(ref, a, log, o) ==> o < |log| { }
  }

  lemma AppendRow(rows: seq<Row>, r: Row, a: Id)
    ensures Highest(rows + [r], a) ==
            if AcceptedFor(r, a) && (Highest(rows, a).None? || Highest(rows, a).value < r.bid.amount)
            then Some(r.bid.amount) else Highest(rows, a)
  {
  }

  /** The last message's row, if it is about `a` and the auction is live, is accepted
      exactly when it counts and beats the top. */
  lemma LastRowAccepted(ref: Reference, live: set<Id>, p: nat, log: seq<Message>, a: Id)
    requires log != [] && a in live && a in ref.startingPrice
    ensures var front, n := log[..|log| - 1], |log| - 1;
            var rows, rows' := Fold(ref, live, p, front), Fold(ref, live, p, log);
            if Counts(ref, a, log, n) && (Highest(rows, a).Some? ==> AmountAt(log, n) > Highest(rows, a).value)
               && (Highest(rows, a).Some? ==> Highest(rows, a).value > 0)
            then rows' == rows + [Row(Deliver(log[n]).bid, true, p, n)]
            else (Highest(rows, a).Some? ==> Highest(rows, a).value > ref.startingPrice[a])
                 ==> rows' == rows || (|rows'| == |rows| + 1 && rows' == rows + [rows'[|rows|]]
                                       && !AcceptedFor(rows'[|rows|], a))
  {
    var front, n := log[..|log| - 1], |log| - 1;
    if Storable(ref, log[n]) {
      FoldIds(ref, live, p, front, Deliver(log[n]).bid.id);
      LastIsFirstStorable(ref, log);
    }
  }

  ghost predicate TopWins(ref: Reference, log: seq<Message>, rows: seq<Row>, a: Id, top: Option<nat>) {
    if top.Some? then
      && TopRow(rows, a, top.value) && Wins(ref, a, log, rows[top.value].offset)
      && AmountAt(log, rows[top.value].offset) == rows[top.value].bid.amount
    else
      Highest(rows, a).None? && forall o: nat :: !Counts(ref, a, log, o)
  }

  /** For a live auction, the sequential reader's highest accepted row is the winner of
      the log; there is none exactly when no bid counts. */
  lemma {:induction false} HighestRowWins(ref: Reference, live: set<Id>, p: nat, log: seq<Message>, a: Id)
    returns (top: Option<nat>)
    requires a in live && a in ref.startingPrice
    ensures TopWins(ref, log, Fold(ref, live, p, log), a, top)
  {
    if log == [] {
      top := None;
    } else {
      var front, n := log[..|log| - 1], |log| - 1;
      var rows, rows' := Fold(ref, live, p, front), Fold(ref, live, p, log);
      top := HighestRowWins(ref, live, p, front, a);
      var prior := if top.Some? then Some(rows[top.value].offset) else None;
      var accepted := Counts(ref, a, log, n) && (prior.Some? ==> AmountAt(log, n) > AmountAt(front, prior.value));
      if prior.Some? { CountsPrefix(ref, a, log, prior.value); }
      WinnerStep(ref, a, log, prior, accepted);
      LastRowAccepted(ref, live, p, log, a);
      hide Fold;
      if rows' != rows {
        AppendRow(rows, rows'[|rows|], a);
        if accepted { top := Some(|rows|); }
      }
    }
  }
}
