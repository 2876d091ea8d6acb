/** What a bid message is, how the worker reads it, the rule that decides it, the
    constraints of the bids table and the cache script. Amounts are whole cents. */
module BidDomain {
  import opened Options
  import Binary64

  type Id = nat

  datatype Bid = Bid(id: Id, auctionId: Id, bidderId: Id, amount: int)

  // ---- messages -------------------------------------------------------------

  /** A UUID field of the decoded JSON object: text, or a number whose digits
      happen to spell a UUID (`str(...)` accepts it, `uuid.UUID(...)` raises). */
  datatype IdField = IdAbsent | IdNotUuid | IdText(id: Id) | IdNumber(id: Id)

  /** The amount field, by what `Decimal(...)` does with it: `InvalidOperation`,
      another exception, NaN or an infinity, or a number of cents. */
  datatype AmountField = AmountAbsent | AmountInvalid | AmountWrongType | AmountNotFinite | Cents(cents: int)

  datatype Message =
    | NotUtf8
    | NotJson
    | NotObject
    | Fields(bid: IdField, auction: IdField, bidder: IdField, amount: AmountField, submittedAt: bool)

  datatype Parse = Parsed | Malformed | Raised

  /** `parse_bid_envelope`: the checks in the order the code makes them. */
  function ParseEnvelope(m: Message): Parse {
    match m
    case NotUtf8 => Raised
    case NotJson => Malformed
    case NotObject => Raised
    case Fields(bid, auction, bidder, amount, submittedAt) =>
      if bid.IdAbsent? || auction.IdAbsent? || bidder.IdAbsent? || amount.AmountAbsent? || !submittedAt then Malformed
      else if amount.AmountInvalid? then Malformed
      else if amount.AmountWrongType? then Raised
      else if bid.IdNotUuid? || auction.IdNotUuid? || bidder.IdNotUuid? then Malformed
      else Parsed
  }

  /** The worker skips a poison message, can decide a decidable one, and gets an
      exception from a crashing one however often it is delivered. */
  datatype Delivery = Poison | Decidable(bid: Bid) | Crashing

  function Deliver(m: Message): (d: Delivery)
    ensures d.Decidable? ==> -(Binary64.MAX_CENTS as int) < d.bid.amount < Binary64.MAX_CENTS
  {
    match ParseEnvelope(m)
    case Malformed => Poison
    case Raised => Crashing
    case Parsed =>
      if m.bid.IdText? && m.auction.IdText? && m.bidder.IdText? && m.amount.Cents?
         && -(Binary64.MAX_CENTS as int) < m.amount.cents < Binary64.MAX_CENTS
      then Decidable(Bid(m.bid.id, m.auction.id, m.bidder.id, m.amount.cents))
      else Crashing
  }

  predicate LacksField(m: Message)
    requires m.Fields?
  {
    IdAbsent in {m.bid, m.auction, m.bidder} || m.amount == AmountAbsent || !m.submittedAt
  }

  predicate HasBadUuid(m: Message)
    requires m.Fields?
  {
    IdNotUuid in {m.bid, m.auction, m.bidder}
  }

  /** Malformed by its own fields: not JSON, a field missing, an amount that is no number, or
      an identifier that is no UUID, unless the amount's type raised before that was seen. */
  predicate IsMalformed(m: Message) {
    m.NotJson?
    || (m.Fields? && (LacksField(m) || m.amount.AmountInvalid? || (HasBadUuid(m) && !m.amount.AmountWrongType?)))
  }

  /** Raises at every delivery: not UTF-8, not an object, or complete and with an amount of
      the wrong type, or else with well-formed identifiers but a number among them, or an
      amount that is not finite or does not fit the column. */
  predicate AlwaysRaises(m: Message) {
    || m.NotUtf8? || m.NotObject?
    || (m.Fields? && !LacksField(m) && m.amount.AmountWrongType?)
    || (m.Fields? && !LacksField(m) && !HasBadUuid(m) && !m.amount.AmountInvalid?
        && (|| m.bid.IdNumber? || m.auction.IdNumber? || m.bidder.IdNumber? || m.amount.AmountNotFinite?
            || (m.amount.Cents? && !(-(Binary64.MAX_CENTS as int) < m.amount.cents < Binary64.MAX_CENTS))))
  }

  /** Which messages are skipped and which stall the worker. Not every message that can never
      be decided is skipped: one that always raises is not. */
  lemma DeliveryByFields(m: Message)
    ensures Deliver(m).Poison? <==> IsMalformed(m)
    ensures Deliver(m).Crashing? <==> AlwaysRaises(m)
  {
  }

  /** The message `submit_bid` publishes. */
  function Envelope(b: Bid): Message {
    Fields(IdText(b.id), IdText(b.auctionId), IdText(b.bidderId), Cents(b.amount), true)
  }

  /** What the API publishes is what the worker decides, up to the size of the
      amount column: a larger amount passes the API and then never gets a row. */
  lemma PublishedBidIsDelivered(b: Bid)
    requires b.amount > 0
    ensures Deliver(Envelope(b)) == Decidable(b) <==> b.amount < Binary64.MAX_CENTS
    ensures Deliver(Envelope(b)) == Crashing <==> b.amount >= Binary64.MAX_CENTS
  {
  }

  /** Decoding is the inverse of encoding: the worker decides exactly the messages that are
      the envelope of a bid whose amount fits the column, and reads that bid. */
  lemma DecidableExactlyWhen(m: Message, b: Bid)
    ensures Deliver(m) == Decidable(b)
            <==> m == Envelope(b) && -(Binary64.MAX_CENTS as int) < b.amount < Binary64.MAX_CENTS
  {
  }

  /** The least amount that passes the API and that the worker can never decide. */
  lemma APublishedBidCanCrash()
    ensures var b := Bid(0, 0, 0, 1_000_000_000_000); b.amount > 0 && Deliver(Envelope(b)) == Crashing
  {
  }

  // ---- reference tables and the bids table -----------------------------------

  /** The auctions (with their starting prices) and users the foreign keys refer to. */
  datatype Reference = Reference(startingPrice: map<Id, nat>, users: set<Id>)

  datatype Row = Row(bid: Bid, accepted: bool, partition: nat, offset: nat)

  predicate AcceptedFor(r: Row, a: Id) {
    r.accepted && r.bid.auctionId == a
  }

  /** The highest accepted amount of an auction (`ORDER BY amount DESC LIMIT 1`). */
  function Highest(rows: seq<Row>, a: Id): (h: Option<int>)
    ensures h.None? ==> forall i :: 0 <= i < |rows| ==> !AcceptedFor(rows[i], a)
    ensures h.Some? ==> exists i :: 0 <= i < |rows| && AcceptedFor(rows[i], a) && rows[i].bid.amount == h.value
    ensures h.Some? ==> forall i :: 0 <= i < |rows| && AcceptedFor(rows[i], a) ==> rows[i].bid.amount <= h.value
  {
    if rows == [] then None
    else
      var h := Highest(rows[..|rows| - 1], a);
      var r := rows[|rows| - 1];
      if AcceptedFor(r, a) && (h.None? || h.value < r.bid.amount) then Some(r.bid.amount) else h
  }

  datatype Verdict = Accepted | NotLive | NotHighest

  /** The amount a new bid must exceed. `x or y` in the code also falls back to
      the starting price when the highest amount is zero. */
  function ToBeat(ref: Reference, rows: seq<Row>, a: Id): int
    requires a in ref.startingPrice
  {
    var h := Highest(rows, a);
    if h.Some? && h.value != 0 then h.value else ref.startingPrice[a]
  }

  /** The decision of `decide_bid`. */
  function Judge(ref: Reference, live: set<Id>, rows: seq<Row>, b: Bid): Verdict {
    if b.auctionId !in ref.startingPrice || b.auctionId !in live then NotLive
    else if b.amount > ToBeat(ref, rows, b.auctionId) then Accepted
    else NotHighest
  }

  /** The bid is not above the starting price, or not above some accepted bid. */
  ghost predicate Outbid(ref: Reference, rows: seq<Row>, b: Bid)
    requires b.auctionId in ref.startingPrice
  {
    || b.amount <= ref.startingPrice[b.auctionId]
    || exists i :: 0 <= i < |rows| && AcceptedFor(rows[i], b.auctionId) && b.amount <= rows[i].bid.amount
  }

  /** What each verdict says, given the status and the rows that were read. */
  ghost predicate Explains(ref: Reference, live: bool, rows: seq<Row>, b: Bid, v: Verdict) {
    && (v.NotLive? <==> b.auctionId !in ref.startingPrice || !live)
    && (v.NotHighest? <==> b.auctionId in ref.startingPrice && live && Outbid(ref, rows, b))
  }

  /** The verdict gives the reason, wherever accepted amounts exceed the starting price. */
  lemma VerdictExplained(ref: Reference, live: set<Id>, rows: seq<Row>, b: Bid)
    requires b.auctionId in ref.startingPrice ==>
               forall i :: 0 <= i < |rows| && AcceptedFor(rows[i], b.auctionId)
                 ==> rows[i].bid.amount > ref.startingPrice[b.auctionId]
    ensures Explains(ref, b.auctionId in live, rows, b, Judge(ref, live, rows, b))
  {
    var h := Highest(rows, b.auctionId);
    if b.auctionId in ref.startingPrice && h.Some? {
      var i :| 0 <= i < |rows| && AcceptedFor(rows[i], b.auctionId) && rows[i].bid.amount == h.value;
    }
  }

  /** The status `decide_bid` read, for the one auction it is about. */
  function SeenLive(b: Bid, live: bool): set<Id> {
    if live then {b.auctionId} else {}
  }

  /** Of all statuses a decision reads one. */
  lemma JudgeReadsOneStatus(ref: Reference, live: set<Id>, rows: seq<Row>, b: Bid)
    ensures Judge(ref, SeenLive(b, b.auctionId in live), rows, b) == Judge(ref, live, rows, b)
  {
  }

  /** The constraints that do not look at the log position: the amount check,
      the two foreign keys and the primary key. */
  predicate Refusable(ref: Reference, rows: seq<Row>, b: Bid) {
    || b.amount <= 0
    || b.auctionId !in ref.startingPrice
    || b.bidderId !in ref.users
    || exists i :: 0 <= i < |rows| && rows[i].bid.id == b.id
  }

  predicate PositionTaken(rows: seq<Row>, p: nat, o: nat) {
    exists i :: 0 <= i < |rows| && rows[i].partition == p && rows[i].offset == o
  }

  /** Every way an insert into the bids table can raise `IntegrityError`. */
  predicate Conflicts(ref: Reference, rows: seq<Row>, r: Row) {
    Refusable(ref, rows, r.bid) || PositionTaken(rows, r.partition, r.offset)
  }

  // ---- the cache ------------------------------------------------------------

  /** The Redis hash of one auction; amounts in it are texts of accepted amounts. */
  datatype Cached = Cached(amount: nat, bidderId: Id)

  /** `BID_ARBITRATION_SCRIPT`: the comparison is between doubles. */
  function Arbitrate(cache: map<Id, Cached>, b: Bid): (after: map<Id, Cached>)
    requires 0 <= b.amount < Binary64.MAX_CENTS
    requires b.auctionId in cache ==> cache[b.auctionId].amount < Binary64.MAX_CENTS
  {
    var current := if b.auctionId in cache then cache[b.auctionId].amount else 0;
    if Binary64.ToNumber(b.amount) > Binary64.ToNumber(current)
    then cache[b.auctionId := Cached(b.amount, b.bidderId)]
    else cache
  }

  /** The script keeps the larger of the two exact amounts, and on a tie the one
      already there; no other auction's entry changes. */
  lemma ArbitrateKeepsLarger(cache: map<Id, Cached>, b: Bid)
    requires 0 < b.amount < Binary64.MAX_CENTS
    requires b.auctionId in cache ==> cache[b.auctionId].amount < Binary64.MAX_CENTS
    ensures var a, after := b.auctionId, Arbitrate(cache, b);
            && after.Keys == cache.Keys + {a}
            && (forall k :: k in cache && k != a ==> after[k] == cache[k])
            && after[a] == if a in cache && b.amount <= cache[a].amount then cache[a] else Cached(b.amount, b.bidderId)
  {
    hide Binary64.ToNumber;
    Binary64.ComparisonIsExact(b.amount, if b.auctionId in cache then cache[b.auctionId].amount else 0);
  }
}
