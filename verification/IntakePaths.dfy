/** The two ways in, the sheet and the form, as functions of the tables, and how they agree. */
module IntakePaths {
  import opened Options
  import opened Text
  import opened IntakeDomain

  // ---- the sheet ----------------------------------------------------------------------

  function ErrorMap(c: Catalog, row: Row): map<Field, Problem> {
    map f: Field | ProblemWith(c, row, f).Some? :: ProblemWith(c, row, f).value
  }

  function CellText(s: string): Option<string> {
    if s == [] then None else Some(s)
  }

  /** The table, the results so far, and whether a value that fits no column has ended the
      request; rows before it stay committed. */
  datatype Progress = Progress(table: seq<Listing>, results: seq<RowResult>, broken: bool)

  ghost function RowStep(c: Catalog, p: Progress, row: Row, id: Id, author: Id): Progress {
    if p.broken then p
    else if !ValidRow(c, row) then
      p.(results := p.results + [RowResult(row.number, CellText(row.chassis), Rejected(ErrorMap(c, row)))])
    else
      var l := RowListing(c, row, id, author);
      if !Fits(l) then p.(broken := true)
      else if Clashes(p.table, l) then
        p.(results := p.results +
             [RowResult(row.number, CellText(row.chassis), Rejected(map[Chassis := AlreadySubmitted]))])
      else
        Progress(p.table + [l], p.results + [RowResult(row.number, Some(l.details.chassis), Created(id))], false)
  }

  /** After the first `k` rows. */
  ghost function BulkAt(c: Catalog, table: seq<Listing>, rows: seq<Row>, ids: seq<Id>, author: Id, k: nat): Progress
    requires |ids| == |rows| && k <= |rows|
  {
    if k == 0 then Progress(table, [], false)
    else RowStep(c, BulkAt(c, table, rows, ids, author, k - 1), rows[k - 1], ids[k - 1], author)
  }

  ghost predicate Absent(table: seq<Listing>, id: Id) {
    forall k :: 0 <= k < |table| ==> table[k].id != id
  }

  /** Every identifier drawn is new. */
  ghost predicate NewIds(table: seq<Listing>, ids: seq<Id>) {
    && (forall i, j :: 0 <= i < j < |ids| ==> ids[i] != ids[j])
    && (forall i :: 0 <= i < |ids| ==> Absent(table, ids[i]))
  }

  lemma {:induction false} OneResultPerRow(c: Catalog, table: seq<Listing>, rows: seq<Row>, ids: seq<Id>,
                                           author: Id, k: nat)
    requires |ids| == |rows| && k <= |rows|
    ensures var p := BulkAt(c, table, rows, ids, author, k);
            && |p.results| <= k && (!p.broken ==> |p.results| == k)
            && forall i :: 0 <= i < |p.results| ==> p.results[i].number == rows[i].number
  {
    hide ValidRow, Fits, Clashes, ErrorMap, RowListing;
    if k > 0 { OneResultPerRow(c, table, rows, ids, author, k - 1); }
  }

  /** A request, once broken, stays so; and results and listings are only added. */
  lemma {:induction false} BulkGrows(c: Catalog, table: seq<Listing>, rows: seq<Row>, ids: seq<Id>, author: Id,
                                     j: nat, k: nat)
    requires |ids| == |rows| && j <= k <= |rows|
    ensures var p, q := BulkAt(c, table, rows, ids, author, j), BulkAt(c, table, rows, ids, author, k);
            (p.broken ==> q.broken) && p.results <= q.results && p.table <= q.table
    decreases k
  {
    hide ValidRow, Fits, Clashes, ErrorMap, RowListing;
    if j < k { BulkGrows(c, table, rows, ids, author, j, k - 1); }
  }

  // ---- which rows are created ---------------------------------------------------------

  ghost predicate OffersChassis(c: Catalog, row: Row, chassis: string) {
    ValidRow(c, row) && Strip(row.chassis) == chassis
  }

  lemma RowListingParts(c: Catalog, row: Row, id: Id, author: Id)
    requires ValidRow(c, row)
    ensures var l := RowListing(c, row, id, author); l.Intake? && l.id == id && l.details.chassis == Strip(row.chassis)
  {
  }

  lemma ClashIsTaken(table: seq<Listing>, l: Listing)
    requires l.Intake? && Absent(table, l.id)
    ensures Clashes(table, l) <==> Taken(table, l.details.chassis)
  {
  }

  lemma TakenAfter(table: seq<Listing>, l: Listing, chassis: string)
    requires l.Intake?
    ensures Taken(table + [l], chassis) <==> Taken(table, chassis) || l.details.chassis == chassis
  {
    var after := table + [l];
    if l.details.chassis == chassis { assert after[|table|] == l; }
    if Taken(table, chassis) {
      var k :| 0 <= k < |table| && table[k].Intake? && table[k].details.chassis == chassis;
      assert after[k] == table[k];
    }
  }

  lemma StepTakes(c: Catalog, p: Progress, row: Row, id: Id, author: Id, chassis: string)
    requires Absent(p.table, id) && !RowStep(c, p, row, id, author).broken
    ensures Taken(RowStep(c, p, row, id, author).table, chassis)
            <==> Taken(p.table, chassis) || OffersChassis(c, row, chassis)
  {
    hide Taken, Fits, ErrorMap, ValidRow, Clashes, RowListing;
    if ValidRow(c, row) {
      var l := RowListing(c, row, id, author);
      RowListingParts(c, row, id, author);
      ClashIsTaken(p.table, l);
      TakenAfter(p.table, l, chassis);
    }
  }

  /** A number is taken once a valid row has offered it, whether or not that row was created. */
  lemma {:induction false} TakenAt(c: Catalog, table: seq<Listing>, rows: seq<Row>, ids: seq<Id>, author: Id,
                                   k: nat, chassis: string)
    requires |ids| == |rows| && NewIds(table, ids) && k <= |rows|
    requires !BulkAt(c, table, rows, ids, author, k).broken
    ensures Taken(BulkAt(c, table, rows, ids, author, k).table, chassis)
            <==> Taken(table, chassis) || exists j :: 0 <= j < k && OffersChassis(c, rows[j], chassis)
  {
    hide Taken, RowStep, OffersChassis;
    if k > 0 {
      BulkGrows(c, table, rows, ids, author, k - 1, k);
      TakenAt(c, table, rows, ids, author, k - 1, chassis);
      IdsAt(c, table, rows, ids, author, k - 1, k - 1);
      StepTakes(c, BulkAt(c, table, rows, ids, author, k - 1), rows[k - 1], ids[k - 1], author, chassis);
    }
  }

  lemma {:induction false} IdsAt(c: Catalog, table: seq<Listing>, rows: seq<Row>, ids: seq<Id>, author: Id, k: nat,
                                 later: nat)
    requires |ids| == |rows| && NewIds(table, ids) && k <= later < |rows|
    ensures Absent(BulkAt(c, table, rows, ids, author, k).table, ids[later])
  {
    hide ValidRow, Fits, Clashes, ErrorMap, RowListing;
    if k > 0 {
      IdsAt(c, table, rows, ids, author, k - 1, later);
      if ValidRow(c, rows[k - 1]) { RowListingParts(c, rows[k - 1], ids[k - 1], author); }
    }
  }

  lemma ResultOf(c: Catalog, table: seq<Listing>, rows: seq<Row>, ids: seq<Id>, author: Id, i: nat)
    requires |ids| == |rows| && i < |rows| && !BulkAt(c, table, rows, ids, author, |rows|).broken
    ensures var p, all := BulkAt(c, table, rows, ids, author, i), BulkAt(c, table, rows, ids, author, |rows|).results;
            && |all| == |rows| && !p.broken
            && |RowStep(c, p, rows[i], ids[i], author).results| == |p.results| + 1
            && all[i] == RowStep(c, p, rows[i], ids[i], author).results[|p.results|]
  {
    hide RowStep;
    OneResultPerRow(c, table, rows, ids, author, i);
    OneResultPerRow(c, table, rows, ids, author, i + 1);
    OneResultPerRow(c, table, rows, ids, author, |rows|);
    BulkGrows(c, table, rows, ids, author, i, |rows|);
    BulkGrows(c, table, rows, ids, author, i + 1, |rows|);
  }

  /** A row is created exactly when it is valid, its chassis number was not submitted before
      the request, and it is the first valid row of the request with that number. */
  lemma CreatedExactlyWhen(c: Catalog, table: seq<Listing>, rows: seq<Row>, ids: seq<Id>, author: Id, i: nat)
    requires |ids| == |rows| && NewIds(table, ids) && i < |rows|
    requires !BulkAt(c, table, rows, ids, author, |rows|).broken
    ensures var results := BulkAt(c, table, rows, ids, author, |rows|).results;
            && |results| == |rows|
            && (results[i].outcome.Created? <==>
                  && ValidRow(c, rows[i]) && !Taken(table, Strip(rows[i].chassis))
                  && forall j :: 0 <= j < i ==> !OffersChassis(c, rows[j], Strip(rows[i].chassis)))
            && (!results[i].outcome.Created? ==>
                  results[i].outcome == Rejected(if ValidRow(c, rows[i]) then map[Chassis := AlreadySubmitted]
                                                 else ErrorMap(c, rows[i])))
  {
    hide Taken, Fits, ErrorMap, ValidRow, BulkAt, Clashes, RowListing;
    ResultOf(c, table, rows, ids, author, i);
    TakenAt(c, table, rows, ids, author, i, Strip(rows[i].chassis));
    IdsAt(c, table, rows, ids, author, i, i);
    if ValidRow(c, rows[i]) {
      RowListingParts(c, rows[i], ids[i], author);
      ClashIsTaken(BulkAt(c, table, rows, ids, author, i).table, RowListing(c, rows[i], ids[i], author));
    }
  }

  /** `id` names the active row of `table` that the cell calls by name. */
  ghost predicate CalledBy(table: seq<Lookup>, id: Id, cell: string, make: Option<Id>) {
    exists k :: 0 <= k < |table| && table[k].id == id && Labelled(table[k], cell, make)
  }

  lemma FoundIsCalled(table: seq<Lookup>, cell: string, make: Option<Id>)
    ensures Find(table, cell, make).Some? ==> CalledBy(table, Find(table, cell, make).value.id, cell, make)
  {
  }

  ghost predicate ClientCalledBy(c: Catalog, id: Id, cell: string) {
    exists k :: 0 <= k < |c.users| && c.users[k].id == id && CalledClient(c.users[k], cell)
  }

  ghost predicate SubSellerCalledBy(c: Catalog, id: Id, client: Id, cell: string) {
    exists k :: 0 <= k < |c.subSellers| && c.subSellers[k].id == id && CalledSubSeller(c.subSellers[k], client, cell)
  }

  lemma BiddingWhereNamed(c: Catalog, row: Row)
    requires ValidRow(c, row)
    ensures Find(c.biddingModels, row.bidding, None).Some? <==> !Blank(row.bidding)
  {
    CellIsFine(c, row, Bidding);
    hide ValidRow;
  }

  /** A created listing names, for each labelled cell of its row, an active row called that,
      the model under that make; an optional column is filled exactly where the cell is not
      blank. */
  lemma ListingNamesWhatItsRowCalls(c: Catalog, row: Row, id: Id, author: Id)
    requires ValidRow(c, row)
    ensures RowListing(c, row, id, author).Intake?
    ensures var d := RowListing(c, row, id, author).details;
            && CalledBy(c.makes, d.make, row.make, None) && CalledBy(c.models, d.model, row.model, Some(d.make))
            && CalledBy(c.branches, d.branch, row.branch, None) && CalledBy(c.colors, d.color, row.color, None)
            && CalledBy(c.keyOptions, d.keys, row.keys, None) && CalledBy(c.fuels, d.fuel, row.fuel, None)
            && (d.bidding.Some? <==> !Blank(row.bidding))
            && (d.bidding.Some? ==> CalledBy(c.biddingModels, d.bidding.value, row.bidding, None))
  {
    hide ValidRow, CalledBy, Labelled, Title, Find, FindClient, FindSubSeller, Blank;
    Resolves(c, row);
    BiddingWhereNamed(c, row);
    FoundIsCalled(c.makes, row.make, None);
    FoundIsCalled(c.models, row.model, Some(Find(c.makes, row.make, None).value.id));
    FoundIsCalled(c.branches, row.branch, None);
    FoundIsCalled(c.colors, row.color, None);
    FoundIsCalled(c.keyOptions, row.keys, None);
    FoundIsCalled(c.fuels, row.fuel, None);
    FoundIsCalled(c.biddingModels, row.bidding, None);
  }

  lemma FoundPeopleAreCalled(c: Catalog, row: Row)
    ensures var client := FindClient(c, row); client.Some? ==> ClientCalledBy(c, client.value.id, row.client)
    ensures var client, sub := FindClient(c, row), FindSubSeller(c, row);
            sub.Some? ==> client.Some? && SubSellerCalledBy(c, sub.value.id, client.value.id, row.subClient)
  {
    hide CalledClient, CalledSubSeller, First;
    if FindClient(c, row).Some? {
      var k :| 0 <= k < |c.users| && c.users[k] == FindClient(c, row).value;
    }
    if FindSubSeller(c, row).Some? {
      var j :| 0 <= j < |c.subSellers| && c.subSellers[j] == FindSubSeller(c, row).value;
    }
  }

  /** It is sold by an active seller called what the row says, through that seller's contact
      where the row names one, and has the row's texts, stripped, and numbers. */
  lemma ListingKeepsItsRow(c: Catalog, row: Row, id: Id, author: Id)
    requires ValidRow(c, row)
    ensures var l := RowListing(c, row, id, author);
            && l.Intake? && l.id == id && l.createdBy == author
            && var d := l.details;
               && d.chassis == Strip(row.chassis) != [] && d.plate == Strip(row.plate) != []
               && Some(d.year) == row.year && Some(d.target) == row.target && Some(d.minimum) == row.minimum
               && ClientCalledBy(c, d.client, row.client)
               && (d.subSeller.Some? <==> !Blank(row.subClient))
               && (d.subSeller.Some? ==> SubSellerCalledBy(c, d.subSeller.value, d.client, row.subClient))
  {
    hide ValidRow, Find, FindModel, FindClient, FindSubSeller, Title, First, ClientCalledBy, SubSellerCalledBy;
    Resolves(c, row);
    FoundPeopleAreCalled(c, row);
    SubSellerWhereNamed(c, row);
  }

  lemma SubSellerWhereNamed(c: Catalog, row: Row)
    requires ValidRow(c, row)
    ensures FindSubSeller(c, row).Some? <==> !Blank(row.subClient)
  {
    CellIsFine(c, row, SubClient);
    Resolves(c, row);
    hide ValidRow;
  }

  // ---- what the table gains -------------------------------------------------------------

  ghost function CreatedListings(c: Catalog, rows: seq<Row>, ids: seq<Id>, author: Id, results: seq<RowResult>,
                                 k: nat): seq<Listing>
    requires |ids| == |rows| == |results| && k <= |rows|
  {
    if k == 0 then []
    else
      CreatedListings(c, rows, ids, author, results, k - 1)
      + if results[k - 1].outcome.Created? && ValidRow(c, rows[k - 1])
        then [RowListing(c, rows[k - 1], ids[k - 1], author)] else []
  }

  /** The table gains the listings of the created rows, in row order, and nothing else. */
  lemma {:induction false} TableGainsCreatedRows(c: Catalog, table: seq<Listing>, rows: seq<Row>, ids: seq<Id>,
                                                 author: Id, k: nat)
    requires |ids| == |rows| && k <= |rows| && !BulkAt(c, table, rows, ids, author, |rows|).broken
    ensures var all := BulkAt(c, table, rows, ids, author, |rows|).results;
            && |all| == |rows|
            && BulkAt(c, table, rows, ids, author, k).table == table + CreatedListings(c, rows, ids, author, all, k)
  {
    hide ErrorMap, ValidRow, Fits, Clashes, RowListing;
    OneResultPerRow(c, table, rows, ids, author, |rows|);
    if k > 0 {
      TableGainsCreatedRows(c, table, rows, ids, author, k - 1);
      ResultOf(c, table, rows, ids, author, k - 1);
    }
  }

  /** The request completes exactly when the values of every valid row fit their columns. */
  lemma {:induction false} BulkCompletesWhenValuesFit(c: Catalog, table: seq<Listing>, rows: seq<Row>,
                                                      ids: seq<Id>, author: Id, k: nat)
    requires |ids| == |rows| && k <= |rows|
    ensures BulkAt(c, table, rows, ids, author, k).broken
            <==> exists j :: 0 <= j < k && ValidRow(c, rows[j]) && !Fits(RowListing(c, rows[j], ids[j], author))
  {
    hide ErrorMap, ValidRow, Fits, Clashes, RowListing;
    if k > 0 { BulkCompletesWhenValuesFit(c, table, rows, ids, author, k - 1); }
  }

  // ---- leaving a row out ------------------------------------------------------------------

  lemma {:induction false} SamePrefix(c: Catalog, table: seq<Listing>, rows: seq<Row>, ids: seq<Id>,
                                      rows': seq<Row>, ids': seq<Id>, author: Id, k: nat)
    requires |ids| == |rows| && |ids'| == |rows'| && k <= |rows| && k <= |rows'|
    requires rows[..k] == rows'[..k] && ids[..k] == ids'[..k]
    ensures BulkAt(c, table, rows, ids, author, k) == BulkAt(c, table, rows', ids', author, k)
  {
    hide RowStep;
    if k > 0 {
      assert rows[..k - 1] == rows[..k][..k - 1] && ids[..k - 1] == ids[..k][..k - 1];
      assert rows'[..k - 1] == rows'[..k][..k - 1] && ids'[..k - 1] == ids'[..k][..k - 1];
      SamePrefix(c, table, rows, ids, rows', ids', author, k - 1);
      assert rows[k - 1] == rows[..k][k - 1] && ids[k - 1] == ids[..k][k - 1];
      assert rows'[k - 1] == rows'[..k][k - 1] && ids'[k - 1] == ids'[..k][k - 1];
    }
  }

  function Without<T>(s: seq<T>, i: nat): (r: seq<T>)
    requires i < |s|
    ensures |r| == |s| - 1
  {
    s[..i] + s[i + 1..]
  }

  lemma StepIgnoresEarlierResults(c: Catalog, p: Progress, q: Progress, row: Row, id: Id, author: Id, i: nat)
    requires p.table == q.table && p.broken == q.broken && i < |p.results| && q.results == Without(p.results, i)
    ensures var p', q' := RowStep(c, p, row, id, author), RowStep(c, q, row, id, author);
            && p'.table == q'.table && p'.broken == q'.broken
            && i < |p'.results| && q'.results == Without(p'.results, i)
  {
    hide ValidRow, Fits, Clashes, ErrorMap, RowListing;
    var p', q' := RowStep(c, p, row, id, author), RowStep(c, q, row, id, author);
    if |p'.results| > |p.results| {
      var x := p'.results[|p.results|];
      assert p'.results == p.results + [x];
      assert p'.results[..i] == p.results[..i] && p'.results[i + 1..] == p.results[i + 1..] + [x];
    }
  }

  /** A rejected row, just after it: everything but its own answer is as before it. */
  lemma JustAfterRejection(c: Catalog, table: seq<Listing>, rows: seq<Row>, ids: seq<Id>, author: Id, i: nat)
    requires |ids| == |rows| && i < |rows|
    requires var p := BulkAt(c, table, rows, ids, author, i + 1); |p.results| == i + 1 && p.results[i].outcome.Rejected?
    ensures var p, before := BulkAt(c, table, rows, ids, author, i + 1), BulkAt(c, table, rows, ids, author, i);
            before.table == p.table && before.broken == p.broken && before.results == Without(p.results, i)
  {
    hide ValidRow, Fits, Clashes, ErrorMap, RowListing;
    OneResultPerRow(c, table, rows, ids, author, i);
    var p, before := BulkAt(c, table, rows, ids, author, i + 1), BulkAt(c, table, rows, ids, author, i);
    assert p.results == before.results + [p.results[i]];
  }

  lemma WithoutKeepsPrefix<T>(s: seq<T>, i: nat)
    requires i < |s|
    ensures Without(s, i)[..i] == s[..i]
    ensures forall k :: i <= k < |s| - 1 ==> Without(s, i)[k] == s[k + 1]
  {
  }

  /** Leaving out a row that was answered with an error changes neither the table nor any
      other row's answer. */
  lemma {:induction false} ErrorRowsDoNotMatter(c: Catalog, table: seq<Listing>, rows: seq<Row>, ids: seq<Id>,
                                                author: Id, i: nat, k: nat)
    requires |ids| == |rows| && i < k <= |rows|
    requires var p := BulkAt(c, table, rows, ids, author, i + 1); |p.results| == i + 1 && p.results[i].outcome.Rejected?
    ensures var p := BulkAt(c, table, rows, ids, author, k);
            var q := BulkAt(c, table, Without(rows, i), Without(ids, i), author, k - 1);
            && q.table == p.table && q.broken == p.broken
            && i < |p.results| && q.results == Without(p.results, i)
  {
    hide RowStep, Without;
    WithoutKeepsPrefix(rows, i);
    WithoutKeepsPrefix(ids, i);
    if k == i + 1 {
      SamePrefix(c, table, rows, ids, Without(rows, i), Without(ids, i), author, i);
      JustAfterRejection(c, table, rows, ids, author, i);
    } else {
      ErrorRowsDoNotMatter(c, table, rows, ids, author, i, k - 1);
      StepIgnoresEarlierResults(c, BulkAt(c, table, rows, ids, author, k - 1),
                                BulkAt(c, table, Without(rows, i), Without(ids, i), author, k - 2),
                                rows[k - 1], ids[k - 1], author, i);
    }
  }

  // ---- the form ---------------------------------------------------------------------------

  datatype Answer = Accepted(listing: Listing) | NotFound(field: Field) | Duplicate | Broken

  function ActiveLookup(table: seq<Lookup>, id: Id): (r: Option<Lookup>)
    ensures r.Some? ==> r.value in table && r.value.id == id && r.value.active
  {
    First(table, (l: Lookup) => l.id == id && l.active)
  }

  predicate ActiveUser(c: Catalog, id: Id) {
    exists k :: 0 <= k < |c.users| && c.users[k].id == id && c.users[k].active
  }

  predicate SubSellerOf(c: Catalog, id: Id, client: Id) {
    exists k :: 0 <= k < |c.subSellers| && c.subSellers[k].id == id && c.subSellers[k].active
      && c.subSellers[k].seller == client
  }

  /** The first identifier the form rejects. A model of another make is not rejected, and
      the client need not be a seller. */
  function MissingField(c: Catalog, s: Submission): Option<Field> {
    if ActiveLookup(c.makes, s.make).None? then Some(Make)
    else if ActiveLookup(c.models, s.model).None? then Some(Model)
    else if ActiveLookup(c.branches, s.branch).None? then Some(Branch)
    else if ActiveLookup(c.colors, s.color).None? then Some(Color)
    else if ActiveLookup(c.keyOptions, s.keys).None? then Some(Keys)
    else if ActiveLookup(c.fuels, s.fuel).None? then Some(Fuel)
    else if s.bidding.Some? && ActiveLookup(c.biddingModels, s.bidding.value).None? then Some(Bidding)
    else if !ActiveUser(c, s.client) then Some(Client)
    else if s.subSeller.Some? && !SubSellerOf(c, s.subSeller.value, s.client) then Some(SubClient)
    else None
  }

  function FormListing(c: Catalog, s: Submission, id: Id, author: Id): Listing
    requires MissingField(c, s).None?
  {
    NewListing(id, s.(chassis := Strip(s.chassis), plate := Strip(s.plate)),
               ActiveLookup(c.makes, s.make).value, ActiveLookup(c.models, s.model).value,
               ActiveLookup(c.branches, s.branch).value, author)
  }

  function Submit(c: Catalog, table: seq<Listing>, s: Submission, id: Id, author: Id): (seq<Listing>, Answer) {
    var missing := MissingField(c, s);
    if missing.Some? then (table, NotFound(missing.value))
    else
      var l := FormListing(c, s, id, author);
      if !Fits(l) then (table, Broken)
      else if Clashes(table, l) then (table, Duplicate)
      else (table + [l], Accepted(l))
  }

  // ---- the sheet against the form ---------------------------------------------------------

  /** Primary keys. */
  ghost predicate UniqueIds(table: seq<Lookup>) {
    forall i, j :: 0 <= i < |table| && 0 <= j < |table| && table[i].id == table[j].id ==> i == j
  }

  ghost predicate UniqueCatalog(c: Catalog) {
    && UniqueIds(c.makes) && UniqueIds(c.models) && UniqueIds(c.branches) && UniqueIds(c.colors)
    && UniqueIds(c.keyOptions) && UniqueIds(c.fuels) && UniqueIds(c.biddingModels)
  }

  lemma ActiveById(table: seq<Lookup>, l: Lookup)
    requires UniqueIds(table) && l in table && l.active
    ensures ActiveLookup(table, l.id) == Some(l)
  {
  }

  lemma {:induction false} StripTwice(s: string)
    ensures Strip(Strip(s)) == Strip(s)
    decreases |s|
  {
    if s != [] && IsSpace(s[0]) {
      StripTwice(s[1..]);
    } else if s != [] && IsSpace(s[|s| - 1]) {
      StripTwice(s[..|s| - 1]);
    }
  }

  lemma FoundLookups(c: Catalog, row: Row)
    requires UniqueCatalog(c) && ValidRow(c, row)
    ensures var make := Find(c.makes, row.make, None); make.Some? && ActiveLookup(c.makes, make.value.id) == make
    ensures var model := FindModel(c, row); model.Some? && ActiveLookup(c.models, model.value.id) == model
    ensures var branch := Find(c.branches, row.branch, None);
            branch.Some? && ActiveLookup(c.branches, branch.value.id) == branch
    ensures var color := Find(c.colors, row.color, None); color.Some? && ActiveLookup(c.colors, color.value.id) == color
    ensures var keys := Find(c.keyOptions, row.keys, None);
            keys.Some? && ActiveLookup(c.keyOptions, keys.value.id) == keys
    ensures var fuel := Find(c.fuels, row.fuel, None); fuel.Some? && ActiveLookup(c.fuels, fuel.value.id) == fuel
    ensures var bidding := Find(c.biddingModels, row.bidding, None);
            bidding.Some? ==> ActiveLookup(c.biddingModels, bidding.value.id) == bidding
  {
    Resolves(c, row);
    hide ValidRow, ActiveLookup, UniqueIds;
    ActiveById(c.makes, Find(c.makes, row.make, None).value);
    ActiveById(c.models, FindModel(c, row).value);
    ActiveById(c.branches, Find(c.branches, row.branch, None).value);
    ActiveById(c.colors, Find(c.colors, row.color, None).value);
    ActiveById(c.keyOptions, Find(c.keyOptions, row.keys, None).value);
    ActiveById(c.fuels, Find(c.fuels, row.fuel, None).value);
    var bidding := Find(c.biddingModels, row.bidding, None);
    if bidding.Some? { ActiveById(c.biddingModels, bidding.value); }
  }

  lemma FoundPeople(c: Catalog, row: Row)
    requires ValidRow(c, row)
    ensures FindClient(c, row).Some? && ActiveUser(c, FindClient(c, row).value.id)
    ensures var sub := FindSubSeller(c, row); sub.Some? ==> SubSellerOf(c, sub.value.id, FindClient(c, row).value.id)
  {
    Resolves(c, row);
  }

  /** The form finds nothing wrong with the identifiers a valid row resolves to, and would
      store the very same listing. */
  lemma FormAcceptsRow(c: Catalog, row: Row, id: Id, author: Id)
    requires UniqueCatalog(c) && ValidRow(c, row)
    ensures var d := RowListing(c, row, id, author).details;
            MissingField(c, d).None? && FormListing(c, d, id, author) == RowListing(c, row, id, author)
  {
    FoundLookups(c, row);
    FoundPeople(c, row);
    StripTwice(row.chassis);
    StripTwice(row.plate);
    hide ValidRow, Find, FindModel, FindClient, FindSubSeller, ActiveLookup, ActiveUser, SubSellerOf, UniqueCatalog;
    var d := RowListing(c, row, id, author).details;
    assert d.(chassis := Strip(d.chassis), plate := Strip(d.plate)) == d;
  }

  /** Whatever the sheet creates, the form, given the identifiers the row resolves to, would
      create against the same tables: the same listing. */
  lemma SheetAgreesWithForm(c: Catalog, table: seq<Listing>, rows: seq<Row>, ids: seq<Id>, author: Id, i: nat)
    requires |ids| == |rows| && i < |rows| && UniqueCatalog(c)
    requires !BulkAt(c, table, rows, ids, author, |rows|).broken
    ensures var all := BulkAt(c, table, rows, ids, author, |rows|).results;
            |all| == |rows| &&
            (all[i].outcome.Created? ==>
              && ValidRow(c, rows[i])
              && var l := RowListing(c, rows[i], ids[i], author);
                 Submit(c, BulkAt(c, table, rows, ids, author, i).table, l.details, ids[i], author)
                 == (BulkAt(c, table, rows, ids, author, i + 1).table, Accepted(l)))
  {
    hide ValidRow, Fits, Clashes, ErrorMap, RowListing, MissingField, FormListing, UniqueCatalog;
    ResultOf(c, table, rows, ids, author, i);
    if ValidRow(c, rows[i]) { FormAcceptsRow(c, rows[i], ids[i], author); }
  }

  // ---- uniqueness -------------------------------------------------------------------------

  /** The two unique indexes. */
  ghost predicate Indexed(table: seq<Listing>) {
    && (forall i, j :: 0 <= i < j < |table| ==> table[i].id != table[j].id)
    && (forall i, j :: 0 <= i < j < |table| && table[i].Intake? && table[j].Intake?
          ==> table[i].details.chassis != table[j].details.chassis)
  }

  lemma InsertKeepsIndexes(table: seq<Listing>, l: Listing)
    requires Indexed(table) && l.Intake? && !Clashes(table, l)
    ensures Indexed(table + [l])
  {
  }

  /** Neither way in ever stores a chassis number twice. */
  lemma {:induction false} ChassisStaysUnique(c: Catalog, table: seq<Listing>, rows: seq<Row>, ids: seq<Id>,
                                              author: Id, k: nat, s: Submission, id: Id)
    requires |ids| == |rows| && k <= |rows| && Indexed(table)
    ensures Indexed(BulkAt(c, table, rows, ids, author, k).table)
    ensures Indexed(Submit(c, BulkAt(c, table, rows, ids, author, k).table, s, id, author).0)
  {
    hide Indexed, Clashes, ValidRow, Fits, ErrorMap, RowListing, MissingField;
    if k > 0 {
      ChassisStaysUnique(c, table, rows, ids, author, k - 1, s, id);
      var before := BulkAt(c, table, rows, ids, author, k - 1);
      if ValidRow(c, rows[k - 1]) {
        RowListingParts(c, rows[k - 1], ids[k - 1], author);
        var l := RowListing(c, rows[k - 1], ids[k - 1], author);
        if !Clashes(before.table, l) { InsertKeepsIndexes(before.table, l); }
      }
    }
    var now := BulkAt(c, table, rows, ids, author, k).table;
    if MissingField(c, s).None? && !Clashes(now, FormListing(c, s, id, author)) {
      InsertKeepsIndexes(now, FormListing(c, s, id, author));
    }
  }
}
