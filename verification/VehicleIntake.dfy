/** The intake service: lookups by scanning, the error dictionary of a row, and one commit
    or rollback per row. */
module VehicleIntake {
  import opened Options
  import opened Text
  import opened IntakeDomain
  import opened IntakePaths
  import opened IntakeAnswers

  class Service {
    const catalog: Catalog
    var listings: seq<Listing>

    constructor (catalog: Catalog, listings: seq<Listing>)
      ensures this.catalog == catalog && this.listings == listings
    {
      this.catalog, this.listings := catalog, listings;
    }

    /** `scalars().first()`, in the table's order. */
    method Scan<T>(table: seq<T>, p: T -> bool) returns (r: Option<T>)
      ensures r == First(table, p)
    {
      r := None;
      var i := 0;
      while i < |table| && r.None?
        invariant 0 <= i <= |table|
        invariant First(table, p) == if r.Some? then r else First(table[i..], p)
      {
        if p(table[i]) { r := Some(table[i]); }
        i := i + 1;
      }
    }

    /** `_find_lookup_by_label` behind the caller's test for a blank cell. */
    method FindByLabel(table: seq<Lookup>, cell: string, make: Option<Id>) returns (r: Option<Lookup>)
      ensures r == Find(table, cell, make)
    {
      if Blank(cell) { return None; }
      r := Scan(table, (l: Lookup) => Labelled(l, cell, make));
    }

    /** The checks of a row, in order; none stops at the first problem. */
    method Validate(row: Row) returns (errors: map<Field, Problem>)
      ensures errors == ErrorMap(catalog, row)
      ensures errors == map[] <==> ValidRow(catalog, row)
    {
      hide *;
      NothingChecked(catalog, row);
      errors := CheckVehicle(row, map[]);
      errors := CheckLookups(row, errors);
      errors := CheckNumbers(row, errors);
      errors := CheckPeople(row, errors);
      AllChecked(catalog, row);
    }

    method CheckVehicle(row: Row, before: map<Field, Problem>) returns (errors: map<Field, Problem>)
      requires before == Part(catalog, row, 0)
      ensures errors == Part(catalog, row, 4)
    {
      hide Find, Blank, Part, FindClient, FindSubSeller;
      errors := before;
      if Blank(row.chassis) { errors := errors[Chassis := Required]; }
      Checked(catalog, row, Chassis);
      if Blank(row.plate) { errors := errors[Plate := Required]; }
      Checked(catalog, row, Plate);
      var make := FindByLabel(catalog.makes, row.make, None);
      if make.None? { errors := errors[Make := Unknown]; }
      Checked(catalog, row, Make);
      if !Blank(row.model) {
        if make.Some? {
          var model := FindByLabel(catalog.models, row.model, Some(make.value.id));
          if model.None? { errors := errors[Model := UnknownForParent]; }
        } else {
          errors := errors[Model := Unknown];
        }
      } else {
        errors := errors[Model := Required];
      }
      Checked(catalog, row, Model);
    }

    method CheckLookups(row: Row, before: map<Field, Problem>) returns (errors: map<Field, Problem>)
      requires before == Part(catalog, row, 4)
      ensures errors == Part(catalog, row, 9)
    {
      hide Find, Blank, Part, FindModel, FindClient, FindSubSeller;
      errors := before;
      var branch := FindByLabel(catalog.branches, row.branch, None);
      if branch.None? { errors := errors[Branch := Unknown]; }
      Checked(catalog, row, Branch);
      var color := FindByLabel(catalog.colors, row.color, None);
      if color.None? { errors := errors[Color := Unknown]; }
      Checked(catalog, row, Color);
      var keys := FindByLabel(catalog.keyOptions, row.keys, None);
      if keys.None? { errors := errors[Keys := Unknown]; }
      Checked(catalog, row, Keys);
      var fuel := FindByLabel(catalog.fuels, row.fuel, None);
      if fuel.None? { errors := errors[Fuel := Unknown]; }
      Checked(catalog, row, Fuel);
      if !Blank(row.bidding) {
        var bidding := FindByLabel(catalog.biddingModels, row.bidding, None);
        if bidding.None? { errors := errors[Bidding := Unknown]; }
      }
      Checked(catalog, row, Bidding);
    }

    method CheckNumbers(row: Row, before: map<Field, Problem>) returns (errors: map<Field, Problem>)
      requires before == Part(catalog, row, 9)
      ensures errors == Part(catalog, row, 12)
    {
      hide Find, Blank, Part, FindModel, FindClient, FindSubSeller;
      errors := before;
      if row.year.None? { errors := errors[Year := Invalid]; }
      Checked(catalog, row, Year);
      if row.target.None? { errors := errors[Target := Invalid]; }
      Checked(catalog, row, Target);
      if row.minimum.None? { errors := errors[Minimum := Invalid]; }
      Checked(catalog, row, Minimum);
    }

    method CheckPeople(row: Row, before: map<Field, Problem>) returns (errors: map<Field, Problem>)
      requires before == Part(catalog, row, 12)
      ensures errors == Part(catalog, row, 14)
    {
      hide Find, Blank, Part, FindModel, FindClient;
      errors := before;
      var client := FindClientByName(row);
      if client.None? { errors := errors[Client := Unknown]; }
      Checked(catalog, row, Client);
      if !Blank(row.subClient) && client.Some? {
        var subSeller := Scan(catalog.subSellers, (s: SubSeller) => CalledSubSeller(s, client.value.id, row.subClient));
        if subSeller.None? { errors := errors[SubClient := UnknownForParent]; }
      }
      Checked(catalog, row, SubClient);
    }

    /** `_find_client_by_name` behind the caller's test for a blank cell. */
    method FindClientByName(row: Row) returns (r: Option<User>)
      ensures r == FindClient(catalog, row)
    {
      r := None;
      if !Blank(row.client) { r := Scan(catalog.users, (u: User) => CalledClient(u, row.client)); }
    }

    /** `add` and `commit`: the row is stored, or the transaction is rolled back. */
    method Insert(l: Listing) returns (stored: bool, dataError: bool)
      requires l.Intake?
      modifies this`listings
      ensures dataError == !Fits(l)
      ensures stored == (Fits(l) && !Clashes(old(listings), l))
      ensures listings == if stored then old(listings) + [l] else old(listings)
    {
      if !Fits(l) { return false, true; }
      dataError := false;
      var clash := false;
      var i := 0;
      while i < |listings|
        invariant 0 <= i <= |listings|
        invariant clash <==> exists k :: 0 <= k < i && ClashesWith(listings[k], l)
      {
        if ClashesWith(listings[i], l) { clash := true; }
        i := i + 1;
      }
      assert clash <==> Clashes(listings, l) by {
        if Clashes(listings, l) {
          var k :| 0 <= k < |listings| && ClashesWith(listings[k], l);
        }
      }
      stored := !clash;
      if stored { listings := listings + [l]; }
    }

    /** The listing of a row without errors. */
    method Resolve(row: Row, id: Id, author: Id) returns (l: Listing)
      requires ValidRow(catalog, row)
      ensures l == RowListing(catalog, row, id, author)
    {
      Resolves(catalog, row);
      hide ValidRow;
      var make := FindByLabel(catalog.makes, row.make, None);
      var model := FindByLabel(catalog.models, row.model, Some(make.value.id));
      var branch := FindByLabel(catalog.branches, row.branch, None);
      var color := FindByLabel(catalog.colors, row.color, None);
      var keys := FindByLabel(catalog.keyOptions, row.keys, None);
      var fuel := FindByLabel(catalog.fuels, row.fuel, None);
      var bidding := FindByLabel(catalog.biddingModels, row.bidding, None);
      var client := FindClient(catalog, row);
      var subSeller := FindSubSeller(catalog, row);
      var d := Submission(
        Strip(row.chassis), Strip(row.plate), make.value.id, model.value.id, branch.value.id, color.value.id,
        keys.value.id, fuel.value.id, if bidding.Some? then Some(bidding.value.id) else None,
        row.year.value, row.target.value, row.minimum.value, client.value.id,
        if subSeller.Some? then Some(subSeller.value.id) else None, None, true);
      l := Intake(id, d, Title(make.value.en, model.value.en, d.year), Title(make.value.ar, model.value.ar, d.year),
                  branch.value.en, branch.value.ar, author);
    }

    /** `_create_bulk_row`. No result means a `DataError` left the method. */
    method CreateBulkRow(row: Row, id: Id, author: Id) returns (r: Option<RowResult>)
      modifies this`listings
      ensures var p := RowStep(catalog, Progress(old(listings), [], false), row, id, author);
              && listings == p.table && (r.None? <==> p.broken) && p.results == if r.Some? then [r.value] else []
    {
      var errors := Validate(row);
      if errors != map[] {
        return Some(RowResult(row.number, if row.chassis == [] then None else Some(row.chassis), Rejected(errors)));
      }
      var l := Resolve(row, id, author);
      hide ValidRow, Fits, Clashes, ErrorMap;
      RowListingParts(catalog, row, id, author);
      var stored, dataError := Insert(l);
      if dataError { return None; }
      if !stored {
        return Some(RowResult(row.number, if row.chassis == [] then None else Some(row.chassis),
                              Rejected(map[Chassis := AlreadySubmitted])));
      }
      r := Some(RowResult(row.number, Some(l.details.chassis), Created(id)));
    }

    /** `bulk_create_vehicle_submissions`. A `DataError` ends the request; the rows before it
        keep their commits. */
    method BulkCreate(rows: seq<Row>, ids: seq<Id>, author: Id) returns (results: seq<RowResult>, completed: bool)
      requires |ids| == |rows|
      modifies this`listings
      ensures var p := BulkAt(catalog, old(listings), rows, ids, author, |rows|);
              listings == p.table && results == p.results && completed == !p.broken
    {
      results, completed := [], true;
      var i := 0;
      NoRows(catalog, listings, rows, ids, author);
      hide *;
      while i < |rows|
        invariant 0 <= i <= |rows| && completed
        invariant BulkAt(catalog, old(listings), rows, ids, author, i) == Progress(listings, results, false)
      {
        NextRow(catalog, old(listings), rows, ids, author, i, listings, results);
        var r := CreateBulkRow(rows[i], ids[i], author);
        if r.None? { return results, false; }
        results := results + [r.value];
        i := i + 1;
      }
    }

    lemma FormAnswers(s: Submission, id: Id, author: Id)
      ensures var a := Submit(catalog, listings, s, id, author).1;
              && (forall f :: a == NotFound(f) <==> FirstUnidentified(catalog, s, f))
              && (a.Accepted? ==> Stores(catalog, s, id, author, a.listing))
    {
      hide Submit, FirstUnidentified, Identifies, Stores;
      forall f
        ensures Submit(catalog, listings, s, id, author).1 == NotFound(f) <==> FirstUnidentified(catalog, s, f)
      {
        FormRefusesExactly(catalog, listings, s, id, author, f);
      }
      FormRefusesExactly(catalog, listings, s, id, author, Make);
      if forall f: Field :: Identifies(catalog, s, f) {
        var l := FormTakesExactly(catalog, listings, s, id, author);
      }
    }

    /** `create_vehicle_submission`. */
    method CreateSubmission(s: Submission, id: Id, author: Id) returns (a: Answer)
      modifies this`listings
      ensures (listings, a) == Submit(catalog, old(listings), s, id, author)
      ensures forall f :: a == NotFound(f) <==> FirstUnidentified(catalog, s, f)
      ensures a.Accepted? ==> Stores(catalog, s, id, author, a.listing)
    {
      FormAnswers(s, id, author);
      var make := ActiveLookup(catalog.makes, s.make);
      if make.None? { return NotFound(Make); }
      var model := ActiveLookup(catalog.models, s.model);
      if model.None? { return NotFound(Model); }
      var branch := ActiveLookup(catalog.branches, s.branch);
      if branch.None? { return NotFound(Branch); }
      var checks := [(Color, catalog.colors, s.color), (Keys, catalog.keyOptions, s.keys),
                     (Fuel, catalog.fuels, s.fuel)];
      var i := 0;
      while i < |checks|
        invariant 0 <= i <= |checks|
        invariant forall j :: 0 <= j < i ==> ActiveLookup(checks[j].1, checks[j].2).Some?
      {
        if ActiveLookup(checks[i].1, checks[i].2).None? {
          assert forall j :: 0 <= j < i ==> ActiveLookup(checks[j].1, checks[j].2).Some?;
          assert i > 0 ==> ActiveLookup(checks[0].1, checks[0].2).Some?;
          assert i > 1 ==> ActiveLookup(checks[1].1, checks[1].2).Some?;
          return NotFound(checks[i].0);
        }
        i := i + 1;
      }
      assert ActiveLookup(checks[0].1, checks[0].2).Some? && ActiveLookup(checks[1].1, checks[1].2).Some?
        && ActiveLookup(checks[2].1, checks[2].2).Some?;
      if s.bidding.Some? && ActiveLookup(catalog.biddingModels, s.bidding.value).None? { return NotFound(Bidding); }
      if !ActiveUser(catalog, s.client) { return NotFound(Client); }
      if s.subSeller.Some? && !SubSellerOf(catalog, s.subSeller.value, s.client) { return NotFound(SubClient); }
      var l := Intake(id, s.(chassis := Strip(s.chassis), plate := Strip(s.plate)),
                      Title(make.value.en, model.value.en, s.year), Title(make.value.ar, model.value.ar, s.year),
                      branch.value.en, branch.value.ar, author);
      hide Fits, Clashes, ActiveLookup, ActiveUser, SubSellerOf;
      var stored, dataError := Insert(l);
      a := if dataError then Broken else if stored then Accepted(l) else Duplicate;
    }
  }

  // ---- facts about the specification that the methods use ---------------------------------

  predicate ClashesWith(stored: Listing, l: Listing)
    requires l.Intake?
  {
    stored.id == l.id || (stored.Intake? && stored.details.chassis == l.details.chassis)
  }

  /** The order of the checks. */
  function Order(f: Field): (n: nat)
    ensures n < 14
  {
    match f
    case Chassis => 0 case Plate => 1 case Make => 2 case Model => 3 case Branch => 4 case Color => 5 case Keys => 6
    case Fuel => 7 case Bidding => 8 case Year => 9 case Target => 10 case Minimum => 11 case Client => 12
    case SubClient => 13
  }

  lemma OrderIsStrict(f: Field, g: Field)
    requires Order(f) == Order(g)
    ensures f == g
  {
  }

  /** The error dictionary after the first `n` checks. */
  function Part(c: Catalog, row: Row, n: nat): map<Field, Problem> {
    map f: Field | Order(f) < n && ProblemWith(c, row, f).Some? :: ProblemWith(c, row, f).value
  }

  lemma NothingChecked(c: Catalog, row: Row)
    ensures Part(c, row, 0) == map[]
  {
  }

  lemma Checked(c: Catalog, row: Row, f: Field)
    ensures var before := Part(c, row, Order(f));
            Part(c, row, Order(f) + 1)
            == match ProblemWith(c, row, f) case Some(p) => before[f := p] case None => before
  {
    hide ProblemWith;
    forall g: Field ensures Order(g) < Order(f) + 1 <==> Order(g) < Order(f) || g == f {
      if Order(g) == Order(f) { OrderIsStrict(f, g); }
    }
  }

  lemma AllChecked(c: Catalog, row: Row)
    ensures Part(c, row, 14) == ErrorMap(c, row)
    ensures ErrorMap(c, row) == map[] <==> ValidRow(c, row)
  {
    hide ProblemWith;
    NoErrorsMeansValid(c, row);
  }

  lemma NoErrorsMeansValid(c: Catalog, row: Row)
    ensures ErrorMap(c, row) == map[] <==> ValidRow(c, row)
  {
    hide ProblemWith;
    if ErrorMap(c, row) == map[] {
      forall f: Field ensures ProblemWith(c, row, f).None? { assert f !in ErrorMap(c, row); }
    }
  }

  lemma NoRows(c: Catalog, table: seq<Listing>, rows: seq<Row>, ids: seq<Id>, author: Id)
    requires |ids| == |rows|
    ensures BulkAt(c, table, rows, ids, author, 0) == Progress(table, [], false)
  {
  }

  /** A row is handled the same whatever answers came before it, and one that raises ends
      the request. */
  lemma NextRow(c: Catalog, table: seq<Listing>, rows: seq<Row>, ids: seq<Id>, author: Id, i: nat,
                now: seq<Listing>, results: seq<RowResult>)
    requires |ids| == |rows| && i < |rows| && BulkAt(c, table, rows, ids, author, i) == Progress(now, results, false)
    ensures var q := RowStep(c, Progress(now, [], false), rows[i], ids[i], author);
            && BulkAt(c, table, rows, ids, author, i + 1) == Progress(q.table, results + q.results, q.broken)
            && (q.broken ==>
                  BulkAt(c, table, rows, ids, author, |rows|) == Progress(q.table, results + q.results, true))
  {
    hide ValidRow, Fits, Clashes, ErrorMap, RowListing;
    if BulkAt(c, table, rows, ids, author, i + 1).broken {
      BulkStaysBroken(c, table, rows, ids, author, i + 1, |rows|);
    }
  }

  lemma {:induction false} BulkStaysBroken(c: Catalog, table: seq<Listing>, rows: seq<Row>, ids: seq<Id>,
                                           author: Id, j: nat, k: nat)
    requires |ids| == |rows| && j <= k <= |rows| && BulkAt(c, table, rows, ids, author, j).broken
    ensures BulkAt(c, table, rows, ids, author, k) == BulkAt(c, table, rows, ids, author, j)
    decreases k
  {
    hide ValidRow, Fits, Clashes, ErrorMap, RowListing;
    if j < k { BulkStaysBroken(c, table, rows, ids, author, j, k - 1); }
  }
}
