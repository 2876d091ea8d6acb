/** Seller intake: what a sheet row or a form refers to, what is stored, and when the
    database takes it. Text is compared exactly, but for the case of labels. */
module IntakeDomain {
  import opened Options
  import opened Text

  type Id = nat

  /** A row of any lookup table; only a vehicle model names a make. */
  datatype Lookup = Lookup(id: Id, en: string, ar: string, active: bool, make: Option<Id>)
  datatype User = User(id: Id, first: string, last: string, email: string, active: bool, seller: bool)
  datatype SubSeller = SubSeller(id: Id, seller: Id, name: string, active: bool)

  datatype Catalog = Catalog(
    makes: seq<Lookup>, models: seq<Lookup>, branches: seq<Lookup>, colors: seq<Lookup>,
    keyOptions: seq<Lookup>, fuels: seq<Lookup>, biddingModels: seq<Lookup>,
    users: seq<User>, subSellers: seq<SubSeller>)

  /** A `Decimal`, in cents where it is a number. */
  datatype Amount = Cents(cents: int) | NonFinite

  /** A sheet row. Its year and prices stand for what parsing their text gave. */
  datatype Row = Row(
    number: int, chassis: string, plate: string, make: string, model: string, branch: string, color: string,
    keys: string, fuel: string, bidding: string, year: Option<int>, target: Option<Amount>, minimum: Option<Amount>,
    client: string, subClient: string)

  datatype Submission = Submission(
    chassis: string, plate: string, make: Id, model: Id, branch: Id, color: Id, keys: Id, fuel: Id,
    bidding: Option<Id>, year: int, target: Amount, minimum: Amount, client: Id, subSeller: Option<Id>,
    document: Option<string>, terms: bool)

  datatype Listing =
    | Curated(id: Id) // not from intake, so without a chassis number
    | Intake(id: Id, details: Submission, titleEn: string, titleAr: string, locationEn: string, locationAr: string,
             createdBy: Id)

  datatype Field =
    | Chassis | Plate | Make | Model | Branch | Color | Keys | Fuel | Bidding | Year
    | Target | Minimum | Client | SubClient

  datatype Problem = Required | Unknown | UnknownForParent | Invalid | AlreadySubmitted

  /** `chassis` is the stored one for a created row, else the cell, None if empty. */
  datatype RowResult = RowResult(number: int, chassis: Option<string>, outcome: RowOutcome)
  datatype RowOutcome = Created(vehicle: Id) | Rejected(errors: map<Field, Problem>)

  // ---- resolving labels -------------------------------------------------------------

  predicate Labelled(l: Lookup, cell: string, make: Option<Id>) {
    l.active && (Lower(l.en) == Lower(cell) || Lower(l.ar) == Lower(cell)) && (make.Some? ==> l.make == make)
  }

  predicate CalledClient(u: User, name: string) {
    u.active && u.seller && (Lower(u.first + " " + u.last) == Lower(name) || Lower(u.email) == Lower(name))
  }

  predicate CalledSubSeller(s: SubSeller, client: Id, name: string) {
    s.active && s.seller == client && Lower(s.name) == Lower(name)
  }

  function First<T>(table: seq<T>, p: T -> bool): (r: Option<T>)
    ensures r.Some? ==> r.value in table && p(r.value)
    ensures r.None? ==> forall x :: x in table ==> !p(x)
  {
    if table == [] then None else if p(table[0]) then Some(table[0]) else First(table[1..], p)
  }

  /** A blank cell resolves to nothing. */
  function Find(table: seq<Lookup>, cell: string, make: Option<Id>): (r: Option<Lookup>)
    ensures r.Some? ==> r.value in table && Labelled(r.value, cell, make)
  {
    if Blank(cell) then None else First(table, (l: Lookup) => Labelled(l, cell, make))
  }

  function FindModel(c: Catalog, row: Row): Option<Lookup> {
    var make := Find(c.makes, row.make, None);
    if make.None? then None else Find(c.models, row.model, Some(make.value.id))
  }

  function FindClient(c: Catalog, row: Row): (r: Option<User>)
    ensures r.Some? ==> r.value in c.users && CalledClient(r.value, row.client)
  {
    if Blank(row.client) then None else First(c.users, (u: User) => CalledClient(u, row.client))
  }

  function FindSubSeller(c: Catalog, row: Row): (r: Option<SubSeller>)
    ensures r.Some? ==> FindClient(c, row).Some? && r.value in c.subSellers
                        && CalledSubSeller(r.value, FindClient(c, row).value.id, row.subClient)
  {
    var client := FindClient(c, row);
    if Blank(row.subClient) || client.None? then None
    else First(c.subSellers, (s: SubSeller) => CalledSubSeller(s, client.value.id, row.subClient))
  }

  // ---- validation -------------------------------------------------------------------

  function Unless(ok: bool, p: Problem): Option<Problem> {
    if ok then None else Some(p)
  }

  /** What is wrong with one cell of the row. */
  function ProblemWith(c: Catalog, row: Row, f: Field): Option<Problem> {
    match f
    case Chassis => Unless(!Blank(row.chassis), Required)
    case Plate => Unless(!Blank(row.plate), Required)
    case Make => Unless(Find(c.makes, row.make, None).Some?, Unknown)
    case Model =>
      if Blank(row.model) then Some(Required)
      else if Find(c.makes, row.make, None).None? then Some(Unknown)
      else Unless(FindModel(c, row).Some?, UnknownForParent)
    case Branch => Unless(Find(c.branches, row.branch, None).Some?, Unknown)
    case Color => Unless(Find(c.colors, row.color, None).Some?, Unknown)
    case Keys => Unless(Find(c.keyOptions, row.keys, None).Some?, Unknown)
    case Fuel => Unless(Find(c.fuels, row.fuel, None).Some?, Unknown)
    case Bidding => Unless(Blank(row.bidding) || Find(c.biddingModels, row.bidding, None).Some?, Unknown)
    case Year => Unless(row.year.Some?, Invalid)
    case Target => Unless(row.target.Some?, Invalid)
    case Minimum => Unless(row.minimum.Some?, Invalid)
    case Client => Unless(FindClient(c, row).Some?, Unknown)
    case SubClient =>
      Unless(Blank(row.subClient) || FindClient(c, row).None? || FindSubSeller(c, row).Some?, UnknownForParent)
  }

  ghost predicate ValidRow(c: Catalog, row: Row) {
    forall f: Field :: ProblemWith(c, row, f).None?
  }

  lemma CellIsFine(c: Catalog, row: Row, f: Field)
    requires ValidRow(c, row)
    ensures ProblemWith(c, row, f).None?
  {
  }

  /** Every cell of a valid row resolves. */
  lemma Resolves(c: Catalog, row: Row)
    requires ValidRow(c, row)
    ensures !Blank(row.chassis) && !Blank(row.plate)
    ensures Find(c.makes, row.make, None).Some? && FindModel(c, row).Some? && Find(c.branches, row.branch, None).Some?
    ensures Find(c.colors, row.color, None).Some? && Find(c.keyOptions, row.keys, None).Some?
    ensures Find(c.fuels, row.fuel, None).Some? && FindClient(c, row).Some?
    ensures row.year.Some? && row.target.Some? && row.minimum.Some?
  {
    hide Find, FindModel, FindClient, FindSubSeller, Blank, ValidRow;
    CellIsFine(c, row, Chassis); CellIsFine(c, row, Plate); CellIsFine(c, row, Make); CellIsFine(c, row, Model);
    CellIsFine(c, row, Branch); CellIsFine(c, row, Color); CellIsFine(c, row, Keys); CellIsFine(c, row, Fuel);
    CellIsFine(c, row, Client); CellIsFine(c, row, Year); CellIsFine(c, row, Target); CellIsFine(c, row, Minimum);
  }

  // ---- listings -----------------------------------------------------------------------

  function Title(make: string, model: string, year: int): string {
    make + " " + model + " " + IntText(year)
  }

  /** What both paths store, given the rows the identifiers name. */
  function NewListing(id: Id, d: Submission, make: Lookup, model: Lookup, branch: Lookup, author: Id): Listing {
    Intake(id, d, Title(make.en, model.en, d.year), Title(make.ar, model.ar, d.year), branch.en, branch.ar, author)
  }

  function IdOf(l: Option<Lookup>): Option<Id> {
    if l.Some? then Some(l.value.id) else None
  }

  ghost function RowListing(c: Catalog, row: Row, id: Id, author: Id): Listing
    requires ValidRow(c, row)
  {
    Resolves(c, row);
    var make, model, branch := Find(c.makes, row.make, None).value, FindModel(c, row).value,
      Find(c.branches, row.branch, None).value;
    var subSeller := FindSubSeller(c, row);
    var d := Submission(
      Strip(row.chassis), Strip(row.plate), make.id, model.id, branch.id,
      Find(c.colors, row.color, None).value.id, Find(c.keyOptions, row.keys, None).value.id,
      Find(c.fuels, row.fuel, None).value.id,
      IdOf(Find(c.biddingModels, row.bidding, None)), row.year.value, row.target.value, row.minimum.value,
      FindClient(c, row).value.id, if subSeller.Some? then Some(subSeller.value.id) else None, None, true);
    NewListing(id, d, make, model, branch, author)
  }

  predicate FitsMoney(a: Amount) {
    a.Cents? && -1_000_000_000_000 < a.cents < 1_000_000_000_000
  }

  /** The listing's values fit their columns; otherwise the insert raises a `DataError`. */
  predicate Fits(l: Listing) {
    l.Intake? ==>
      && |l.details.chassis| <= 100 && |l.details.plate| <= 50
      && |l.titleEn| <= 200 && |l.titleAr| <= 200
      && -0x8000_0000 <= l.details.year < 0x8000_0000
      && FitsMoney(l.details.target) && FitsMoney(l.details.minimum)
      && (l.details.document.Some? ==> |l.details.document.value| <= 500)
  }

  predicate Taken(table: seq<Listing>, chassis: string) {
    exists k :: 0 <= k < |table| && table[k].Intake? && table[k].details.chassis == chassis
  }

  /** Primary key or unique chassis number: the insert raises an `IntegrityError`. */
  predicate Clashes(table: seq<Listing>, l: Listing)
    requires l.Intake?
  {
    (exists k :: 0 <= k < |table| && table[k].id == l.id) || Taken(table, l.details.chassis)
  }
}
