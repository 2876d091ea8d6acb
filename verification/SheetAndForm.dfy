/** Which submissions of the form a sheet row can express. */
module SheetAndForm {
  import opened Options
  import opened Text
  import opened IntakeDomain
  import opened IntakePaths

  // ---- names that reach a row -----------------------------------------------------------

  lemma {:induction false} BlankMeansSpaces(s: string)
    ensures Blank(s) <==> forall i :: 0 <= i < |s| ==> IsSpace(s[i])
    decreases |s|
  {
    if s != [] && IsSpace(s[0]) {
      BlankMeansSpaces(s[1..]);
      assert forall i :: 0 < i < |s| ==> s[i] == s[1..][i - 1];
    } else if s != [] && IsSpace(s[|s| - 1]) {
      BlankMeansSpaces(s[..|s| - 1]);
      assert forall i :: 0 <= i < |s| - 1 ==> s[i] == s[..|s| - 1][i];
    }
  }

  lemma SameCaseSameBlank(x: string, y: string)
    requires Lower(x) == Lower(y)
    ensures Blank(x) <==> Blank(y)
  {
    BlankMeansSpaces(x);
    BlankMeansSpaces(y);
    forall i | 0 <= i < |x| ensures IsSpace(x[i]) <==> IsSpace(y[i]) {
      assert Lower(x)[i] == LowerChar(x[i]) && Lower(y)[i] == LowerChar(y[i]);
    }
  }

  lemma {:induction false} SameTestSameFirst<T>(table: seq<T>, p: T -> bool, q: T -> bool)
    requires forall x :: x in table ==> p(x) == q(x)
    ensures First(table, p) == First(table, q)
  {
    if table != [] { SameTestSameFirst(table[1..], p, q); }
  }

  lemma FindIgnoresCase(table: seq<Lookup>, x: string, y: string, make: Option<Id>)
    requires Lower(x) == Lower(y)
    ensures Find(table, x, make) == Find(table, y, make)
  {
    SameCaseSameBlank(x, y);
    SameTestSameFirst(table, (l: Lookup) => Labelled(l, x, make), (l: Lookup) => Labelled(l, y, make));
  }

  /** One of the row's own names leads to it: the name is not blank, the row is active and
      under the make, and no active row before it shares the name. */
  ghost predicate Nameable(table: seq<Lookup>, id: Id, make: Option<Id>) {
    exists k :: 0 <= k < |table| && table[k].id == id && NamesItself(table, table[k], make)
  }

  predicate NamesItself(table: seq<Lookup>, l: Lookup, make: Option<Id>) {
    Find(table, l.en, make) == Some(l) || Find(table, l.ar, make) == Some(l)
  }

  lemma CellNamesItself(table: seq<Lookup>, cell: string, make: Option<Id>)
    requires Find(table, cell, make).Some?
    ensures Nameable(table, Find(table, cell, make).value.id, make)
  {
    var l := Find(table, cell, make).value;
    if Lower(l.en) == Lower(cell) {
      FindIgnoresCase(table, l.en, cell, make);
    } else {
      FindIgnoresCase(table, l.ar, cell, make);
    }
    var k :| 0 <= k < |table| && table[k] == l;
    assert NamesItself(table, table[k], make);
  }

  /** The cell to write. */
  lemma NameFor(table: seq<Lookup>, id: Id, make: Option<Id>) returns (cell: string)
    requires Nameable(table, id, make)
    ensures Find(table, cell, make).Some? && Find(table, cell, make).value.id == id && !Blank(cell)
  {
    var k :| 0 <= k < |table| && table[k].id == id && NamesItself(table, table[k], make);
    cell := if Find(table, table[k].en, make) == Some(table[k]) then table[k].en else table[k].ar;
  }

  function ClientFor(c: Catalog, cell: string): Option<User> {
    if Blank(cell) then None else First(c.users, (u: User) => CalledClient(u, cell))
  }

  function FullName(u: User): string {
    u.first + " " + u.last
  }

  ghost predicate ClientNameable(c: Catalog, id: Id) {
    exists k :: 0 <= k < |c.users| && c.users[k].id == id && ClientNamesItself(c, c.users[k])
  }

  predicate ClientNamesItself(c: Catalog, u: User) {
    ClientFor(c, FullName(u)) == Some(u) || ClientFor(c, u.email) == Some(u)
  }

  lemma ClientIgnoresCase(c: Catalog, x: string, y: string)
    requires Lower(x) == Lower(y)
    ensures ClientFor(c, x) == ClientFor(c, y)
  {
    SameCaseSameBlank(x, y);
    SameTestSameFirst(c.users, (u: User) => CalledClient(u, x), (u: User) => CalledClient(u, y));
  }

  lemma CellNamesClient(c: Catalog, cell: string)
    requires ClientFor(c, cell).Some?
    ensures ClientNameable(c, ClientFor(c, cell).value.id)
  {
    var u := ClientFor(c, cell).value;
    if Lower(u.email) == Lower(cell) {
      ClientIgnoresCase(c, u.email, cell);
    } else {
      ClientIgnoresCase(c, FullName(u), cell);
    }
    var k :| 0 <= k < |c.users| && c.users[k] == u;
    assert ClientNamesItself(c, c.users[k]);
  }

  lemma ClientNameFor(c: Catalog, id: Id) returns (cell: string)
    requires ClientNameable(c, id)
    ensures ClientFor(c, cell).Some? && ClientFor(c, cell).value.id == id && !Blank(cell)
  {
    var k :| 0 <= k < |c.users| && c.users[k].id == id && ClientNamesItself(c, c.users[k]);
    cell := if ClientFor(c, FullName(c.users[k])) == Some(c.users[k]) then FullName(c.users[k]) else c.users[k].email;
  }

  function SubSellerFor(c: Catalog, client: Id, cell: string): Option<SubSeller> {
    if Blank(cell) then None else First(c.subSellers, (s: SubSeller) => CalledSubSeller(s, client, cell))
  }

  ghost predicate SubSellerNameable(c: Catalog, id: Id, client: Id) {
    exists k :: 0 <= k < |c.subSellers| && c.subSellers[k].id == id
                && SubSellerFor(c, client, c.subSellers[k].name) == Some(c.subSellers[k])
  }

  lemma CellNamesSubSeller(c: Catalog, client: Id, cell: string)
    requires SubSellerFor(c, client, cell).Some?
    ensures SubSellerNameable(c, SubSellerFor(c, client, cell).value.id, client)
  {
    var s := SubSellerFor(c, client, cell).value;
    SameCaseSameBlank(s.name, cell);
    SameTestSameFirst(c.subSellers, (x: SubSeller) => CalledSubSeller(x, client, s.name),
                      (x: SubSeller) => CalledSubSeller(x, client, cell));
    var k :| 0 <= k < |c.subSellers| && c.subSellers[k] == s;
  }

  // ---- the condition ------------------------------------------------------------------

  /** What the sheet can say: texts that are not blank, no document, the terms accepted, the
      model under its make, and every row reachable by one of its names. */
  ghost predicate SheetCanSay(c: Catalog, s: Submission) {
    && !Blank(s.chassis) && !Blank(s.plate) && s.document == None && s.terms
    && Nameable(c.makes, s.make, None) && Nameable(c.models, s.model, Some(s.make))
    && Nameable(c.branches, s.branch, None) && Nameable(c.colors, s.color, None)
    && Nameable(c.keyOptions, s.keys, None) && Nameable(c.fuels, s.fuel, None)
    && (s.bidding.Some? ==> Nameable(c.biddingModels, s.bidding.value, None))
    && ClientNameable(c, s.client)
    && (s.subSeller.Some? ==> SubSellerNameable(c, s.subSeller.value, s.client))
  }

  function Stripped(s: Submission): Submission {
    s.(chassis := Strip(s.chassis), plate := Strip(s.plate))
  }

  lemma RowSays(c: Catalog, row: Row, id: Id, author: Id, s: Submission)
    requires ValidRow(c, row) && RowListing(c, row, id, author).details == Stripped(s)
    ensures SheetCanSay(c, s)
  {
    Resolves(c, row);
    CellNamesItself(c.makes, row.make, None);
    CellNamesItself(c.models, row.model, Some(s.make));
    CellNamesItself(c.branches, row.branch, None);
    CellNamesItself(c.colors, row.color, None);
    CellNamesItself(c.keyOptions, row.keys, None);
    CellNamesItself(c.fuels, row.fuel, None);
    if s.bidding.Some? { CellNamesItself(c.biddingModels, row.bidding, None); }
    ListingKeepsItsRow(c, row, id, author);
    assert FindClient(c, row) == ClientFor(c, row.client);
    CellNamesClient(c, row.client);
    if s.subSeller.Some? {
      assert FindSubSeller(c, row) == SubSellerFor(c, s.client, row.subClient);
      CellNamesSubSeller(c, s.client, row.subClient);
    }
  }

  /** Every cell resolves to what the submission names. */
  ghost predicate Spells(c: Catalog, row: Row, s: Submission) {
    && row.chassis == s.chassis && row.plate == s.plate && row.year == Some(s.year)
    && row.target == Some(s.target) && row.minimum == Some(s.minimum)
    && IdOf(Find(c.makes, row.make, None)) == Some(s.make) && !Blank(row.model)
    && IdOf(Find(c.models, row.model, Some(s.make))) == Some(s.model)
    && IdOf(Find(c.branches, row.branch, None)) == Some(s.branch)
    && IdOf(Find(c.colors, row.color, None)) == Some(s.color)
    && IdOf(Find(c.keyOptions, row.keys, None)) == Some(s.keys) && IdOf(Find(c.fuels, row.fuel, None)) == Some(s.fuel)
    && (Blank(row.bidding) <==> s.bidding.None?) && IdOf(Find(c.biddingModels, row.bidding, None)) == s.bidding
    && ClientFor(c, row.client).Some? && ClientFor(c, row.client).value.id == s.client
    && (Blank(row.subClient) <==> s.subSeller.None?)
    && (s.subSeller.Some? ==>
          && SubSellerFor(c, s.client, row.subClient).Some?
          && SubSellerFor(c, s.client, row.subClient).value.id == s.subSeller.value)
  }

  lemma SpelledRowIsValid(c: Catalog, row: Row, s: Submission)
    requires Spells(c, row, s) && !Blank(s.chassis) && !Blank(s.plate)
    ensures ValidRow(c, row)
  {
    hide Spells, Blank;
    forall f: Field ensures ProblemWith(c, row, f).None? { SpelledCellIsFine(c, row, s, f); }
  }

  lemma SpelledCellIsFine(c: Catalog, row: Row, s: Submission, f: Field)
    requires Spells(c, row, s) && !Blank(s.chassis) && !Blank(s.plate)
    ensures ProblemWith(c, row, f).None?
  {
    assert FindClient(c, row) == ClientFor(c, row.client);
    assert FindSubSeller(c, row) == SubSellerFor(c, s.client, row.subClient);
    hide Find, First, ClientFor, SubSellerFor, FindClient, FindSubSeller, Blank;
  }

  lemma SpelledRowListing(c: Catalog, row: Row, s: Submission, id: Id, author: Id)
    requires Spells(c, row, s) && ValidRow(c, row) && s.document == None && s.terms
    ensures RowListing(c, row, id, author).Intake? && RowListing(c, row, id, author).details == Stripped(s)
  {
    Resolves(c, row);
    assert FindClient(c, row) == ClientFor(c, row.client);
    assert FindSubSeller(c, row) == SubSellerFor(c, s.client, row.subClient);
    hide ValidRow, Find, First, ClientFor, SubSellerFor, FindClient, FindSubSeller, Title;
  }

  lemma SpellingRow(c: Catalog, s: Submission) returns (row: Row)
    requires SheetCanSay(c, s)
    ensures Spells(c, row, s)
  {
    hide Find, Nameable, Blank, ClientFor, SubSellerFor, ClientNameable;
    var make := NameFor(c.makes, s.make, None);
    var model := NameFor(c.models, s.model, Some(s.make));
    var branch := NameFor(c.branches, s.branch, None);
    var color := NameFor(c.colors, s.color, None);
    var keys := NameFor(c.keyOptions, s.keys, None);
    var fuel := NameFor(c.fuels, s.fuel, None);
    var bidding, subClient := [], [];
    NothingIsBlank();
    if s.bidding.Some? {
      bidding := NameFor(c.biddingModels, s.bidding.value, None);
    } else {
      BlankFinds(c.biddingModels, []);
    }
    var client := ClientNameFor(c, s.client);
    if s.subSeller.Some? { subClient := SubSellerNameFor(c, s.subSeller.value, s.client); }
    row := Row(0, s.chassis, s.plate, make, model, branch, color, keys, fuel, bidding, Some(s.year), Some(s.target),
               Some(s.minimum), client, subClient);
  }

  lemma SubSellerNameFor(c: Catalog, id: Id, client: Id) returns (cell: string)
    requires SubSellerNameable(c, id, client)
    ensures SubSellerFor(c, client, cell).Some? && SubSellerFor(c, client, cell).value.id == id && !Blank(cell)
  {
    var k :| 0 <= k < |c.subSellers| && c.subSellers[k].id == id
             && SubSellerFor(c, client, c.subSellers[k].name) == Some(c.subSellers[k]);
    cell := c.subSellers[k].name;
  }

  lemma NothingIsBlank()
    ensures Blank([])
  {
  }

  lemma BlankFinds(table: seq<Lookup>, cell: string)
    requires Blank(cell)
    ensures Find(table, cell, None) == None
  {
  }

  lemma StrippedIsTheSame(c: Catalog, s: Submission, id: Id, author: Id)
    requires MissingField(c, s).None?
    ensures MissingField(c, Stripped(s)).None?
    ensures FormListing(c, Stripped(s), id, author) == FormListing(c, s, id, author)
  {
    StripTwice(s.chassis);
    StripTwice(s.plate);
    hide ActiveLookup, ActiveUser, SubSellerOf, Title;
  }

  /** Of the submissions whose identifiers the form accepts, some sheet row resolves to
      exactly those the sheet can say, and then to the very listing the form stores. */
  lemma SheetSaysExactly(c: Catalog, s: Submission, id: Id, author: Id)
    requires UniqueCatalog(c) && MissingField(c, s).None?
    ensures SheetCanSay(c, s)
            <==> exists row :: ValidRow(c, row) && RowListing(c, row, id, author) == FormListing(c, s, id, author)
  {
    hide ValidRow, RowListing, FormListing, SheetCanSay, UniqueCatalog, MissingField, Spells;
    if SheetCanSay(c, s) {
      var row := SpellingRow(c, s);
      SayingRow(c, row, s, id, author);
    }
    forall row | ValidRow(c, row) && RowListing(c, row, id, author) == FormListing(c, s, id, author)
      ensures SheetCanSay(c, s)
    {
      FormDetails(c, s, id, author);
      RowSays(c, row, id, author, s);
    }
  }

  lemma FormDetails(c: Catalog, s: Submission, id: Id, author: Id)
    requires MissingField(c, s).None?
    ensures FormListing(c, s, id, author).Intake? && FormListing(c, s, id, author).details == Stripped(s)
  {
  }

  lemma SayingRow(c: Catalog, row: Row, s: Submission, id: Id, author: Id)
    requires UniqueCatalog(c) && MissingField(c, s).None? && SheetCanSay(c, s) && Spells(c, row, s)
    ensures ValidRow(c, row) && RowListing(c, row, id, author) == FormListing(c, s, id, author)
  {
    assert !Blank(s.chassis) && !Blank(s.plate) && s.document == None && s.terms;
    hide ValidRow, RowListing, FormListing, SheetCanSay, UniqueCatalog, MissingField, Spells, Blank;
    SpelledRowIsValid(c, row, s);
    SpelledRowListing(c, row, s, id, author);
    FormAcceptsRow(c, row, id, author);
    StrippedIsTheSame(c, s, id, author);
  }

  // ---- a submission the sheet cannot say ------------------------------------------------

  /** Two makes and one model, of the second. */
  function TwoMakes(): Catalog {
    var one := (name: string) => [Lookup(0, name, name, true, None)];
    Catalog([Lookup(0, "a", "a", true, None), Lookup(1, "b", "b", true, None)],
            [Lookup(0, "m", "m", true, Some(1))],
            one("x"), one("x"), one("x"), one("x"), [],
            [User(0, "f", "l", "e", true, true)], [])
  }

  /** The model under the make given. */
  function UnderMake(make: Id): Submission {
    Submission("c", "p", make, 0, 0, 0, 0, 0, None, 2020, Cents(100), Cents(100), 0, None, None, true)
  }

  lemma LetterIsNotBlank(x: char)
    requires !IsSpace(x)
    ensures !Blank([x])
  {
    BlankMeansSpaces([x]);
  }

  lemma OnlyRowIsNameable(name: string, make: Option<Id>)
    requires !Blank(name)
    ensures Nameable([Lookup(0, name, name, true, make)], 0, make)
  {
    var l := Lookup(0, name, name, true, make);
    assert First([l], (x: Lookup) => Labelled(x, name, make)) == Some(l);
    assert [l][0].id == 0 && NamesItself([l], [l][0], make);
  }

  lemma SecondMakeIsNameable()
    ensures Nameable(TwoMakes().makes, 1, None)
  {
    var makes := TwoMakes().makes;
    LetterIsNotBlank('b');
    assert Lower("a")[0] != Lower("b")[0];
    var p := (x: Lookup) => Labelled(x, "b", None);
    assert !p(makes[0]) && p(makes[1]);
    assert makes[1..] == [makes[1]];
    assert First(makes, p) == First(makes[1..], p) == Some(makes[1]);
    assert NamesItself(makes, makes[1], None);
  }

  lemma TheClientIsNameable()
    ensures ClientNameable(TwoMakes(), 0)
  {
    var c := TwoMakes();
    var u := c.users[0];
    LetterIsNotBlank('e');
    assert First(c.users, (x: User) => CalledClient(x, "e")) == Some(u);
    assert ClientNamesItself(c, c.users[0]);
  }

  lemma SheetSaysOwnMake()
    ensures SheetCanSay(TwoMakes(), UnderMake(1)) && !SheetCanSay(TwoMakes(), UnderMake(0))
  {
    hide Nameable, ClientNameable;
    LetterIsNotBlank('c');
    LetterIsNotBlank('p');
    LetterIsNotBlank('x');
    LetterIsNotBlank('m');
    OnlyRowIsNameable("x", None);
    OnlyRowIsNameable("m", Some(1));
    SecondMakeIsNameable();
    TheClientIsNameable();
    assert !Nameable(TwoMakes().models, 0, Some(0)) by { NoForeignModel(); }
  }

  lemma NoForeignModel()
    ensures !Nameable(TwoMakes().models, 0, Some(0))
  {
  }

  lemma TwoMakesIsUnique()
    ensures UniqueCatalog(TwoMakes())
  {
  }

  lemma FormAcceptsEither(make: Id)
    requires make in {0, 1}
    ensures MissingField(TwoMakes(), UnderMake(make)).None?
  {
    var c := TwoMakes();
    TwoMakesIsUnique();
    hide ActiveLookup;
    ActiveById(c.makes, c.makes[make]);
    ActiveById(c.models, c.models[0]);
    ActiveById(c.branches, c.branches[0]);
    ActiveById(c.colors, c.colors[0]);
    ActiveById(c.keyOptions, c.keyOptions[0]);
    ActiveById(c.fuels, c.fuels[0]);
    assert c.users[0].id == 0 && c.users[0].active;
  }

  lemma YearText()
    ensures |IntText(2020)| == 4
  {
    assert |DigitText(202)| == 3 by { assert |DigitText(20)| == 2; }
  }

  lemma ActiveIn(table: seq<Lookup>, id: Id, l: Lookup)
    requires ActiveLookup(table, id) == Some(l)
    ensures l in table
  {
  }

  lemma EitherFits(make: Id, id: Id, author: Id)
    requires make in {0, 1} && MissingField(TwoMakes(), UnderMake(make)).None?
    ensures Fits(FormListing(TwoMakes(), UnderMake(make), id, author))
  {
    var c, s := TwoMakes(), UnderMake(make);
    YearText();
    LetterIsNotBlank('c');
    ActiveIn(c.makes, s.make, ActiveLookup(c.makes, s.make).value);
    ActiveIn(c.models, s.model, ActiveLookup(c.models, s.model).value);
    hide ActiveLookup, IntText;
  }

  /** The form takes the model under either make; the sheet can say it under its own only. */
  lemma FormTakesMore(make: Id, id: Id, author: Id)
    requires make in {0, 1}
    ensures UniqueCatalog(TwoMakes()) && Submit(TwoMakes(), [], UnderMake(make), id, author).1.Accepted?
    ensures SheetCanSay(TwoMakes(), UnderMake(make)) <==> make == 1
  {
    TwoMakesIsUnique();
    FormAcceptsEither(make);
    EitherFits(make, id, author);
    SheetSaysOwnMake();
    hide *;
    EmptyTableAccepts(TwoMakes(), UnderMake(make), id, author);
  }

  lemma EmptyTableAccepts(c: Catalog, s: Submission, id: Id, author: Id)
    requires MissingField(c, s).None? && Fits(FormListing(c, s, id, author))
    ensures Submit(c, [], s, id, author).1.Accepted?
  {
  }
}
