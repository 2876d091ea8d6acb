/** What the sheet and the form answer, in terms of the rows of the tables: which cell or
    identifier is refused and why, and what an accepted listing says. */
module IntakeAnswers {
  import opened Options
  import opened Text
  import opened IntakeDomain
  import opened IntakePaths

  // ---- names ------------------------------------------------------------------------------

  /** The same text but for the case of letters. */
  ghost predicate SameName(s: string, t: string) {
    |s| == |t| && forall i :: 0 <= i < |s| ==> SameLetter(s[i], t[i])
  }

  ghost predicate AllSpace(s: string) {
    forall i :: 0 <= i < |s| ==> IsSpace(s[i])
  }

  lemma BlankIsAllSpace(s: string)
    ensures Blank(s) <==> AllSpace(s)
  {
    if AllSpace(s) { StripTrims(s, 0, 0); }
    if Blank(s) { NothingLeft(s); }
  }

  lemma {:induction false} NothingLeft(s: string)
    requires Strip(s) == []
    ensures AllSpace(s)
    decreases |s|
  {
    if s != [] && IsSpace(s[0]) {
      NothingLeft(s[1..]);
      forall i | 0 <= i < |s| ensures IsSpace(s[i]) { if i > 0 { assert s[i] == s[1..][i - 1]; } }
    } else if s != [] {
      NothingLeft(s[..|s| - 1]);
    }
  }

  /** An active row has the English or the Arabic name, and is of the make if one is given. */
  ghost predicate HasName(l: Lookup, cell: string, make: Option<Id>) {
    && l.active && (SameName(l.en, cell) || SameName(l.ar, cell))
    && (make.Some? ==> l.make == make)
  }

  ghost predicate Names(table: seq<Lookup>, cell: string, make: Option<Id>) {
    !AllSpace(cell) && exists k :: 0 <= k < |table| && HasName(table[k], cell, make)
  }

  lemma HasNameIsLabelled(l: Lookup, cell: string, make: Option<Id>)
    ensures HasName(l, cell, make) <==> Labelled(l, cell, make)
  {
    LowerForgetsCase(l.en, cell);
    LowerForgetsCase(l.ar, cell);
  }

  lemma {:induction false} FirstIsFirst<T>(table: seq<T>, p: T -> bool) returns (k: nat)
    ensures First(table, p).Some? ==>
              k < |table| && First(table, p).value == table[k] && forall j :: 0 <= j < k ==> !p(table[j])
  {
    k := 0;
    if table != [] && !p(table[0]) {
      var n := FirstIsFirst(table[1..], p);
      k := n + 1;
    }
  }

  /** A cell resolves exactly if it is not blank and names an active row, and then to the
      first such row of the table. */
  lemma FindsFirstNamed(table: seq<Lookup>, cell: string, make: Option<Id>) returns (k: nat)
    ensures Find(table, cell, make).Some? <==> Names(table, cell, make)
    ensures Find(table, cell, make).Some? ==>
              && k < |table| && Find(table, cell, make).value == table[k] && HasName(table[k], cell, make)
              && forall j :: 0 <= j < k ==> !HasName(table[j], cell, make)
  {
    BlankIsAllSpace(cell);
    forall l: Lookup ensures HasName(l, cell, make) <==> Labelled(l, cell, make) {
      HasNameIsLabelled(l, cell, make);
    }
    hide HasName, Labelled, AllSpace, Blank;
    k := FirstIsFirst(table, (l: Lookup) => Labelled(l, cell, make));
    if Names(table, cell, make) {
      var n :| 0 <= n < |table| && HasName(table[n], cell, make);
      assert table[n] in table;
    }
  }

  ghost predicate NamesClient(c: Catalog, cell: string) {
    && !AllSpace(cell)
    && exists k :: 0 <= k < |c.users| && IsClient(c.users[k], cell)
  }

  /** An active seller whose full name or email the cell is. */
  ghost predicate IsClient(u: User, cell: string) {
    u.active && u.seller && (SameName(u.first + " " + u.last, cell) || SameName(u.email, cell))
  }

  lemma ResolvesClient(c: Catalog, row: Row)
    ensures FindClient(c, row).Some? <==> NamesClient(c, row.client)
    ensures FindClient(c, row).Some? ==> IsClient(FindClient(c, row).value, row.client)
  {
    BlankIsAllSpace(row.client);
    forall u: User ensures IsClient(u, row.client) <==> CalledClient(u, row.client) {
      LowerForgetsCase(u.first + " " + u.last, row.client);
      LowerForgetsCase(u.email, row.client);
    }
    hide IsClient, CalledClient, AllSpace, Blank;
    if NamesClient(c, row.client) {
      var n :| 0 <= n < |c.users| && IsClient(c.users[n], row.client);
      assert c.users[n] in c.users;
    }
  }

  ghost predicate NamesSubSeller(c: Catalog, client: Id, cell: string) {
    exists k :: 0 <= k < |c.subSellers| && IsSubSeller(c.subSellers[k], client, cell)
  }

  ghost predicate IsSubSeller(s: SubSeller, client: Id, cell: string) {
    s.active && s.seller == client && SameName(s.name, cell)
  }

  lemma ResolvesSubSeller(c: Catalog, row: Row)
    ensures FindSubSeller(c, row).Some? <==>
              !AllSpace(row.subClient) && FindClient(c, row).Some?
              && NamesSubSeller(c, FindClient(c, row).value.id, row.subClient)
  {
    BlankIsAllSpace(row.subClient);
    forall s: SubSeller, client
      ensures IsSubSeller(s, client, row.subClient) <==> CalledSubSeller(s, client, row.subClient)
    {
      LowerForgetsCase(s.name, row.subClient);
    }
    hide IsSubSeller, CalledSubSeller, AllSpace, Blank, FindClient;
    if FindClient(c, row).Some? && NamesSubSeller(c, FindClient(c, row).value.id, row.subClient) {
      var n :| 0 <= n < |c.subSellers| && IsSubSeller(c.subSellers[n], FindClient(c, row).value.id, row.subClient);
      assert c.subSellers[n] in c.subSellers;
    }
  }

  // ---- the errors of a row --------------------------------------------------------------

  function Entry(errors: map<Field, Problem>, f: Field): Option<Problem> {
    if f in errors then Some(errors[f]) else None
  }

  ghost predicate SaysIf(errors: map<Field, Problem>, f: Field, wrong: bool, p: Problem) {
    Entry(errors, f) == if wrong then Some(p) else None
  }

  lemma EntryIs(c: Catalog, row: Row)
    ensures forall f: Field :: Entry(ErrorMap(c, row), f) == ProblemWith(c, row, f)
  {
    hide ProblemWith;
  }

  /** The dictionary of a row has an entry for a text, a number or the client exactly if it is
      missing, does not parse, or is no active seller's full name or email. */
  lemma ErrorsSayWhy(c: Catalog, row: Row)
    ensures var m := ErrorMap(c, row);
            && SaysIf(m, Chassis, AllSpace(row.chassis), Required) && SaysIf(m, Plate, AllSpace(row.plate), Required)
            && SaysIf(m, Year, row.year.None?, Invalid)
            && SaysIf(m, Target, row.target.None?, Invalid) && SaysIf(m, Minimum, row.minimum.None?, Invalid)
            && SaysIf(m, Client, !NamesClient(c, row.client), Unknown)
  {
    BlankIsAllSpace(row.chassis);
    BlankIsAllSpace(row.plate);
    ResolvesClient(c, row);
    EntryIs(c, row);
    hide Entry, ErrorMap, Find, FindClient, FindModel, FindSubSeller, AllSpace, Blank, NamesClient;
  }

  /** For a label exactly if it is no active row's name, or, for the optional one, not blank
      and no active row's name. */
  lemma LabelErrorsSayWhy(c: Catalog, row: Row)
    ensures var m := ErrorMap(c, row);
            && SaysIf(m, Make, !Names(c.makes, row.make, None), Unknown)
            && SaysIf(m, Branch, !Names(c.branches, row.branch, None), Unknown)
            && SaysIf(m, Color, !Names(c.colors, row.color, None), Unknown)
            && SaysIf(m, Keys, !Names(c.keyOptions, row.keys, None), Unknown)
            && SaysIf(m, Fuel, !Names(c.fuels, row.fuel, None), Unknown)
            && SaysIf(m, Bidding, !AllSpace(row.bidding) && !Names(c.biddingModels, row.bidding, None), Unknown)
  {
    BlankIsAllSpace(row.bidding);
    var _ := FindsFirstNamed(c.makes, row.make, None);
    var _ := FindsFirstNamed(c.branches, row.branch, None);
    var _ := FindsFirstNamed(c.colors, row.color, None);
    var _ := FindsFirstNamed(c.keyOptions, row.keys, None);
    var _ := FindsFirstNamed(c.fuels, row.fuel, None);
    var _ := FindsFirstNamed(c.biddingModels, row.bidding, None);
    EntryIs(c, row);
    hide Entry, ErrorMap, Find, FindClient, FindModel, FindSubSeller, AllSpace, Blank, Names;
  }

  /** A model is looked for under the first make its row names, a contact under the client. */
  lemma ParentErrorsSayWhy(c: Catalog, row: Row)
    ensures var m, make, client := ErrorMap(c, row), Find(c.makes, row.make, None), FindClient(c, row);
            && Entry(m, Model) == (if AllSpace(row.model) then Some(Required)
                                   else if !Names(c.makes, row.make, None) then Some(Unknown)
                                   else if make.Some? && Names(c.models, row.model, Some(make.value.id)) then None
                                   else Some(UnknownForParent))
            && SaysIf(m, SubClient,
                      && !AllSpace(row.subClient) && client.Some?
                      && !NamesSubSeller(c, client.value.id, row.subClient), UnknownForParent)
  {
    BlankIsAllSpace(row.model);
    BlankIsAllSpace(row.subClient);
    var make := Find(c.makes, row.make, None);
    var _ := FindsFirstNamed(c.makes, row.make, None);
    if make.Some? { var _ := FindsFirstNamed(c.models, row.model, Some(make.value.id)); }
    ResolvesSubSeller(c, row);
    EntryIs(c, row);
    hide Entry, ErrorMap, Find, FindClient, FindSubSeller, AllSpace, Blank, Names, NamesSubSeller;
  }

  // ---- what a listing says --------------------------------------------------------------

  /** Titles and location spell out the make, model and branch that the listing names. */
  ghost predicate Described(c: Catalog, l: Listing) {
    && l.Intake?
    && exists make, model, branch ::
         && make in c.makes && model in c.models && branch in c.branches && make.active && model.active && branch.active
         && make.id == l.details.make && model.id == l.details.model && branch.id == l.details.branch
         && Spelled(l, make, model, branch)
  }

  ghost predicate Spelled(l: Listing, make: Lookup, model: Lookup, branch: Lookup)
    requires l.Intake?
  {
    && l.titleEn == make.en + " " + model.en + " " + IntText(l.details.year)
    && l.titleAr == make.ar + " " + model.ar + " " + IntText(l.details.year)
    && l.locationEn == branch.en && l.locationAr == branch.ar
  }

  lemma RowIsDescribed(c: Catalog, row: Row, id: Id, author: Id)
    requires ValidRow(c, row)
    ensures Described(c, RowListing(c, row, id, author))
  {
    Resolves(c, row);
    hide ValidRow, FindClient, FindSubSeller, IntText;
    var make, model, branch := Find(c.makes, row.make, None).value, FindModel(c, row).value,
      Find(c.branches, row.branch, None).value;
    assert Spelled(RowListing(c, row, id, author), make, model, branch);
  }

  ghost predicate IsListing(c: Catalog, l: Listing, id: Id, chassis: string) {
    l.Intake? && l.id == id && l.details.chassis == chassis && Described(c, l)
  }

  /** Each created row is answered with the identifier under which its listing is stored and
      the stripped chassis number, each rejected one with its chassis cell, if not empty. */
  lemma AnswersNameTheirListing(c: Catalog, table: seq<Listing>, rows: seq<Row>, ids: seq<Id>, author: Id, i: nat)
    requires |ids| == |rows| && i < |rows| && !BulkAt(c, table, rows, ids, author, |rows|).broken
    ensures var p := BulkAt(c, table, rows, ids, author, |rows|);
            && |p.results| == |rows|
            && match p.results[i].outcome
               case Created(vehicle) =>
                 && vehicle == ids[i] && p.results[i].chassis == Some(Strip(rows[i].chassis))
                 && exists k :: 0 <= k < |p.table| && IsListing(c, p.table[k], vehicle, Strip(rows[i].chassis))
               case Rejected(errors) =>
                 && errors != map[]
                 && p.results[i].chassis == if rows[i].chassis == [] then None else Some(rows[i].chassis)
  {
    hide Fits, Clashes, ErrorMap, ValidRow, RowListing, Described, Strip;
    ResultOf(c, table, rows, ids, author, i);
    BulkGrows(c, table, rows, ids, author, i + 1, |rows|);
    var all, q := BulkAt(c, table, rows, ids, author, |rows|), BulkAt(c, table, rows, ids, author, i + 1);
    if ValidRow(c, rows[i]) {
      RowListingParts(c, rows[i], ids[i], author);
      RowIsDescribed(c, rows[i], ids[i], author);
      if all.results[i].outcome.Created? {
        var k := |q.table| - 1;
        assert q.table[k] == RowListing(c, rows[i], ids[i], author) == all.table[k];
        assert IsListing(c, all.table[k], ids[i], Strip(rows[i].chassis));
      } else {
        assert Chassis in map[Chassis := AlreadySubmitted];
      }
    } else {
      SomethingIsWrong(c, rows[i]);
    }
  }

  lemma SomethingIsWrong(c: Catalog, row: Row)
    requires !ValidRow(c, row)
    ensures ErrorMap(c, row) != map[]
  {
    hide ProblemWith;
    var f :| ProblemWith(c, row, f).Some?;
    assert f in ErrorMap(c, row);
  }

  // ---- the form -----------------------------------------------------------------------------

  ghost predicate HasActive(table: seq<Lookup>, id: Id) {
    exists k :: 0 <= k < |table| && table[k].id == id && table[k].active
  }

  /** What the form asks of each identifier: an active row of its table; of the client an
      active user, and of a named contact that it is that client's and active. */
  ghost predicate Identifies(c: Catalog, s: Submission, f: Field) {
    match f
    case Make => HasActive(c.makes, s.make)
    case Model => HasActive(c.models, s.model)
    case Branch => HasActive(c.branches, s.branch)
    case Color => HasActive(c.colors, s.color)
    case Keys => HasActive(c.keyOptions, s.keys)
    case Fuel => HasActive(c.fuels, s.fuel)
    case Bidding => s.bidding.Some? ==> HasActive(c.biddingModels, s.bidding.value)
    case Client => exists k :: 0 <= k < |c.users| && c.users[k].id == s.client && c.users[k].active
    case SubClient =>
      s.subSeller.Some? ==>
        exists k :: 0 <= k < |c.subSellers| && c.subSellers[k].id == s.subSeller.value && c.subSellers[k].active
                    && c.subSellers[k].seller == s.client
    case _ => true
  }

  /** The order in which the form looks at them. */
  function FormOrder(): seq<Field> {
    [Make, Model, Branch, Color, Keys, Fuel, Bidding, Client, SubClient]
  }

  /** `f` is the first in that order that identifies nothing. */
  ghost predicate FirstUnidentified(c: Catalog, s: Submission, f: Field) {
    exists i :: 0 <= i < |FormOrder()| && FormOrder()[i] == f && !Identifies(c, s, f)
                && forall j :: 0 <= j < i ==> Identifies(c, s, FormOrder()[j])
  }

  lemma ActiveLookupExactly(table: seq<Lookup>, id: Id)
    ensures ActiveLookup(table, id).Some? <==> HasActive(table, id)
  {
    if HasActive(table, id) {
      var k :| 0 <= k < |table| && table[k].id == id && table[k].active;
      assert table[k] in table;
    }
  }

  /** The checks of the form, in terms of what each identifies. */
  lemma MissingIs(c: Catalog, s: Submission)
    ensures MissingField(c, s)
            == if !Identifies(c, s, Make) then Some(Make) else if !Identifies(c, s, Model) then Some(Model)
               else if !Identifies(c, s, Branch) then Some(Branch) else if !Identifies(c, s, Color) then Some(Color)
               else if !Identifies(c, s, Keys) then Some(Keys) else if !Identifies(c, s, Fuel) then Some(Fuel)
               else if !Identifies(c, s, Bidding) then Some(Bidding) else if !Identifies(c, s, Client) then Some(Client)
               else if !Identifies(c, s, SubClient) then Some(SubClient) else None
  {
    LookupsIdentify(c, s);
    PeopleIdentify(c, s);
    hide ActiveLookup, ActiveUser, SubSellerOf, Identifies;
  }

  lemma LookupsIdentify(c: Catalog, s: Submission)
    ensures Identifies(c, s, Make) <==> ActiveLookup(c.makes, s.make).Some?
    ensures Identifies(c, s, Model) <==> ActiveLookup(c.models, s.model).Some?
    ensures Identifies(c, s, Branch) <==> ActiveLookup(c.branches, s.branch).Some?
    ensures Identifies(c, s, Color) <==> ActiveLookup(c.colors, s.color).Some?
    ensures Identifies(c, s, Keys) <==> ActiveLookup(c.keyOptions, s.keys).Some?
    ensures Identifies(c, s, Fuel) <==> ActiveLookup(c.fuels, s.fuel).Some?
    ensures Identifies(c, s, Bidding)
            <==> (s.bidding.Some? ==> ActiveLookup(c.biddingModels, s.bidding.value).Some?)
  {
    ActiveLookupExactly(c.makes, s.make);
    ActiveLookupExactly(c.models, s.model);
    ActiveLookupExactly(c.branches, s.branch);
    ActiveLookupExactly(c.colors, s.color);
    ActiveLookupExactly(c.keyOptions, s.keys);
    ActiveLookupExactly(c.fuels, s.fuel);
    if s.bidding.Some? { ActiveLookupExactly(c.biddingModels, s.bidding.value); }
    hide ActiveLookup, HasActive;
  }

  lemma PeopleIdentify(c: Catalog, s: Submission)
    ensures Identifies(c, s, Client) <==> ActiveUser(c, s.client)
    ensures Identifies(c, s, SubClient) <==> (s.subSeller.Some? ==> SubSellerOf(c, s.subSeller.value, s.client))
  {
  }

  lemma AllIdentify(c: Catalog, s: Submission)
    requires forall i :: 0 <= i < |FormOrder()| ==> Identifies(c, s, FormOrder()[i])
    ensures forall f: Field :: Identifies(c, s, f)
  {
    forall f: Field ensures Identifies(c, s, f) {
      var order := FormOrder();
      assert order[0] == Make && order[1] == Model && order[2] == Branch && order[3] == Color && order[4] == Keys
          && order[5] == Fuel && order[6] == Bidding && order[7] == Client && order[8] == SubClient;
    }
  }

  lemma MissingIsFirst(c: Catalog, s: Submission)
    ensures MissingField(c, s).None? <==> forall f: Field :: Identifies(c, s, f)
    ensures MissingField(c, s).Some? ==> FirstUnidentified(c, s, MissingField(c, s).value)
  {
    MissingIs(c, s);
    hide MissingField, Identifies;
    var order, i := FormOrder(), 0;
    while i < |order| && Identifies(c, s, order[i])
      invariant 0 <= i <= |order| && forall j :: 0 <= j < i ==> Identifies(c, s, order[j])
    {
      i := i + 1;
    }
    if i < |order| {
      assert order[0] == Make && order[1] == Model && order[2] == Branch && order[3] == Color && order[4] == Keys
          && order[5] == Fuel && order[6] == Bidding && order[7] == Client && order[8] == SubClient;
      assert i in {0, 1, 2, 3, 4, 5, 6, 7, 8};
      assert MissingField(c, s) == Some(order[i]);
    } else {
      AllIdentify(c, s);
    }
  }

  lemma OnlyOneIsFirst(c: Catalog, s: Submission, f: Field, g: Field)
    requires FirstUnidentified(c, s, f) && FirstUnidentified(c, s, g)
    ensures f == g
  {
    hide Identifies, FormOrder;
  }

  /** The form refuses an identifier exactly if it is the first, in the form's order, that
      identifies nothing active, and refuses none exactly if each identifies something. A
      refusal stores nothing. */
  lemma FormRefusesExactly(c: Catalog, table: seq<Listing>, s: Submission, id: Id, author: Id, f: Field)
    ensures var (after, a) := Submit(c, table, s, id, author);
            && (a == NotFound(f) <==> FirstUnidentified(c, s, f))
            && (!a.NotFound? <==> forall g: Field :: Identifies(c, s, g))
            && (!a.Accepted? ==> after == table)
  {
    MissingIsFirst(c, s);
    hide Fits, Clashes, FormListing, MissingField, Identifies;
    if FirstUnidentified(c, s, f) {
      assert MissingField(c, s).Some?;
      OnlyOneIsFirst(c, s, f, MissingField(c, s).value);
    }
  }

  /** What the form stores of a submission: all of it, the two texts stripped. */
  ghost predicate Stores(c: Catalog, s: Submission, id: Id, author: Id, l: Listing) {
    && Described(c, l) && l.id == id && l.createdBy == author
    && l.details == s.(chassis := Strip(s.chassis), plate := Strip(s.plate))
  }

  lemma FormListingStores(c: Catalog, s: Submission, id: Id, author: Id)
    requires MissingField(c, s).None?
    ensures Stores(c, s, id, author, FormListing(c, s, id, author))
  {
    hide ActiveUser, SubSellerOf, IntText, Strip;
    assert Spelled(FormListing(c, s, id, author), ActiveLookup(c.makes, s.make).value,
                   ActiveLookup(c.models, s.model).value, ActiveLookup(c.branches, s.branch).value);
  }

  /** The identifier or the chassis number is taken. */
  ghost predicate TakenBefore(table: seq<Listing>, id: Id, chassis: string) {
    exists k :: 0 <= k < |table|
                && (table[k].id == id || (table[k].Intake? && table[k].details.chassis == chassis))
  }

  lemma ClashesExactly(table: seq<Listing>, l: Listing)
    requires l.Intake?
    ensures Clashes(table, l) <==> TakenBefore(table, l.id, l.details.chassis)
  {
  }

  /** What does not fit a column: a text too long, a year beyond 32 bits, a price that is no
      number or has more than ten digits before the point. */
  lemma TooWideExactly(l: Listing)
    requires l.Intake?
    ensures var d := l.details;
            !Fits(l) <==>
              || |d.chassis| > 100 || |d.plate| > 50 || |l.titleEn| > 200 || |l.titleAr| > 200
              || (d.document.Some? && |d.document.value| > 500) || d.year < -2147483648 || d.year > 2147483647
              || d.target.NonFinite? || d.minimum.NonFinite?
              || d.target.cents >= 1_000_000_000_000 || d.target.cents <= -1_000_000_000_000
              || d.minimum.cents >= 1_000_000_000_000 || d.minimum.cents <= -1_000_000_000_000
  {
  }

  /** An identified submission is stored as one listing that says what it says, exactly if
      that fits the columns and neither its identifier nor its chassis number is taken;
      it is a duplicate exactly if it fits and one of them is. */
  lemma FormTakesExactly(c: Catalog, table: seq<Listing>, s: Submission, id: Id, author: Id) returns (l: Listing)
    requires forall f: Field :: Identifies(c, s, f)
    ensures var (after, a) := Submit(c, table, s, id, author);
            && Stores(c, s, id, author, l)
            && (a.Accepted? <==> Fits(l) && !TakenBefore(table, id, Strip(s.chassis)))
            && (a.Duplicate? <==> Fits(l) && TakenBefore(table, id, Strip(s.chassis)))
            && (a.Accepted? ==> a == Accepted(l) && after == table + [l])
  {
    MissingIsFirst(c, s);
    l := FormListing(c, s, id, author);
    FormListingStores(c, s, id, author);
    hide Fits, Clashes, FormListing, MissingField, Identifies, Described, Strip;
    ClashesExactly(table, l);
  }
}
