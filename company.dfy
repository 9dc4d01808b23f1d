/** `Company.filterSearch` and the statement `Company.update` assembles
    (models/company.js). */
module CompanyModel {
  import opened Js
  import opened Text
  import opened Db
  import opened SqlHelpers

  /** The translation table `Company.filterSearch` passes to the builder
      (the one the builder's own tests use). */
  const FilterTable: Table := CompanyTemplates

  /** `Company.update` renames the two camel-case fields. */
  const UpdateTable: Table := map["numEmployees" := "num_employees", "logoUrl" := "logo_url"]

  /** The returned columns, with the two snake-case columns renamed. */
  const CompanyColumns := "handle, name, description, " + "num_employees AS \"numEmployees\", "
                          + "logo_url AS \"logoUrl\""

  const SelectCompanies := "SELECT " + CompanyColumns + " FROM companies WHERE "
  const UpdateCompanies := "UPDATE companies SET "
  const WhereHandle := " WHERE handle = "
  const ReturningCompany := " RETURNING " + CompanyColumns

  /** The effect of `Company.filterSearch(filters)`: the object with a
      truthy `name` wrapped in `%`, and the query, whose parameter list is
      the builder's whole value list as one element. */
  function FilterSearchEffect(filters: Obj): SearchOutcome
  {
    var wrapped := Wildcard(filters, "name");
    var clause := SqlForFilterSearch(wrapped, FilterTable);
    SearchOutcome(wrapped, Query(SelectCompanies + clause.filterCols, [BoundArray(clause.values)]))
  }

  /** `Company.filterSearch`, which rewrites the caller's object in place. */
  method FilterSearch(filters: JsObject) returns (query: Query)
    requires filters.Valid()
    modifies filters
    ensures filters.Valid()
    ensures SearchOutcome(filters.entries, query) == FilterSearchEffect(old(filters.entries))
  {
    var name := filters.Prop("name");
    if name.Some? && Truthy(name.value) {
      filters.Put("name", Str(Wrap(Show(name.value))));
    }
    var clause := SqlForFilterSearch(filters.entries, FilterTable);
    query := Query(SelectCompanies + clause.filterCols, [BoundArray(clause.values)]);
  }

  lemma FilterTableNoDollar()
    ensures TemplatesNoDollar(FilterTable)
  {
    assert NoDollar("name ILIKE") && NoDollar("num_employees >=") && NoDollar("num_employees <=");
  }

  lemma CompanyColumnsNoDollar()
    ensures NoDollar(CompanyColumns)
  {
    assert NoDollar("handle, name, description, ");
    assert NoDollar("num_employees AS \"numEmployees\", ");
    assert NoDollar("logo_url AS \"logoUrl\"");
    NoDollarAppend("handle, name, description, ", "num_employees AS \"numEmployees\", ");
    NoDollarAppend("handle, name, description, " + "num_employees AS \"numEmployees\", ",
                   "logo_url AS \"logoUrl\"");
  }

  lemma SelectCompaniesNoDollar()
    ensures NoDollar(SelectCompanies)
  {
    CompanyColumnsNoDollar();
    NoDollarAppend("SELECT ", CompanyColumns);
    NoDollarAppend("SELECT " + CompanyColumns, " FROM companies WHERE ");
  }

  /** A truthy `name` is left wrapped in `%`; every other property, and a
      falsy or missing `name`, is left as it was. */
  lemma NameWrapped(filters: Obj)
    ensures var r := FilterSearchEffect(filters);
      && Keys(r.filters) == Keys(filters)
      && (TruthyProp(filters, "name") ==>
            Get(r.filters, "name") == Some(Str(Wrap(Show(Get(filters, "name").value)))))
      && (!TruthyProp(filters, "name") ==> r.filters == filters)
      && forall k :: k != "name" ==> Get(r.filters, k) == Get(filters, k)
  {
  }

  /** The statement numbers one placeholder per property, `$1 .. $n` in
      order, yet binds a single parameter: the array of all the values. */
  lemma SearchStatement(filters: Obj)
    ensures var r := FilterSearchEffect(filters);
      && r.query.sql == SelectCompanies + SqlForFilterSearch(r.filters, FilterTable).filterCols
      && Placeholders(r.query.sql) == OneTo(|filters|)
      && |r.query.params| == 1
      && r.query.params[0].BoundArray?
      && |r.query.params[0].vs| == |filters|
      && forall i :: 0 <= i < |filters| ==> r.query.params[0].vs[i] == r.filters[i].1
  {
    var r := FilterSearchEffect(filters);
    var clause := SqlForFilterSearch(r.filters, FilterTable);
    FilterTableNoDollar();
    FilterSearchAligned(r.filters, FilterTable);
    SelectCompaniesNoDollar();
    PlaceholdersSkip(SelectCompanies, clause.filterCols);
    NameWrapped(filters);
  }

  /** Because of the extra array around the values, the statement matches
      its parameter count only when there is exactly one filter, and even
      then `$1` is bound to the array, not to the value. */
  lemma SearchMisbinds(filters: Obj)
    ensures var q := FilterSearchEffect(filters).query;
      && (Aligned(q) <==> |filters| == 1)
      && forall i :: 0 <= i < |q.params| ==> !q.params[i].Bound?
  {
    SearchStatement(filters);
    var q := FilterSearchEffect(filters).query;
    if |filters| != 1 {
      assert |OneTo(|filters|)| != |OneTo(1)|;
    }
  }

  /** `{name: "tech"}` selects "name ILIKE $1" with the parameter list
      `[["%tech%"]]`. */
  lemma NameExample()
    ensures FilterSearchEffect([("name", Str("tech"))])
         == SearchOutcome([("name", Str("%tech%"))],
                          Query(SelectCompanies + "name ILIKE $1", [BoundArray([Str("%tech%")])]))
  {
    assert Template("name", FilterTable) + " $1" == "name ILIKE $1";
    assert Wrap("tech") == "%tech%";
    var wrapped := [("name", Str("%tech%"))];
    assert Wildcard([("name", Str("tech"))], "name") == wrapped;
    FilterSearchSingle("name", Str("%tech%"), FilterTable);
  }

  /** `Company.update(handle, data)`: the builder's SET clause with the
      two renamed columns, then the handle as the next placeholder; an
      empty `data` fails with the builder's error. */
  function Update(handle: Value, data: Obj): (r: Result<Query>)
    ensures r.Err? <==> data == []
    ensures r.Err? ==> r.error == BadRequestError("No data")
    ensures r.Ok? ==>
      && |r.value.params| == |data| + 1
      && (forall i :: 0 <= i < |data| ==> r.value.params[i] == Bound(data[i].1))
      && r.value.params[|data|] == Bound(handle)
  {
    match SqlForPartialUpdate(data, UpdateTable)
    case Err(e) => Err(e)
    case Ok(c) => Ok(KeyedUpdate(UpdateCompanies, c.setCols, c.values, WhereHandle, handle, ReturningCompany))
  }

  lemma UpdateTextNoDollar()
    ensures NoDollar(UpdateCompanies) && NoDollar(WhereHandle) && NoDollar(ReturningCompany)
    ensures ReturningCompany[0] == ' ' && WhereHandle[0] == ' '
  {
    CompanyColumnsNoDollar();
    NoDollarAppend(" RETURNING ", CompanyColumns);
  }

  /** The columns the update writes: `num_employees` and `logo_url` for
      the two camel-case fields, the field name itself for any other. */
  lemma UpdateColumns(k: string)
    ensures Column(k, UpdateTable)
         == if k == "numEmployees" then "num_employees"
            else if k == "logoUrl" then "logo_url"
            else k
  {
  }

  /** With `$`-free field names, the update's placeholders are `$1 .. $n`
      for the fields, in order, and `$(n + 1)` for the handle, bound last. */
  lemma UpdateAligned(handle: Value, data: Obj)
    requires data != []
    requires forall i :: 0 <= i < |data| ==> NoDollar(data[i].0)
    ensures Update(handle, data).Ok?
    ensures var q := Update(handle, data).value;
      && Aligned(q)
      && (forall i :: 0 <= i < |data| ==> q.params[i] == Bound(data[i].1))
      && q.params[|data|] == Bound(handle)
  {
    forall i | 0 <= i < |data| ensures NoDollar(Column(data[i].0, UpdateTable)) {
      UpdateColumns(data[i].0);
      assert NoDollar("num_employees") && NoDollar("logo_url");
    }
    PartialUpdateAligned(data, UpdateTable);
    var c := SqlForPartialUpdate(data, UpdateTable).value;
    UpdateTextNoDollar();
    KeyedUpdateAligned(UpdateCompanies, c.setCols, c.values, WhereHandle, handle, ReturningCompany);
  }

  lemma UpdateSingleText()
    ensures "=$1" + WhereHandle + Placeholder(2) == "=$1 WHERE handle = $2"
    ensures Quote("num_employees") == "\"num_employees\""
  {
    assert NatToString(2) == "2";
  }

  /** One field becomes `"col"=$1` and the handle `$2`; `numEmployees`
      is written to `"num_employees"`. */
  lemma UpdateSingleField(handle: Value, k: string, v: Value)
    ensures Update(handle, [(k, v)])
         == Ok(Query(UpdateCompanies + Quote(Column(k, UpdateTable)) + "=$1 WHERE handle = $2"
                     + ReturningCompany, [Bound(v), Bound(handle)]))
    ensures Quote(Column("numEmployees", UpdateTable)) == "\"num_employees\""
  {
    PartialUpdateSingle(k, v, UpdateTable);
    UpdateSingleText();
    UpdateColumns("numEmployees");
    RegroupSingle(UpdateCompanies, Quote(Column(k, UpdateTable)), "=$1", WhereHandle, Placeholder(2),
                  ReturningCompany);
    assert BindEach([v]) + [Bound(handle)] == [Bound(v), Bound(handle)];
  }

  lemma NameUpdateText()
    ensures Quote("name") + "=$1 WHERE handle = $2" == "\"name\"=$1 WHERE handle = $2"
  {
  }

  /** `Company.update("co1", {name: "New Label"})` sets `"name"=$1` for
      the row `WHERE handle = $2`, bound to "New Label" and "co1". */
  lemma UpdateExample()
    ensures Update(Str("co1"), [("name", Str("New Label"))])
         == Ok(Query(UpdateCompanies + "\"name\"=$1 WHERE handle = $2" + ReturningCompany,
                     [Bound(Str("New Label")), Bound(Str("co1"))]))
  {
    UpdateSingleField(Str("co1"), "name", Str("New Label"));
    UpdateColumns("name");
    NameUpdateText();
    Regroup4(UpdateCompanies, Quote("name"), "=$1 WHERE handle = $2", ReturningCompany);
  }

  lemma Regroup4(a: string, b: string, c: string, d: string)
    ensures a + b + c + d == a + (b + c) + d
  {
  }
}
