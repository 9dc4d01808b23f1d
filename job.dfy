/** `Job.filterSearch` and the statement `Job.update` assembles
    (models/job.js). */
module JobModel {
  import opened Js
  import opened Text
  import opened Db
  import opened SqlHelpers

  /** The translation table `Job.filterSearch` passes to the builder. */
  const FilterTable: Table := map["title" := "title ILIKE", "minSalary" := "salary >="]

  /** `Job.update` translates no key: every column is the key itself. */
  const UpdateTable: Table := map[]

  /** The returned columns, with `company_handle` renamed. */
  const JobColumns := "id, title, salary, equity, " + "company_handle AS \"companyHandle\""

  const SelectJobs := "SELECT " + JobColumns + " FROM jobs WHERE "
  const UpdateJobs := "UPDATE jobs SET "
  const WhereId := " WHERE id = "
  const ReturningJob := " RETURNING " + JobColumns

  /** The static predicate the `hasEquity` flag turns into. */
  const EquityPositive := " equity > 0"

  /** The WHERE text: the builder's clause, then, when the flag was taken
      out, the equity predicate, preceded by " AND" only when `title` or
      `minSalary` is truthy. */
  function WhereText(filterCols: string, remaining: Obj, equity: bool): string
  {
    if !equity then filterCols
    else if TruthyProp(remaining, "title") || TruthyProp(remaining, "minSalary") then
      filterCols + " AND" + EquityPositive
    else filterCols + EquityPositive
  }

  /** Whether the search asks for jobs with equity: `hasEquity` is truthy
      (the title rewrite leaves it alone). */
  predicate EquityRequested(filters: Obj)
  {
    TruthyProp(filters, "hasEquity")
  }

  /** The object as the search leaves it: a truthy title wrapped in `%`,
      then a truthy `hasEquity` deleted. */
  function Prepared(filters: Obj): (r: Obj)
    requires DistinctKeys(filters)
    ensures DistinctKeys(r)
  {
    WildcardKeepsDistinct(filters, "title");
    var wrapped := Wildcard(filters, "title");
    if TruthyProp(wrapped, "hasEquity") then Remove(wrapped, "hasEquity") else wrapped
  }

  /** The effect of `Job.filterSearch(filters)`: the object as the method
      leaves it and the query it sends. */
  function FilterSearchEffect(filters: Obj): SearchOutcome
    requires DistinctKeys(filters)
  {
    var remaining := Prepared(filters);
    var clause := SqlForFilterSearch(remaining, FilterTable);
    SearchOutcome(remaining, Query(SelectJobs + WhereText(clause.filterCols, remaining, EquityRequested(filters)),
                                   BindEach(clause.values)))
  }

  /** `Job.filterSearch`, which rewrites the caller's object in place. */
  method FilterSearch(filters: JsObject) returns (query: Query)
    requires filters.Valid()
    modifies filters
    ensures filters.Valid()
    ensures SearchOutcome(filters.entries, query) == FilterSearchEffect(old(filters.entries))
  {
    var title := filters.Prop("title");
    if title.Some? && Truthy(title.value) {
      filters.Put("title", Str(Wrap(Show(title.value))));
    }
    var equity := false;
    var hasEquity := filters.Prop("hasEquity");
    if hasEquity.Some? && Truthy(hasEquity.value) {
      equity := true;
      filters.Delete("hasEquity");
    }
    var clause := SqlForFilterSearch(filters.entries, FilterTable);
    var filterCols := clause.filterCols;
    if equity {
      if TruthyProp(filters.entries, "title") || TruthyProp(filters.entries, "minSalary") {
        filterCols := filterCols + " AND";
      }
      filterCols := filterCols + EquityPositive;
    }
    query := Query(SelectJobs + filterCols, BindEach(clause.values));
  }

  lemma FilterTableNoDollar()
    ensures TemplatesNoDollar(FilterTable)
  {
    assert NoDollar("title ILIKE") && NoDollar("salary >=");
  }

  lemma JobColumnsNoDollar()
    ensures NoDollar(JobColumns)
  {
    assert NoDollar("id, title, salary, equity, ");
    assert NoDollar("company_handle AS \"companyHandle\"");
    NoDollarAppend("id, title, salary, equity, ", "company_handle AS \"companyHandle\"");
  }

  lemma SelectJobsNoDollar()
    ensures NoDollar(SelectJobs)
  {
    JobColumnsNoDollar();
    NoDollarAppend("SELECT ", JobColumns);
    NoDollarAppend("SELECT " + JobColumns, " FROM jobs WHERE ");
  }

  /** The equity predicate adds no placeholder to the builder's clause. */
  lemma WhereTextPlaceholders(filterCols: string, remaining: Obj, equity: bool)
    ensures Placeholders(WhereText(filterCols, remaining, equity)) == Placeholders(filterCols)
  {
    if equity {
      var suffix := if TruthyProp(remaining, "title") || TruthyProp(remaining, "minSalary")
        then " AND" + EquityPositive else EquityPositive;
      assert WhereText(filterCols, remaining, equity) == filterCols + suffix;
      assert NoDollar(suffix) && suffix[0] == ' ';
      PlaceholdersAppend(filterCols, suffix);
      NoDollarNoPlaceholders(suffix);
      assert filterCols + [] == filterCols;
    }
  }

  /** Whatever the filters, the search binds one value per placeholder:
      `$i` stands for the i-th property left in the object. */
  lemma SearchAligned(filters: Obj)
    requires DistinctKeys(filters)
    ensures var r := FilterSearchEffect(filters);
      && Aligned(r.query)
      && |r.query.params| == |r.filters|
      && forall i :: 0 <= i < |r.filters| ==> r.query.params[i] == Bound(r.filters[i].1)
  {
    var remaining := Prepared(filters);
    var clause := SqlForFilterSearch(remaining, FilterTable);
    var where := WhereText(clause.filterCols, remaining, EquityRequested(filters));
    FilterTableNoDollar();
    FilterSearchAligned(remaining, FilterTable);
    SelectJobsNoDollar();
    PlaceholdersSkip(SelectJobs, where);
    WhereTextPlaceholders(clause.filterCols, remaining, EquityRequested(filters));
  }

  /** The properties left in the object keep the caller's order: the
      title rewrite changes no key and the `delete` takes out only
      `hasEquity`. With `SearchAligned`, `$i` is therefore bound to the
      i-th of the caller's keys other than a truthy `hasEquity`. */
  lemma SearchKeepsKeyOrder(filters: Obj)
    requires DistinctKeys(filters)
    ensures Keys(FilterSearchEffect(filters).filters)
         == if EquityRequested(filters) then Without(Keys(filters), "hasEquity") else Keys(filters)
  {
    WildcardKeepsDistinct(filters, "title");
    var wrapped := Wildcard(filters, "title");
    if EquityRequested(filters) {
      RemoveKeys(wrapped, "hasEquity");
    }
  }

  /** A truthy `title` is left wrapped in `%`; otherwise it is untouched.
      No property other than `title` and `hasEquity` changes. */
  lemma TitleWrapped(filters: Obj)
    requires DistinctKeys(filters)
    ensures var r := FilterSearchEffect(filters);
      && (TruthyProp(filters, "title") ==>
            Get(r.filters, "title") == Some(Str(Wrap(Show(Get(filters, "title").value)))))
      && (!TruthyProp(filters, "title") ==> Get(r.filters, "title") == Get(filters, "title"))
      && forall k :: k != "title" && k != "hasEquity" ==> Get(r.filters, k) == Get(filters, k)
  {
  }

  /** A truthy `hasEquity` is deleted from the object before the builder
      runs, so it contributes neither a placeholder nor a value. */
  lemma EquityExtracted(filters: Obj)
    requires DistinctKeys(filters)
    requires TruthyProp(filters, "hasEquity")
    ensures var r := FilterSearchEffect(filters);
      && Get(r.filters, "hasEquity") == None
      && |r.filters| == |filters| - 1
      && |r.query.params| == |filters| - 1
  {
    WildcardKeepsDistinct(filters, "title");
    SearchAligned(filters);
  }

  /** The rewrite of the title keeps the truthiness of `title` and
      `minSalary`, which the " AND" guard tests. */
  lemma PreparedGuard(filters: Obj)
    requires DistinctKeys(filters)
    ensures TruthyProp(Prepared(filters), "title") <==> TruthyProp(filters, "title")
    ensures TruthyProp(Prepared(filters), "minSalary") <==> TruthyProp(filters, "minSalary")
  {
    WildcardKeepsDistinct(filters, "title");
  }

  lemma AndEquityText()
    ensures " AND" + EquityPositive == " AND equity > 0"
  {
  }

  /** With a truthy `hasEquity`, the WHERE text ends in " AND equity > 0"
      when `title` or `minSalary` is truthy, and is " equity > 0" appended
      bare otherwise. */
  lemma EquityAppended(filters: Obj)
    requires DistinctKeys(filters)
    requires TruthyProp(filters, "hasEquity")
    ensures var r := FilterSearchEffect(filters);
      var clause := SqlForFilterSearch(r.filters, FilterTable);
      && ((TruthyProp(filters, "title") || TruthyProp(filters, "minSalary")) ==>
            r.query.sql == SelectJobs + (clause.filterCols + " AND equity > 0"))
      && (!(TruthyProp(filters, "title") || TruthyProp(filters, "minSalary")) ==>
            r.query.sql == SelectJobs + (clause.filterCols + " equity > 0"))
  {
    PreparedGuard(filters);
    AndEquityText();
    var remaining := Prepared(filters);
    var clause := SqlForFilterSearch(remaining, FilterTable);
    assert FilterSearchEffect(filters).query.sql == SelectJobs + WhereText(clause.filterCols, remaining, true);
    assert clause.filterCols + " AND" + EquityPositive == clause.filterCols + (" AND" + EquityPositive);
  }

  /** Without a truthy `hasEquity`, the WHERE text is the builder's clause. */
  lemma NoEquityPlainClause(filters: Obj)
    requires DistinctKeys(filters)
    requires !TruthyProp(filters, "hasEquity")
    ensures var r := FilterSearchEffect(filters);
      && r.filters == Wildcard(filters, "title")
      && r.query.sql == SelectJobs + SqlForFilterSearch(r.filters, FilterTable).filterCols
  {
  }

  /** `hasEquity` alone gives the static predicate and no parameter; the
      object is left empty. */
  lemma EquityOnly(v: Value)
    requires Truthy(v)
    ensures FilterSearchEffect([("hasEquity", v)])
         == SearchOutcome([], Query(SelectJobs + " equity > 0", []))
  {
    var o := [("hasEquity", v)];
    assert DistinctKeys(o);
    assert Wildcard(o, "title") == o;
    assert Remove(o, "hasEquity") == [];
    assert "" + EquityPositive == " equity > 0";
  }

  /** The " AND" guard tests the truthiness of `title`, while the builder
      includes every property present: an empty title and `hasEquity`
      give "title ILIKE $1 equity > 0", with no AND between the two. */
  lemma EmptyTitleMissesAnd(v: Value)
    requires Truthy(v)
    ensures FilterSearchEffect([("title", Str("")), ("hasEquity", v)]).query
         == Query(SelectJobs + "title ILIKE $1 equity > 0", [Bound(Str(""))])
  {
    var o := [("title", Str("")), ("hasEquity", v)];
    assert o[1..] == [("hasEquity", v)];
    assert DistinctKeys(o);
    assert Wildcard(o, "title") == o;
    var remaining := [("title", Str(""))];
    assert Remove(o, "hasEquity") == remaining by {
      assert Remove(o[1..], "hasEquity") == [];
    }
    FilterSearchSingle("title", Str(""), FilterTable);
    assert SelectJobs + (Template("title", FilterTable) + " $1") + EquityPositive
        == SelectJobs + (Template("title", FilterTable) + " $1" + EquityPositive);
    assert Template("title", FilterTable) + " $1" + EquityPositive == "title ILIKE $1 equity > 0";
  }

  /** A falsy `hasEquity` (the query string `hasEquity=`) stays in the
      object and reaches the builder, which has no template for it. */
  lemma FalsyEquityReachesBuilder()
    ensures FilterSearchEffect([("hasEquity", Str(""))])
         == SearchOutcome([("hasEquity", Str(""))], Query(SelectJobs + "undefined $1", [Bound(Str(""))]))
  {
    assert Template("hasEquity", FilterTable) + " $1" == "undefined $1";
    var o := [("hasEquity", Str(""))];
    assert DistinctKeys(o);
    assert Wildcard(o, "title") == o;
    FilterSearchSingle("hasEquity", Str(""), FilterTable);
  }

  /** Searching again with the object a search left behind wraps the title
      a second time. */
  lemma SecondSearchWrapsAgain(filters: Obj)
    requires DistinctKeys(filters)
    requires TruthyProp(filters, "title")
    ensures var once := FilterSearchEffect(filters);
      DistinctKeys(once.filters)
      && Get(FilterSearchEffect(once.filters).filters, "title")
         == Some(Str(Wrap(Wrap(Show(Get(filters, "title").value)))))
  {
    var once := FilterSearchEffect(filters);
    WildcardKeepsDistinct(filters, "title");
    TitleWrapped(filters);
    WildcardKeepsDistinct(once.filters, "title");
    TitleWrapped(once.filters);
  }

  lemma SalaryEquityText()
    ensures Template("minSalary", FilterTable) + " $1" + " AND" + EquityPositive
         == "salary >= $1 AND equity > 0"
  {
  }

  /** `{minSalary, hasEquity}` selects "salary >= $1 AND equity > 0" and
      binds only the salary. */
  lemma SalaryAndEquityExample(minSalary: Value, hasEquity: Value)
    requires Truthy(minSalary) && Truthy(hasEquity)
    ensures FilterSearchEffect([("minSalary", minSalary), ("hasEquity", hasEquity)]).query
         == Query(SelectJobs + "salary >= $1 AND equity > 0", [Bound(minSalary)])
  {
    var o := [("minSalary", minSalary), ("hasEquity", hasEquity)];
    assert o[1..] == [("hasEquity", hasEquity)];
    assert DistinctKeys(o);
    assert Wildcard(o, "title") == o;
    var remaining := [("minSalary", minSalary)];
    assert Remove(o, "hasEquity") == remaining by {
      assert Remove(o[1..], "hasEquity") == [];
    }
    FilterSearchSingle("minSalary", minSalary, FilterTable);
    SalaryEquityText();
    assert SelectJobs + (Template("minSalary", FilterTable) + " $1") + " AND" + EquityPositive
        == SelectJobs + (Template("minSalary", FilterTable) + " $1" + " AND" + EquityPositive);
  }

  /** `{title: "eng"}` selects "title ILIKE $1" bound to "%eng%". */
  lemma TitleExample()
    ensures FilterSearchEffect([("title", Str("eng"))]).query
         == Query(SelectJobs + "title ILIKE $1", [Bound(Str("%eng%"))])
  {
    assert Template("title", FilterTable) + " $1" == "title ILIKE $1";
    assert Wrap("eng") == "%eng%";
    var o := [("title", Str("eng"))];
    assert DistinctKeys(o);
    var wrapped := [("title", Str("%eng%"))];
    assert Wildcard(o, "title") == wrapped;
    FilterSearchSingle("title", Str("%eng%"), FilterTable);
  }

  /** `Job.update(id, data)`: the builder's SET clause, then the id as the
      next placeholder; an empty `data` fails with the builder's error. */
  function Update(id: Value, data: Obj): (r: Result<Query>)
    ensures r.Err? <==> data == []
    ensures r.Err? ==> r.error == BadRequestError("No data")
    ensures r.Ok? ==>
      && |r.value.params| == |data| + 1
      && (forall i :: 0 <= i < |data| ==> r.value.params[i] == Bound(data[i].1))
      && r.value.params[|data|] == Bound(id)
  {
    match SqlForPartialUpdate(data, UpdateTable)
    case Err(e) => Err(e)
    case Ok(c) =>
      Ok(KeyedUpdate(UpdateJobs, c.setCols, c.values, WhereId, id, ReturningJob))
  }

  lemma UpdateTextNoDollar()
    ensures NoDollar(UpdateJobs) && NoDollar(WhereId) && NoDollar(ReturningJob)
    ensures ReturningJob[0] == ' ' && WhereId[0] == ' '
  {
    JobColumnsNoDollar();
    NoDollarAppend(" RETURNING ", JobColumns);
  }

  /** With `$`-free field names, the update's placeholders are `$1 .. $n`
      for the fields, in order, and `$(n + 1)` for the id, bound last. */
  lemma UpdateAligned(id: Value, data: Obj)
    requires data != []
    requires forall i :: 0 <= i < |data| ==> NoDollar(data[i].0)
    ensures Update(id, data).Ok?
    ensures var q := Update(id, data).value;
      && Aligned(q)
      && (forall i :: 0 <= i < |data| ==> q.params[i] == Bound(data[i].1))
      && q.params[|data|] == Bound(id)
  {
    assert ColumnsNoDollar(data, UpdateTable);
    PartialUpdateAligned(data, UpdateTable);
    var c := SqlForPartialUpdate(data, UpdateTable).value;
    UpdateTextNoDollar();
    KeyedUpdateAligned(UpdateJobs, c.setCols, c.values, WhereId, id, ReturningJob);
  }

  /** `Job.update` passes an empty table, so every SET column is the JS
      key itself. */
  lemma UpdateColumns(k: string)
    ensures Column(k, UpdateTable) == k
  {
  }

  /** With the empty table the SET clause quotes the field name itself. */
  lemma UpdateSingleField(id: Value, k: string, v: Value)
    ensures Update(id, [(k, v)])
         == Ok(Query(UpdateJobs + Quote(k) + "=$1 WHERE id = $2" + ReturningJob, [Bound(v), Bound(id)]))
  {
    assert "=$1" + WhereId + Placeholder(2) == "=$1 WHERE id = $2" by {
      assert NatToString(2) == "2";
    }
    PartialUpdateSingle(k, v, UpdateTable);
    assert Column(k, UpdateTable) == k;
    RegroupSingle(UpdateJobs, Quote(k), "=$1", WhereId, Placeholder(2), ReturningJob);
    assert BindEach([v]) + [Bound(id)] == [Bound(v), Bound(id)];
  }
}
