/** The two generic clause builders of helpers/sql.js. Both are pure: they
    read their object and translation table and return new values, so the
    same inputs always give the same clause and the caller's object is left
    as it was. */
module SqlHelpers {
  import opened Js
  import opened Text

  /** A translation table `jsToSql`, from JS field name to SQL text. */
  type Table = map<string, string>

  datatype Error = BadRequestError(message: string)

  datatype Result<T> = Ok(value: T) | Err(error: Error)

  /** `{ setCols, values }` */
  datatype SetClause = SetClause(setCols: string, values: seq<Value>)

  /** `{ filterCols, values }` */
  datatype FilterClause = FilterClause(filterCols: string, values: seq<Value>)

  function Quote(name: string): string { "\"" + name + "\"" }

  /** `jsToSql[colName] || colName`: the translated column when the table
      has a non-empty entry, the JS key itself otherwise. */
  function Column(key: string, jsToSql: Table): string
  {
    if key in jsToSql && jsToSql[key] != "" then jsToSql[key] else key
  }

  /** `"col"=$i` */
  function SetFragment(column: string, i: nat): string
  {
    Quote(column) + "=" + Placeholder(i)
  }

  /** `keys.map((colName, idx) => ...)` in sqlForPartialUpdate. */
  function SetFragments(keys: seq<string>, jsToSql: Table): (fs: seq<string>)
    ensures |fs| == |keys|
  {
    seq(|keys|, i requires 0 <= i < |keys| => SetFragment(Column(keys[i], jsToSql), i + 1))
  }

  function SqlForPartialUpdate(dataToUpdate: Obj, jsToSql: Table): (r: Result<SetClause>)
    ensures r.Err? <==> dataToUpdate == []
    ensures r.Err? ==> r.error == BadRequestError("No data")
    ensures r.Ok? ==> r.value.values == Values(dataToUpdate)
  {
    var keys := Keys(dataToUpdate);
    if |keys| == 0 then Err(BadRequestError("No data"))
    else Ok(SetClause(Join(SetFragments(keys, jsToSql), ", "), Values(dataToUpdate)))
  }

  /** `${jsToSql[filterName]}`: there is no fallback, and a missing entry
      renders as the text "undefined". */
  function Template(key: string, jsToSql: Table): string
  {
    if key in jsToSql then jsToSql[key] else "undefined"
  }

  /** `<template> $i` */
  function FilterFragment(template: string, i: nat): string
  {
    template + " " + Placeholder(i)
  }

  /** `keys.map((filterName, idx) => ...)` in sqlForFilterSearch. */
  function FilterFragments(keys: seq<string>, jsToSql: Table): (fs: seq<string>)
    ensures |fs| == |keys|
  {
    seq(|keys|, i requires 0 <= i < |keys| => FilterFragment(Template(keys[i], jsToSql), i + 1))
  }

  function SqlForFilterSearch(searchFilters: Obj, jsToSql: Table): (r: FilterClause)
    ensures searchFilters == [] ==> r == FilterClause("", [])
    ensures r.values == Values(searchFilters)
  {
    var keys := Keys(searchFilters);
    FilterClause(Join(FilterFragments(keys, jsToSql), " AND "), Values(searchFilters))
  }

  /** Every column a table can produce for this object is free of `$`. */
  predicate ColumnsNoDollar(data: Obj, jsToSql: Table)
  {
    forall i :: 0 <= i < |data| ==> NoDollar(Column(data[i].0, jsToSql))
  }

  /** Every template in the table is free of `$`. */
  predicate TemplatesNoDollar(jsToSql: Table)
  {
    forall k :: k in jsToSql ==> NoDollar(jsToSql[k])
  }

  /** Placeholder `$i` of the SET clause stands for the i-th field's value:
      the placeholders are `$1 .. $n` in order, and `values` lists the
      fields' values in the same order. */
  lemma PartialUpdateAligned(dataToUpdate: Obj, jsToSql: Table)
    requires dataToUpdate != []
    requires ColumnsNoDollar(dataToUpdate, jsToSql)
    ensures var c := SqlForPartialUpdate(dataToUpdate, jsToSql).value;
      && Placeholders(c.setCols) == OneTo(|dataToUpdate|)
      && |c.values| == |dataToUpdate|
      && forall i :: 0 <= i < |dataToUpdate| ==> c.values[i] == dataToUpdate[i].1
  {
    var keys := Keys(dataToUpdate);
    KeysAt(dataToUpdate);
    var fs := SetFragments(keys, jsToSql);
    forall i | 0 <= i < |fs| ensures Placeholders(fs[i]) == [1 + i] {
      var col := Column(keys[i], jsToSql);
      assert NoDollar(Quote(col) + "=");
      assert fs[i] == (Quote(col) + "=") + Placeholder(i + 1);
      TextThenPlaceholder(Quote(col) + "=", i + 1);
    }
    JoinPlaceholders(fs, ", ", 1);
  }

  /** The SET clause of a single field `k` is `"col"=$1`. */
  lemma PartialUpdateSingle(k: string, v: Value, jsToSql: Table)
    ensures SqlForPartialUpdate([(k, v)], jsToSql)
         == Ok(SetClause(Quote(Column(k, jsToSql)) + "=$1", [v]))
  {
    var fs := SetFragments(Keys([(k, v)]), jsToSql);
    assert fs == [SetFragment(Column(k, jsToSql), 1)];
    assert NatToString(1) == "1";
    assert SetFragment(Column(k, jsToSql), 1) == Quote(Column(k, jsToSql)) + "=$1";
    assert Values([(k, v)]) == [v];
  }

  /** One more field appends exactly one `", "` separator and the next
      numbered fragment, and its value goes last. */
  lemma PartialUpdateAppend(data: Obj, k: string, v: Value, jsToSql: Table)
    requires data != []
    ensures var before := SqlForPartialUpdate(data, jsToSql).value;
      SqlForPartialUpdate(data + [(k, v)], jsToSql)
        == Ok(SetClause(before.setCols + ", " + SetFragment(Column(k, jsToSql), |data| + 1),
                        before.values + [v]))
  {
    var data' := data + [(k, v)];
    KeysAt(data);
    KeysAt(data');
    var fs := SetFragments(Keys(data), jsToSql);
    var fs' := SetFragments(Keys(data'), jsToSql);
    assert fs' == fs + [SetFragment(Column(k, jsToSql), |data| + 1)];
    JoinAppend(fs, SetFragment(Column(k, jsToSql), |data| + 1), ", ");
    assert Values(data') == Values(data) + [v];
  }

  lemma SetFragmentNoComma(column: string, i: nat)
    requires CountChar(column, ',') == 0
    ensures CountChar(SetFragment(column, i), ',') == 0
  {
    var digits := NatToString(i);
    assert SetFragment(column, i) == "\"" + column + ("\"=$" + digits);
    CountCharAppend("\"" + column, "\"=$" + digits, ',');
    CountCharAppend("\"", column, ',');
    CountCharAppend("\"=$", digits, ',');
    CountCharAbsent(digits, ',');
  }

  /** With comma-free column names, n fields give exactly n - 1 commas: the
      separators. */
  lemma PartialUpdateSeparators(dataToUpdate: Obj, jsToSql: Table)
    requires dataToUpdate != []
    requires forall i :: 0 <= i < |dataToUpdate| ==> CountChar(Column(dataToUpdate[i].0, jsToSql), ',') == 0
    ensures CountChar(SqlForPartialUpdate(dataToUpdate, jsToSql).value.setCols, ',') == |dataToUpdate| - 1
  {
    var keys := Keys(dataToUpdate);
    KeysAt(dataToUpdate);
    var fs := SetFragments(keys, jsToSql);
    forall i | 0 <= i < |fs| ensures CountChar(fs[i], ',') == 0 {
      SetFragmentNoComma(Column(keys[i], jsToSql), i + 1);
    }
    JoinCountChar(fs, ", ", ',');
  }

  /** Placeholder `$i` of the WHERE clause stands for the i-th filter's
      value, whether or not the table translates every key (a missing
      entry renders as "undefined", which holds no placeholder). */
  lemma FilterSearchAligned(searchFilters: Obj, jsToSql: Table)
    requires TemplatesNoDollar(jsToSql)
    ensures var c := SqlForFilterSearch(searchFilters, jsToSql);
      && Placeholders(c.filterCols) == OneTo(|searchFilters|)
      && |c.values| == |searchFilters|
      && forall i :: 0 <= i < |searchFilters| ==> c.values[i] == searchFilters[i].1
  {
    var keys := Keys(searchFilters);
    var fs := FilterFragments(keys, jsToSql);
    forall i | 0 <= i < |fs| ensures Placeholders(fs[i]) == [1 + i] {
      var t := Template(keys[i], jsToSql);
      assert NoDollar(t + " ");
      assert fs[i] == (t + " ") + Placeholder(i + 1);
      TextThenPlaceholder(t + " ", i + 1);
    }
    JoinPlaceholders(fs, " AND ", 1);
  }

  /** One more filter appends exactly one `" AND "` and the next numbered
      fragment, and its value goes last. */
  lemma FilterSearchAppend(filters: Obj, k: string, v: Value, jsToSql: Table)
    requires filters != []
    ensures var before := SqlForFilterSearch(filters, jsToSql);
      SqlForFilterSearch(filters + [(k, v)], jsToSql)
        == FilterClause(before.filterCols + " AND " + FilterFragment(Template(k, jsToSql), |filters| + 1),
                        before.values + [v])
  {
    var filters' := filters + [(k, v)];
    KeysAt(filters);
    KeysAt(filters');
    var fs := FilterFragments(Keys(filters), jsToSql);
    var fs' := FilterFragments(Keys(filters'), jsToSql);
    assert fs' == fs + [FilterFragment(Template(k, jsToSql), |filters| + 1)];
    JoinAppend(fs, FilterFragment(Template(k, jsToSql), |filters| + 1), " AND ");
    assert Values(filters') == Values(filters) + [v];
  }

  /** The WHERE clause of a single filter `k` is `<template> $1`. */
  lemma FilterSearchSingle(k: string, v: Value, jsToSql: Table)
    ensures SqlForFilterSearch([(k, v)], jsToSql)
         == FilterClause(Template(k, jsToSql) + " $1", [v])
  {
    var fs := FilterFragments(Keys([(k, v)]), jsToSql);
    assert fs == [FilterFragment(Template(k, jsToSql), 1)];
    assert NatToString(1) == "1";
    assert FilterFragment(Template(k, jsToSql), 1) == Template(k, jsToSql) + " $1";
    assert Values([(k, v)]) == [v];
  }

  const UserColumns: Table := map["firstName" := "first_name", "lastName" := "last_name", "isAdmin" := "is_admin"]

  const CompanyTemplates: Table := map["name" := "name ILIKE", "minEmployees" := "num_employees >=",
                                       "maxEmployees" := "num_employees <="]

  /** The sqlForPartialUpdate cases of helpers/sql.test.js, for any values
      of the fields. */
  lemma PartialUpdateExamples(firstName: Value, age: Value)
    ensures SqlForPartialUpdate([("firstName", firstName)], UserColumns)
         == Ok(SetClause("\"first_name\"=$1", [firstName]))
    ensures SqlForPartialUpdate([("firstName", firstName), ("age", age)], UserColumns)
         == Ok(SetClause("\"first_name\"=$1, \"age\"=$2", [firstName, age]))
  {
    assert Quote(Column("firstName", UserColumns)) + "=$1" == "\"first_name\"=$1";
    assert SetFragment(Column("age", UserColumns), 2) == "\"age\"=$2" by {
      assert NatToString(2) == "2";
    }
    assert "\"first_name\"=$1" + ", " + "\"age\"=$2" == "\"first_name\"=$1, \"age\"=$2";
    var one := [("firstName", firstName)];
    PartialUpdateSingle("firstName", firstName, UserColumns);
    PartialUpdateAppend(one, "age", age, UserColumns);
    assert one + [("age", age)] == [("firstName", firstName), ("age", age)];
    assert [firstName] + [age] == [firstName, age];
  }

  lemma CompanyTemplatesFacts()
    ensures Template("name", CompanyTemplates) + " $1" == "name ILIKE $1"
    ensures FilterFragment(Template("minEmployees", CompanyTemplates), 2) == "num_employees >= $2"
    ensures FilterFragment(Template("maxEmployees", CompanyTemplates), 3) == "num_employees <= $3"
  {
    assert NatToString(2) == "2" && NatToString(3) == "3";
  }

  lemma CompanyClauseTextTwo()
    ensures "name ILIKE $1" + " AND " + "num_employees >= $2" == "name ILIKE $1 AND num_employees >= $2"
  {
  }

  lemma CompanyClauseTextThree()
    ensures "name ILIKE $1 AND num_employees >= $2" + " AND " + "num_employees <= $3"
         == "name ILIKE $1 AND num_employees >= $2 AND num_employees <= $3"
  {
  }

  /** The sqlForFilterSearch cases of helpers/sql.test.js, for any values
      of the filters. */
  lemma FilterSearchExamples(name: Value, minEmployees: Value, maxEmployees: Value)
    ensures SqlForFilterSearch([("name", name)], CompanyTemplates)
         == FilterClause("name ILIKE $1", [name])
    ensures SqlForFilterSearch([("name", name), ("minEmployees", minEmployees)], CompanyTemplates)
         == FilterClause("name ILIKE $1 AND num_employees >= $2", [name, minEmployees])
    ensures SqlForFilterSearch([("name", name), ("minEmployees", minEmployees), ("maxEmployees", maxEmployees)],
                               CompanyTemplates)
         == FilterClause("name ILIKE $1 AND num_employees >= $2 AND num_employees <= $3",
                         [name, minEmployees, maxEmployees])
  {
    var one := [("name", name)];
    var two := one + [("minEmployees", minEmployees)];
    FilterSearchSingle("name", name, CompanyTemplates);
    FilterSearchAppend(one, "minEmployees", minEmployees, CompanyTemplates);
    FilterSearchAppend(two, "maxEmployees", maxEmployees, CompanyTemplates);
    CompanyTemplatesFacts();
    CompanyClauseTextTwo();
    CompanyClauseTextThree();
    assert two == [("name", name), ("minEmployees", minEmployees)];
    assert two + [("maxEmployees", maxEmployees)] == [("name", name), ("minEmployees", minEmployees), ("maxEmployees", maxEmployees)];
  }
}
