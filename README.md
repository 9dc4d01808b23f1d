# Jobly dynamic SQL clause builder, in Dafny

Jobly is a small job board API over two record kinds, companies and jobs.
This project models its dynamic SQL layer:

- **The two clause builders** in `helpers/sql.js`:
  - `sqlForPartialUpdate` turns an object of fields into a
    `"col"=$1, "col2"=$2` SET clause plus the matching value list.
  - `sqlForFilterSearch` turns an object of filters into a
    `tmpl $1 AND tmpl2 $2` WHERE clause plus the matching value list.
- **The model code that composes statements from them**:
  - `Job.filterSearch` and `Company.filterSearch` wrap the title or name
    in `%`.
  - `Job.filterSearch` turns a truthy `hasEquity` flag into the static
    predicate `equity > 0`.
  - `Job.update` and `Company.update` put the row key after the SET
    clause, as placeholder `$(n+1)`.
- **The decision logic of the two `GET /` search routes**:
  - An empty query string lists everything.
  - An allow-list check rejects unknown keys.
  - For companies, a range check rejects an inverted min/max pair.

## Modules

| Module | What it models |
|---|---|
| `Js` (`js.dfy`) | JavaScript objects and the operations the code uses on them |
| `Text` (`text.dfy`) | Decimal rendering, `join`, the placeholder scanner, JavaScript string order |
| `Db` (`db.dfy`) | What is handed to `db.query`, and the UPDATE shape both models share |
| `SqlHelpers` (`sql.dfy`) | The two builders |
| `JobModel` (`job.dfy`) | The job model |
| `CompanyModel` (`company.dfy`) | The company model |
| `Routing` (`routing.dfy`) | What the two route handlers share |
| `CompanyRoutes` (`routes_companies.dfy`) | The companies route handler |
| `JobRoutes` (`routes_jobs.dfy`) | The jobs route handler |

How the modules represent things:

- **Objects.** An object is an ordered sequence of (key, value) pairs, in
  `Object.keys` order.
- **Values.** A value is either a string or an opaque value. An opaque
  value is known only by the text a template literal renders for it and
  by its truthiness.
- **Truthiness.** A string is truthy exactly when it is non-empty
  (`Js.Truthy`). Every query-string value is a string, so `?hasEquity=`
  gives a falsy flag and `?hasEquity=false` a truthy one.
- **Mutable objects.** The filter objects that the two `filterSearch`
  methods rewrite in place are instances of the class `Js.JsObject`.
  Those methods are imperative. Each one is specified by a pure
  `FilterSearchEffect` function, which gives the object as the method
  leaves it and the query it sends.
- **Everything else is a function.** The builders, the update assembly
  and the route decisions are pure in the source, and they are functions
  here.

The central invariant is `Db.Aligned`. The statement text must contain
the placeholders `$1 .. $n`, in order, where n is the length of the
parameter list. Placeholders are found by scanning for each `$` and
reading the digits after it. So this invariant is proved about the text
the code actually builds, not about a count kept on the side.

## Behaviour of the code worth knowing

Each item below is what the code does, with the lines that do it. The
model does the same.

- **Double wrapping.** The `%` wrapping rewrites the caller's object in
  place (models/job.js:63, models/company.js:75). A second search of the
  same object wraps the value again. The comment at models/company.js:75
  already suggests moving the wrapping into the route.
  - `Js.WildcardTwice` and `JobModel.SecondSearchWrapsAgain` state this.
- **The " AND" guard.** Before the equity predicate, models/job.js:84
  adds " AND" when `title` or `minSalary` is truthy. It does not test
  whether the builder's clause is empty, and the builder includes every
  property present, truthy or not:
  - `{title: "", hasEquity}` with a truthy flag gives
    `title ILIKE $1 equity > 0`;
  - the flag alone gives ` equity > 0`, with a leading space.
  - `JobModel.EmptyTitleMissesAnd` and `JobModel.EquityOnly` state these.
- **A missing filter template.** helpers/sql.js:82 interpolates
  `jsToSql[filterName]` with no fallback. A key with no entry renders as
  the text "undefined", and no error is raised. The case is reachable
  from `?hasEquity=`, because an empty flag is falsy and stays in the
  object (models/job.js:66):
  - `JobModel.FalsyEquityReachesBuilder`;
  - `JobRoutes.EmptyHasEquityReachesBuilder`.
- **The range check.** The comment at routes/companies.js:74 says the
  route ensures that minEmployees is not greater than maxEmployees. The
  test on line 75 applies `>` to the two raw query-string texts, so it
  compares them as strings: "9" > "10".
  - `CompanyRoutes.RangeCheckIsLexicographic` states this.
- **The company search parameters.** models/company.js:94 passes
  `[values]` to the database: one array parameter, not one parameter per
  placeholder. The comment at models/company.js:110-112 gives the
  intended list as the values themselves, `['%net%', minEmployees,
  maxEmployees]`.
  - `CompanyModel.SearchMisbinds` states this.

Helpers that carry no contract of their own, and the lines they model:

- `Js.Without`: a key list with one key taken out, the order kept
  (models/job.js:68).
- `JobModel.EquityRequested` and `JobModel.FilterSearchEffect`: the
  object and the query of `Job.filterSearch` (models/job.js:62-96).
- `JobModel.WhereText`: the equity predicate and its " AND" guard
  (models/job.js:83-86).
- `CompanyModel.FilterSearchEffect`: the object and the query of
  `Company.filterSearch` (models/company.js:74-94).
- `Js.Truthy` and `Js.TruthyProp`: the tests `if (filters.x)` and
  `a && b` (models/job.js:63, 66 and 84, models/company.js:75,
  routes/companies.js:75).
- `Js.Show`: the text `${v}` renders (models/job.js:63,
  helpers/sql.js:82).
- `Js.JsObject.Prop`: the reads of `filters.title` and
  `filters.hasEquity` (models/job.js:63 and 66) and of `filters.name`
  (models/company.js:75).
- `SqlHelpers.Quote` and `SqlHelpers.SetFragment`: the callback template
  `"${…}"=$${idx + 1}` (helpers/sql.js:26).
- `SqlHelpers.FilterFragment`: the callback template
  `${…} $${idx + 1}` (helpers/sql.js:82).
- `Routing.UnsupportedMessage`: the error text
  `Filter ${param} is not supported` (routes/jobs.js:72,
  routes/companies.js:70).
- `Text.StrLess`: `<` and `>` on two strings, as applied to the raw
  query texts at routes/companies.js:75.
- `Text.Placeholders` and `Text.DigitsValue`: how PostgreSQL reads the
  placeholders `$n` that helpers/sql.js:26 and 82 and models/job.js:142
  write, as `$` followed by the decimal value of its digits.
- `Text.Join`: `Array.prototype.join` (helpers/sql.js:30 and 86).
- `SqlHelpers.Column`: `jsToSql[colName] || colName` (helpers/sql.js:26).
- `SqlHelpers.Template`: `${jsToSql[filterName]}` (helpers/sql.js:82).
- `CompanyRoutes.RangeInverted`: the range test (routes/companies.js:75).
- `Routing.DistinctNames`: no query parameter name occurs twice, as in
  the object `req.query` that `Object.keys` reads (routes/jobs.js:60).

## Model

| member | source | states |
|---|---|---|
| Js.Get | models/job.js:63 | A property read finds a value exactly when the key is among the object's keys, and the value is the one stored under that key |
| Js.Keys | helpers/sql.js:21 | `Object.keys` lists one key per property |
| Js.Values | helpers/sql.js:31 | `Object.values` lists the values in key order, one per property |
| Js.Assign | models/job.js:63 | After `o[k] = v`, `o[k]` reads `v` and every other key reads as before |
| Js.AssignKeys | models/job.js:63 | Assigning an existing key keeps the key order; a new key goes last |
| Js.Remove | models/job.js:68 | After `delete o[k]`, `k` is absent, every other key reads as before, and there is one property fewer exactly when `k` was present |
| Js.RemoveKeys | models/job.js:68 | `delete o[k]` leaves the other keys in their order: the key list afterwards is the old one with `k` taken out |
| Js.DistinctKeysByIndex | routes/jobs.js:60 | Pairwise different names make an object with distinct keys |
| Js.Wildcard | models/job.js:63 | A truthy property is replaced by its text wrapped in `%`; a falsy or missing one leaves the object as it was; keys and all other properties are unchanged |
| Js.Wrap | models/job.js:63 | The template literal `%${…}%` gives a non-empty text, whatever it wraps (also models/company.js:75) |
| Js.WildcardTwice | models/job.js:63 | Applying the rewrite to its own result wraps the value twice |
| Js.JsObject.Put | models/job.js:63 | The assignment `o[k] = v` replaces the object's properties by `Assign` of the old ones and keeps the keys distinct |
| Js.JsObject.Delete | models/job.js:68 | `delete o[k]` replaces the object's properties by `Remove` of the old ones and keeps the keys distinct |
| Text.NatToString | helpers/sql.js:26 | The rendering of `idx + 1` is a non-empty string of decimal digits |
| Text.DigitsRoundTrip | helpers/sql.js:26 | Reading back the digits of a rendered number gives the number |
| Text.Placeholder | helpers/sql.js:26 | `$${idx + 1}` is a `$` followed by a non-empty run of decimal digits; the update key's `"$" + (values.length + 1)` (models/job.js:142) is built the same way |
| Text.PlaceholderIndex | helpers/sql.js:26 | The text `$i` holds exactly the one placeholder `i` |
| Text.PlaceholdersAppend | helpers/sql.js:30 | The placeholders of a concatenation are those of its parts, when the second part does not begin with a digit |
| Text.JoinPlaceholders | helpers/sql.js:30 | Joining fragments that hold `$start`, `$start+1`, … with a `$`-free separator gives exactly those placeholders in order |
| Text.JoinCountChar | helpers/sql.js:30 | When no part contains the character c, a join of n parts contains c exactly n - 1 times as often as the separator does |
| Text.StrLessTransitive | routes/companies.js:75 | JavaScript's string `<` is transitive |
| Text.StrLessTotal | routes/companies.js:75 | Of two different strings, one is `<` the other |
| Text.StrLessIsNotNumeric | routes/companies.js:75 | String order is not numeric order: "10" < "9" |
| Db.BindEach | models/job.js:96 | The parameter list binds each value, in order, as its own parameter |
| Db.KeyedUpdate | models/job.js:142-152 | The UPDATE statement's parameters are the SET values in order, then the row key last |
| Db.KeyedUpdateAligned | models/job.js:142-152 | When the SET clause holds `$1 .. $n` and the fixed text holds no `$`, the key's placeholder `"$" + (n + 1)` makes the statement aligned with `[...values, key]` |
| SqlHelpers.SetFragments | helpers/sql.js:25-27 | One fragment per key |
| SqlHelpers.SqlForPartialUpdate | helpers/sql.js:20-33 | Fails with BadRequestError("No data") exactly when the object has no keys; otherwise the value list is `Object.values` of the object |
| SqlHelpers.PartialUpdateAligned | helpers/sql.js:25-32 | With `$`-free column names, the SET clause holds the placeholders `$1 .. $n` in key order, and value i is the i-th field's value |
| SqlHelpers.PartialUpdateSingle | helpers/sql.js:25-30 | One field gives `"col"=$1`, where col is the table's translation, or the key when the entry is missing or empty |
| SqlHelpers.PartialUpdateAppend | helpers/sql.js:25-31 | One more field appends `, "col"=$(n+1)` to the clause and its value to the value list |
| SqlHelpers.PartialUpdateSeparators | helpers/sql.js:30 | With comma-free column names, n fields give exactly n - 1 commas |
| SqlHelpers.PartialUpdateExamples | helpers/sql.test.js:5-32 | `{firstName}` gives `"first_name"=$1`; `{firstName, age}` gives `"first_name"=$1, "age"=$2`, with the values in order |
| SqlHelpers.FilterFragments | helpers/sql.js:81-83 | One fragment per key |
| SqlHelpers.SqlForFilterSearch | helpers/sql.js:77-89 | No emptiness check: an empty object gives the clause "" and no values; the value list is always `Object.values` of the object |
| SqlHelpers.FilterSearchAligned | helpers/sql.js:81-88 | With `$`-free templates, the WHERE clause holds `$1 .. $n` in key order, and value i is the i-th filter's value, whether or not every key has a template |
| SqlHelpers.FilterSearchSingle | helpers/sql.js:81-86 | One filter gives `<template> $1`, where the template is "undefined" when the table has no entry |
| SqlHelpers.FilterSearchAppend | helpers/sql.js:81-87 | One more filter appends ` AND <template> $(n+1)` to the clause and its value to the value list |
| SqlHelpers.FilterSearchExamples | helpers/sql.test.js:35-76 | One, two and three company filters give `name ILIKE $1`, then ` AND num_employees >= $2`, then ` AND num_employees <= $3`, with the values in order |
| JobModel.Prepared | models/job.js:63-69 | The object the job search leaves behind is still an object with distinct keys |
| JobModel.FilterSearch | models/job.js:62-96 | Leaves the caller's object and returns the query exactly as `JobModel.FilterSearchEffect` gives them for the object as it was, and the object keeps distinct keys |
| JobModel.WhereTextPlaceholders | models/job.js:83-86 | The equity predicate and its " AND" add no placeholder: the WHERE text holds exactly the builder's placeholders |
| JobModel.SearchAligned | models/job.js:81-96 | Every job search statement is aligned; parameter i is the i-th property left in the object |
| JobModel.SearchKeepsKeyOrder | models/job.js:63-68 | The object left behind lists the caller's keys in the caller's order, minus `hasEquity` when it is truthy; with `SearchAligned`, `$i` binds the i-th of those keys |
| JobModel.TitleWrapped | models/job.js:63 | A truthy title is left wrapped in `%`, any other title is untouched, and no property other than `title` and `hasEquity` changes |
| JobModel.EquityExtracted | models/job.js:66-69 | A truthy `hasEquity` is deleted before the builder runs, so the object and the parameter list both shrink by one |
| JobModel.PreparedGuard | models/job.js:84 | The title rewrite does not change whether `title` or `minSalary` is truthy |
| JobModel.EquityAppended | models/job.js:83-86 | With the flag set, the WHERE text is the clause + " AND equity > 0" when `title` or `minSalary` is truthy, and the clause + " equity > 0" otherwise |
| JobModel.NoEquityPlainClause | models/job.js:81-94 | Without the flag, the WHERE text is the builder's clause for the wrapped object |
| JobModel.EquityOnly | models/job.js:81-85 | The flag alone gives WHERE ` equity > 0`, no parameters, and an empty object |
| JobModel.EmptyTitleMissesAnd | models/job.js:84 | `{title: "", hasEquity}` with a truthy flag gives `title ILIKE $1 equity > 0`, with no AND |
| JobModel.FalsyEquityReachesBuilder | models/job.js:66-81 | `{hasEquity: ""}` stays in the object and renders as `undefined $1`, bound to "" |
| JobModel.SecondSearchWrapsAgain | models/job.js:63 | Searching again with the object a search left behind wraps the title a second time |
| JobModel.SalaryAndEquityExample | models/job.js:71-86 | `{minSalary, hasEquity}` with both values truthy gives `salary >= $1 AND equity > 0`, bound to the salary only |
| JobModel.TitleExample | models/job.js:63-81 | `{title: "eng"}` gives `title ILIKE $1`, bound to "%eng%" |
| JobModel.Update | models/job.js:137-152 | Empty data fails with the builder's BadRequestError("No data"); otherwise the parameters are the fields' values in order, then the id |
| JobModel.UpdateAligned | models/job.js:142-152 | With `$`-free field names the statement is aligned: `$1 .. $n` bind the fields in order, and `$(n+1)` binds the id |
| JobModel.UpdateColumns | models/job.js:138-141 | `Job.update` passes the empty table, so every SET column is the JS key itself |
| JobModel.UpdateSingleField | models/job.js:138-151 | With the empty table, the column is the quoted key: `"k"=$1 WHERE id = $2`, bound to the value and then the id |
| CompanyModel.FilterSearch | models/company.js:74-94 | Leaves the caller's object and returns the query exactly as `CompanyModel.FilterSearchEffect` gives them for the object as it was, and the object keeps distinct keys |
| CompanyModel.NameWrapped | models/company.js:75 | A truthy name is left wrapped in `%`; keys and every other property are unchanged, and a falsy name leaves the object as it was |
| CompanyModel.SearchStatement | models/company.js:77-94 | The WHERE content is exactly the builder's clause, numbering `$1 .. $n`, while the parameter list is a single array holding the n values |
| CompanyModel.SearchMisbinds | models/company.js:94 | The statement is aligned with its parameters exactly when there is one filter, and no parameter is a single bound value |
| CompanyModel.NameExample | models/company.js:75-94 | `{name: "tech"}` gives `name ILIKE $1` with the parameter list `[["%tech%"]]` |
| CompanyModel.Update | models/company.js:174-191 | Empty data fails with the builder's BadRequestError("No data"); otherwise the parameters are the fields' values in order, then the handle |
| CompanyModel.UpdateColumns | models/company.js:175-180 | `numEmployees` is written to `num_employees` and `logoUrl` to `logo_url`; every other key is written to a column of its own name |
| CompanyModel.UpdateAligned | models/company.js:181-191 | With `$`-free field names the statement is aligned, and `$(n+1)` binds the handle |
| CompanyModel.UpdateSingleField | models/company.js:175-190 | One field gives `"col"=$1 WHERE handle = $2`, and `numEmployees` becomes `"num_employees"` |
| CompanyModel.UpdateExample | models/company.js:174-191 | `{name: "New Label"}` for "co1" gives `"name"=$1 WHERE handle = $2`, bound to "New Label" and "co1" |
| Routing.ToObj | routes/jobs.js:60 | `req.query` has one string-valued property per query parameter, in order |
| Routing.FirstUnsupported | routes/jobs.js:70-74 | None exactly when every key is allowed; otherwise the index of a key that is not allowed, with every earlier key allowed |
| Routing.FirstUnsupportedUnique | routes/jobs.js:70-74 | The key the `forEach` loop throws at is the first key, in order, that is not allowed |
| Routing.ToObjDistinct | routes/jobs.js:60 | A query string whose names are all different becomes an object with distinct keys |
| Routing.Screen | routes/jobs.js:60-77 | An empty query lists all; a query with only allowed keys goes unchanged to the search, with distinct keys when the names are distinct; anything else is a 400 |
| Routing.ScreenReportsFirst | routes/jobs.js:70-74 | The 400 names the first unsupported key: "Filter k is not supported" |
| CompanyRoutes.GetAll | routes/companies.js:55-80 | Lists all exactly for an empty query, and searches with the query unchanged exactly when every key is allowed and the range is not inverted; every rejection is a 400; the filters handed on have distinct keys when the names are distinct |
| CompanyRoutes.RejectsFirstUnsupported | routes/companies.js:68-77 | The allow-list check comes first: the first unsupported key is reported even when the range is also inverted |
| CompanyRoutes.RejectsInvertedRange | routes/companies.js:75-77 | With allowed keys only, an inverted range is rejected with "minEmployees cannot be greater than maxEmployees" |
| CompanyRoutes.AcceptedKeysTranslated | routes/companies.js:80 | Every accepted search is non-empty, and each of its keys has a template in the company filter table |
| CompanyRoutes.RangeCheckIsLexicographic | routes/companies.js:75-77 | min "9" with max "10" is rejected; min "10" with max "9" is accepted |
| CompanyRoutes.Bounds | routes/companies.js:75 | The query string `minEmployees=min&maxEmployees=max` reads `min` and `max` as its two bounds |
| CompanyRoutes.EqualBoundsAccepted | routes/companies.js:75 | Equal bounds are never an inverted range |
| CompanyRoutes.ExactlyOneOrderRejected | routes/companies.js:75 | Of two different non-empty bounds, exactly one of the two orders counts as inverted: the text comparison is a strict total order |
| JobRoutes.GetAll | routes/jobs.js:57-77 | Lists all exactly for an empty query, and searches with the query unchanged exactly when every key is allowed; there is no range check; every rejection is a 400; the filters handed on have distinct keys when the names are distinct |
| JobRoutes.RejectsFirstUnsupported | routes/jobs.js:70-74 | The first unsupported key is the one reported |
| JobRoutes.AcceptedKeysTranslated | routes/jobs.js:77 | Every key of an accepted search is `hasEquity` or has a template in the job filter table |
| JobRoutes.HasEquityFalseFilters | routes/jobs.js:77 | `?hasEquity=false` is accepted and still restricts the search to `equity > 0`, because "false" is a truthy string |
| JobRoutes.EmptyHasEquityReachesBuilder | routes/jobs.js:77 | `?hasEquity=` is accepted and reaches the builder as `undefined $1` |

The builders take and return plain values, so they cannot mutate their
inputs. Identical inputs give identical outputs because they are
functions.

## Left out

- **Database round trips.** `db.query`, the returned rows, and everything
  that depends on them are left out. That covers `create`, `get`,
  `findAll`, `remove` and the NotFound checks after `update`. The model
  stops at the statement text and parameter list handed to `db.query`.
- **Framework glue.** Express routing, HTTP responses, `jsonschema`
  validation of request bodies and the authorization middleware are
  left out. Route outcomes are the values `FindAll`, `Search` and
  `Rejected(400, message)`.
- **Logging and dead code.** The `console.log` of the company search
  statement and the commented-out code in both models are not modelled.
- **SQL whitespace.** The statements' line breaks and indentation are
  written as single spaces. Placeholders and their order do not depend
  on whitespace.
- **Key order details.** `Object.keys` puts integer-like keys first; the
  model keeps objects in the order given.
- **Property lookup.** Inherited properties are not modelled.
- **Repeated and nested query parameters.** These become arrays or
  nested objects in `req.query`; the model treats every query value as a
  string. A `Routing.QueryString` may list a name twice, which a parsed
  `req.query` cannot; the route lemmas give distinct keys for the
  query strings whose names are distinct (`Routing.DistinctNames`).
- **Value semantics.** Salaries, equity strings and numeric coercion are
  not modelled. Values are opaque, apart from their text and truthiness.
- **Placeholder scanner.** It reads every `$` followed by digits as a
  placeholder. It does not know PostgreSQL's `$$` quoting, nor that a `$`
  inside a double-quoted identifier such as `"a$1"` is part of the name.
  The fixed text of every statement is free of `$`; column names and
  templates come from the caller, and the alignment lemmas assume them
  free of `$`.
- **String order.** JavaScript compares strings by UTF-16 code units;
  the model compares Dafny characters, which are code points. The
  min/max bounds are arbitrary query text, and the two orders differ
  when a character above U+FFFF is compared with one between U+E000 and
  U+FFFF.
- SqlHelpers.SqlForFilterSearch: the clause text for a key with no
  template is the literal "undefined" that JavaScript interpolates. No
  error is raised, because the source raises none.
- SqlHelpers.PartialUpdateAligned: assumes column names without `$`.
  The builder quotes each column, and PostgreSQL reads a `$` inside the
  quotes as part of the name, but the scanner does not understand quoted
  identifiers and would count it; such names are excluded rather than
  modelled.
- SqlHelpers.FilterSearchAligned: assumes templates without `$`. A
  template is raw SQL text, so a `$` in it would be a placeholder.
- JobModel.UpdateAligned: assumes field names without `$`. Request
  bodies are schema-validated before they reach the model, and the
  schemas are not part of this model.
- CompanyModel.UpdateAligned: assumes field names without `$`, for the
  same reason.
