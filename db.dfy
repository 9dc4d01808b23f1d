/** What a model hands to `db.query`: the statement text and the list of
    values bound to its positional parameters. */
module Db {
  import opened Js
  import opened Text

  /** One element of the parameter list: a single value, or a whole array
      passed as one parameter. */
  datatype Param = Bound(v: Value) | BoundArray(vs: seq<Value>)

  datatype Query = Query(sql: string, params: seq<Param>)

  /** The parameter list `values`, one parameter per value. */
  function BindEach(vs: seq<Value>): (ps: seq<Param>)
    ensures |ps| == |vs| && forall i :: 0 <= i < |vs| ==> ps[i] == Bound(vs[i])
  {
    seq(|vs|, i requires 0 <= i < |vs| => Bound(vs[i]))
  }

  /** The statement's placeholders are `$1 .. $n` in order, one per
      parameter: placeholder `$i` is bound to `params[i - 1]`, and every
      parameter is used. */
  predicate Aligned(q: Query)
  {
    Placeholders(q.sql) == OneTo(|q.params|)
  }

  /** What a search leaves in the caller's filter object, and the query it
      sends. */
  datatype SearchOutcome = SearchOutcome(filters: Obj, query: Query)

  /** The UPDATE statement both models assemble: `head`, the SET clause,
      `where`, then the placeholder `"$" + (values.length + 1)` for the row
      key, then `tail`; the parameters are `[...values, key]`. */
  function KeyedUpdate(head: string, setCols: string, values: seq<Value>, where: string, key: Value,
                       tail: string): (q: Query)
    ensures |q.params| == |values| + 1
    ensures forall i :: 0 <= i < |values| ==> q.params[i] == Bound(values[i])
    ensures q.params[|values|] == Bound(key)
  {
    Query(head + setCols + where + Placeholder(|values| + 1) + tail, BindEach(values) + [Bound(key)])
  }

  /** The text after the SET clause holds the one placeholder `$m`. */
  lemma KeyPlaceholder(where: string, m: nat, tail: string)
    requires NoDollar(where) && NoDollar(tail)
    requires tail != [] && tail[0] == ' '
    ensures Placeholders(where + Placeholder(m) + tail) == [m]
  {
    var p := Placeholder(m);
    assert where + p + tail == where + (p + tail);
    PlaceholdersSkip(where, p + tail);
    PlaceholdersAppend(p, tail);
    PlaceholderIndex(m);
    NoDollarNoPlaceholders(tail);
  }

  lemma RegroupSingle(a: string, b: string, c: string, d: string, e: string, f: string)
    ensures a + (b + c) + d + e + f == a + b + (c + d + e) + f
  {
  }

  /** When the SET clause numbers its values `$1 .. $n` and the fixed text
      holds no `$`, the key's placeholder is `$(n + 1)` and the statement
      is aligned with its parameters. */
  lemma KeyedUpdateAligned(head: string, setCols: string, values: seq<Value>, where: string, key: Value,
                           tail: string)
    requires NoDollar(head) && NoDollar(where) && NoDollar(tail)
    requires where != [] && where[0] == ' ' && tail != [] && tail[0] == ' '
    requires Placeholders(setCols) == OneTo(|values|)
    ensures Aligned(KeyedUpdate(head, setCols, values, where, key, tail))
  {
    var n := |values|;
    var rest := where + Placeholder(n + 1) + tail;
    assert head + setCols + where + Placeholder(n + 1) + tail == head + (setCols + rest);
    assert rest[0] == where[0];
    PlaceholdersSkip(head, setCols + rest);
    PlaceholdersAppend(setCols, rest);
    KeyPlaceholder(where, n + 1, tail);
    OneToNext(n);
  }
}
