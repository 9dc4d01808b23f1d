/** What the two `GET /` search routes share: the request's query string,
    the allow-list check on its keys, and the possible outcomes. */
module Routing {
  import opened Js

  /** A parsed query string: each parameter's name and its text, in the
      order `Object.keys(req.query)` lists them. */
  type QueryString = seq<(string, string)>

  /** `req.query` as an object: every value is a string. */
  function ToObj(q: QueryString): (o: Obj)
    ensures |o| == |q|
    ensures forall i :: 0 <= i < |q| ==> o[i] == (q[i].0, Str(q[i].1))
  {
    seq(|q|, i requires 0 <= i < |q| => (q[i].0, Str(q[i].1)))
  }

  /** No parameter name occurs twice, as in every object Express parses
      a query string into. */
  predicate DistinctNames(q: QueryString)
  {
    forall i, j :: 0 <= i < j < |q| ==> q[i].0 != q[j].0
  }

  /** Such a query string gives an object with distinct keys. */
  lemma ToObjDistinct(q: QueryString)
    ensures DistinctNames(q) ==> DistinctKeys(ToObj(q))
  {
    if DistinctNames(q) {
      var o := ToObj(q);
      forall i, j | 0 <= i < j < |o| ensures o[i].0 != o[j].0 {
        assert o[i].0 == q[i].0 && o[j].0 == q[j].0;
      }
      DistinctKeysByIndex(o);
    }
  }

  /** How a route handler ends: listing everything, searching with the
      given object, or passing an error with an HTTP status to `next`. */
  datatype Outcome = FindAll | Search(filters: Obj) | Rejected(status: nat, message: string)

  /** The index of the first key that is not allowed, where the `forEach`
      loop throws. */
  function FirstUnsupported(keys: seq<string>, allowed: seq<string>): (r: Option<nat>)
    ensures r.None? <==> forall i :: 0 <= i < |keys| ==> keys[i] in allowed
    ensures r.Some? ==> r.value < |keys| && keys[r.value] !in allowed
    ensures r.Some? ==> forall i :: 0 <= i < r.value ==> keys[i] in allowed
    decreases |keys|
  {
    if keys == [] then None
    else if keys[0] !in allowed then Some(0)
    else match FirstUnsupported(keys[1..], allowed)
      case None => None
      case Some(j) => Some(j + 1)
  }

  /** The first key that fails the allow-list is the one reported: no
      other index has the properties `FirstUnsupported` promises. */
  lemma {:induction false} FirstUnsupportedUnique(keys: seq<string>, allowed: seq<string>, i: nat)
    requires i < |keys| && keys[i] !in allowed
    requires forall j :: 0 <= j < i ==> keys[j] in allowed
    ensures FirstUnsupported(keys, allowed) == Some(i)
    decreases i
  {
    if i > 0 {
      assert keys[0] in allowed;
      assert forall j :: 0 <= j < i - 1 ==> keys[1..][j] == keys[j + 1];
      FirstUnsupportedUnique(keys[1..], allowed, i - 1);
    }
  }

  function UnsupportedMessage(param: string): string
  {
    "Filter " + param + " is not supported"
  }

  /** The common part of both handlers: an empty query string lists
      everything, the first key outside `allowed` is rejected with status
      400, and otherwise the query object goes to the search. */
  function Screen(q: QueryString, allowed: seq<string>): (r: Outcome)
    ensures r.FindAll? <==> q == []
    ensures r.Search? <==> q != [] && forall i :: 0 <= i < |q| ==> q[i].0 in allowed
    ensures r.Search? ==> r.filters == ToObj(q)
    ensures r.Rejected? ==> r.status == 400
    ensures r.Search? && DistinctNames(q) ==> DistinctKeys(r.filters)
  {
    ToObjDistinct(q);
    var searchParams := Keys(ToObj(q));
    KeysAt(ToObj(q));
    if |searchParams| == 0 then FindAll
    else match FirstUnsupported(searchParams, allowed)
      case Some(i) => Rejected(400, UnsupportedMessage(searchParams[i]))
      case None => Search(ToObj(q))
  }

  /** A rejected key is reported by name: the first one, in query-string
      order, that is not allowed. */
  lemma ScreenReportsFirst(q: QueryString, allowed: seq<string>, i: nat)
    requires i < |q| && q[i].0 !in allowed
    requires forall j :: 0 <= j < i ==> q[j].0 in allowed
    ensures Screen(q, allowed) == Rejected(400, UnsupportedMessage(q[i].0))
  {
    KeysAt(ToObj(q));
    FirstUnsupportedUnique(Keys(ToObj(q)), allowed, i);
  }
}
