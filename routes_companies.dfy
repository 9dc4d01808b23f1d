/** The `GET /` handler of routes/companies.js, up to the call into the
    company model. */
module CompanyRoutes {
  import opened Js
  import opened Text
  import opened Routing
  import CompanyModel

  const Allowed := ["minEmployees", "maxEmployees", "name"]

  const RangeMessage := "minEmployees cannot be greater than maxEmployees"

  /** `min && max && min > max`: both bounds are non-empty and compare
      inverted. The values are strings, so `>` orders them as text. */
  predicate RangeInverted(filters: Obj)
  {
    TruthyProp(filters, "minEmployees") && TruthyProp(filters, "maxEmployees")
    && StrLess(Show(Get(filters, "maxEmployees").value), Show(Get(filters, "minEmployees").value))
  }

  /** The handler's decision for a query string. */
  function GetAll(q: QueryString): (r: Outcome)
    ensures r.FindAll? <==> q == []
    ensures r.Search? <==>
      q != [] && (forall i :: 0 <= i < |q| ==> q[i].0 in Allowed) && !RangeInverted(ToObj(q))
    ensures r.Search? ==> r.filters == ToObj(q)
    ensures r.Rejected? ==> r.status == 400
    ensures r.Search? && DistinctNames(q) ==> DistinctKeys(r.filters)
  {
    match Screen(q, Allowed)
    case Search(filters) =>
      if RangeInverted(filters) then Rejected(400, RangeMessage) else Search(filters)
    case other => other
  }

  /** The allow-list check comes first: an unsupported key is reported
      even when the range is inverted too. */
  lemma RejectsFirstUnsupported(q: QueryString, i: nat)
    requires i < |q| && q[i].0 !in Allowed
    requires forall j :: 0 <= j < i ==> q[j].0 in Allowed
    ensures GetAll(q) == Rejected(400, UnsupportedMessage(q[i].0))
  {
    ScreenReportsFirst(q, Allowed, i);
  }

  /** With supported keys only, an inverted range is rejected with its
      own message. */
  lemma RejectsInvertedRange(q: QueryString)
    requires q != [] && forall i :: 0 <= i < |q| ==> q[i].0 in Allowed
    requires RangeInverted(ToObj(q))
    ensures GetAll(q) == Rejected(400, RangeMessage)
  {
  }

  /** Every accepted search has at least one filter, and each of its keys
      has a template in the model's table. */
  lemma AcceptedKeysTranslated(q: QueryString)
    requires GetAll(q).Search?
    ensures var filters := GetAll(q).filters;
      filters != [] && forall i :: 0 <= i < |filters| ==> filters[i].0 in CompanyModel.FilterTable
  {
    var filters := ToObj(q);
    forall i | 0 <= i < |filters| ensures filters[i].0 in CompanyModel.FilterTable {
      assert q[i].0 in Allowed;
    }
  }

  /** The range check compares text: `minEmployees=9&maxEmployees=10`,
      a valid range, is rejected, while the inverted
      `minEmployees=10&maxEmployees=9` is accepted. */
  lemma RangeCheckIsLexicographic()
    ensures GetAll([("minEmployees", "9"), ("maxEmployees", "10")]) == Rejected(400, RangeMessage)
    ensures GetAll([("minEmployees", "10"), ("maxEmployees", "9")]).Search?
  {
    assert StrLess("10", "9");
    assert !StrLess("9", "10");
    var q1 := [("minEmployees", "9"), ("maxEmployees", "10")];
    var o1 := ToObj(q1);
    assert o1 == [("minEmployees", Str("9")), ("maxEmployees", Str("10"))];
    assert Get(o1, "minEmployees") == Some(Str("9"));
    assert Get(o1, "maxEmployees") == Some(Str("10"));
    var q2 := [("minEmployees", "10"), ("maxEmployees", "9")];
    var o2 := ToObj(q2);
    assert o2 == [("minEmployees", Str("10")), ("maxEmployees", Str("9"))];
    assert Get(o2, "minEmployees") == Some(Str("10"));
    assert Get(o2, "maxEmployees") == Some(Str("9"));
  }

  /** The filters of the query string `minEmployees=min&maxEmployees=max`. */
  function Bounds(min: string, max: string): (o: Obj)
    ensures Get(o, "minEmployees") == Some(Str(min))
    ensures Get(o, "maxEmployees") == Some(Str(max))
  {
    var o := ToObj([("minEmployees", min), ("maxEmployees", max)]);
    assert o == [("minEmployees", Str(min)), ("maxEmployees", Str(max))];
    assert o[1..] == [("maxEmployees", Str(max))];
    o
  }

  /** Equal bounds are never rejected: the text order is strict. */
  lemma EqualBoundsAccepted(v: string)
    ensures !RangeInverted(Bounds(v, v))
  {
    StrLessIrreflexive(v);
  }

  /** Of two different non-empty bounds, exactly one order is rejected:
      the text order is total and asymmetric. */
  lemma ExactlyOneOrderRejected(a: string, b: string)
    requires a != "" && b != "" && a != b
    ensures RangeInverted(Bounds(a, b)) <==> !RangeInverted(Bounds(b, a))
  {
    StrLessTotal(a, b);
    if StrLess(a, b) && StrLess(b, a) {
      StrLessTransitive(a, b, a);
      StrLessIrreflexive(a);
    }
  }
}
