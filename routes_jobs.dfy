/** The `GET /` handler of routes/jobs.js, up to the call into the job
    model. */
module JobRoutes {
  import opened Js
  import opened Db
  import opened Routing
  import JobModel

  const Allowed := ["title", "minSalary", "hasEquity"]

  /** The handler's decision for a query string: the allow-list check is
      the only one. */
  function GetAll(q: QueryString): (r: Outcome)
    ensures r.FindAll? <==> q == []
    ensures r.Search? <==> q != [] && forall i :: 0 <= i < |q| ==> q[i].0 in Allowed
    ensures r.Search? ==> r.filters == ToObj(q)
    ensures r.Rejected? ==> r.status == 400
    ensures r.Search? && DistinctNames(q) ==> DistinctKeys(r.filters)
  {
    Screen(q, Allowed)
  }

  /** An unsupported key is reported by name, the first one in order. */
  lemma RejectsFirstUnsupported(q: QueryString, i: nat)
    requires i < |q| && q[i].0 !in Allowed
    requires forall j :: 0 <= j < i ==> q[j].0 in Allowed
    ensures GetAll(q) == Rejected(400, UnsupportedMessage(q[i].0))
  {
    ScreenReportsFirst(q, Allowed, i);
  }

  /** Every key of an accepted search is `hasEquity`, which the model
      handles itself, or has a template in the model's table. */
  lemma AcceptedKeysTranslated(q: QueryString)
    requires GetAll(q).Search?
    ensures var filters := GetAll(q).filters;
      filters != [] &&
      forall i :: 0 <= i < |filters| ==> filters[i].0 == "hasEquity" || filters[i].0 in JobModel.FilterTable
  {
    var filters := ToObj(q);
    forall i | 0 <= i < |filters|
      ensures filters[i].0 == "hasEquity" || filters[i].0 in JobModel.FilterTable
    {
      assert q[i].0 in Allowed;
    }
  }

  /** `?hasEquity=false` is accepted and still restricts the search to
      jobs with equity: the text "false" is truthy. */
  lemma HasEquityFalseFilters()
    ensures GetAll([("hasEquity", "false")]) == Search([("hasEquity", Str("false"))])
    ensures JobModel.FilterSearchEffect([("hasEquity", Str("false"))]).query
         == Query(JobModel.SelectJobs + " equity > 0", [])
  {
    assert ToObj([("hasEquity", "false")]) == [("hasEquity", Str("false"))];
    JobModel.EquityOnly(Str("false"));
  }

  /** `?hasEquity=` is accepted, but the empty flag is falsy, stays in the
      object and reaches the builder, which renders it as "undefined $1". */
  lemma EmptyHasEquityReachesBuilder()
    ensures GetAll([("hasEquity", "")]) == Search([("hasEquity", Str(""))])
    ensures JobModel.FilterSearchEffect([("hasEquity", Str(""))]).query
         == Query(JobModel.SelectJobs + "undefined $1", [Bound(Str(""))])
  {
    assert ToObj([("hasEquity", "")]) == [("hasEquity", Str(""))];
    JobModel.FalsyEquityReachesBuilder();
  }
}
