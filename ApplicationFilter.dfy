/** The status tabs of a seeker's application list
    (frontend/src/pages/Application.tsx). */
module ApplicationFilter {
  import opened Models

  /** The tabs the page offers. */
  const OfferedFilters: seq<string> := ["all", "pending", "accepted", "rejected"]

  predicate Shown(a: Application, filter: string) {
    filter == "all" || StatusName(a.status) == filter
  }

  /** `filteredApps`: everything under "all", otherwise exactly the
      applications whose status is named by the filter. */
  function Filtered(apps: seq<Application>, filter: string): (shown: seq<Application>)
    ensures |shown| <= |apps|
    ensures filter == "all" ==> shown == apps
    ensures filter != "all" ==> forall i | 0 <= i < |shown| :: StatusName(shown[i].status) == filter
    ensures forall i | 0 <= i < |apps| && Shown(apps[i], filter) :: apps[i] in shown
    ensures forall i | 0 <= i < |shown| :: shown[i] in apps
  {
    if apps == [] then []
    else (if Shown(apps[0], filter) then [apps[0]] else []) + Filtered(apps[1..], filter)
  }

  /** Filtering keeps the original order: it distributes over
      concatenation. */
  lemma {:induction false} FilteredConcat(a: seq<Application>, b: seq<Application>, filter: string)
    ensures Filtered(a + b, filter) == Filtered(a, filter) + Filtered(b, filter)
    decreases |a|
  {
    if a == [] {
      assert a + b == b;
    } else {
      assert (a + b)[1..] == a[1..] + b;
      FilteredConcat(a[1..], b, filter);
    }
  }

  /** No offered tab but "all" shows a reviewed application. */
  lemma ReviewedOnlyUnderAll(apps: seq<Application>, filter: string)
    requires filter in OfferedFilters && filter != "all"
    ensures forall i | 0 <= i < |Filtered(apps, filter)| :: Filtered(apps, filter)[i].status != Reviewed
  {
  }
}
