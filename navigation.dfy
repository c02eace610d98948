/** The tab bar of the site (src/components/layout/Navigation.tsx): which tab is active for
    the current path, and which path a tab click navigates to. The navigation itself is a
    call into the router and is not part of this model. */
module Navigation {
  import opened Wrappers
  import opened Seqs
  import opened Strings

  /** The `routes` table of `handleTabChange`, indexed by tab. */
  const Routes: seq<string> := ["/", "/research", "/team", "/publications", "/gallery", "/about"]

  /** The labels of the `tabs` table, in tab order. */
  const TabLabels: seq<string> := ["Home", "Research", "Team", "Publications", "Gallery", "About"]

  /** `getActiveTab`: the tab of each of the six known paths, and tab 0 for any other path. */
  function GetActiveTab(path: string): (tab: nat)
    ensures tab < |Routes|
  {
    if path == "/" then 0
    else if path == "/research" then 1
    else if path == "/team" then 2
    else if path == "/publications" then 3
    else if path == "/gallery" then 4
    else if path == "/about" then 5
    else 0
  }

  /** `routes[newValue]`: the path a tab click navigates to; an index outside the table
      reads `undefined`. */
  function RouteFor(newValue: int): (r: Option<string>)
    ensures r.Some? <==> 0 <= newValue < |Routes|
    ensures r.Some? ==> r.value in Routes
  {
    if 0 <= newValue < |Routes| then Some(Routes[newValue]) else None
  }

  /** No path is listed twice, so a route identifies its tab. */
  lemma RoutesDistinct()
    ensures NoDuplicates(Routes)
  {
  }

  /** Round trip: the route of every tab makes that tab active. */
  lemma ActiveTabOfRoute(i: nat)
    requires i < |Routes|
    ensures GetActiveTab(Routes[i]) == i
    ensures RouteFor(GetActiveTab(Routes[i])) == Some(Routes[i])
  {
  }

  /** Any path outside the table activates the Home tab. */
  lemma UnknownPathIsHome(path: string)
    requires path !in Routes
    ensures GetActiveTab(path) == 0
  {
  }

  /** Taking a path to its tab and back returns the path exactly for the six listed paths:
      every other path comes back as "/". */
  lemma RouteOfActiveTab(path: string)
    ensures Routes[GetActiveTab(path)] == path <==> path in Routes
    ensures path !in Routes ==> Routes[GetActiveTab(path)] == "/"
  {
    if path in Routes {
      var i :| 0 <= i < |Routes| && Routes[i] == path;
      ActiveTabOfRoute(i);
    }
  }

  /** Distinct paths can share a tab: the mapping from paths to tabs is not injective. */
  lemma ActiveTabNotInjective()
    ensures GetActiveTab("/contact") == GetActiveTab("/") && "/contact" != "/"
  {
  }

  /** The two tables have one entry per tab and agree index by index: tab 0 is the root
      and every other tab's path is "/" followed by its lowercased label. */
  lemma TablesAligned()
    ensures |Routes| == |TabLabels| == 6
    ensures Routes[0] == "/" && TabLabels[0] == "Home"
    ensures forall i :: 1 <= i < |Routes| ==> Routes[i] == "/" + ToLower(TabLabels[i])
  {
    assert ToLower("Research") == "research";
    assert ToLower("Team") == "team";
    assert ToLower("Publications") == "publications";
    assert ToLower("Gallery") == "gallery";
    assert ToLower("About") == "about";
  }
}
