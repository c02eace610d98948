/** The logic of the Research page (src/pages/ResearchPage.tsx): the expand/collapse toggle
    of the project cards, the researcher lookup and the team list it feeds, and the end of a
    project's date range. The two state slots (`expandedProject`, `tabValue`) live in
    `ResearchView`. */
module ResearchPage {
  import opened Wrappers
  import opened Types
  import opened Seqs

  /** `handleExpandClick`'s new state: clicking the expanded card collapses it, clicking any
      other card expands that one instead. */
  function Toggle(expanded: Option<string>, projectId: string): (r: Option<string>)
    ensures r.None? <==> expanded == Some(projectId)
    ensures r.Some? ==> r.value == projectId
  {
    if expanded == Some(projectId) then None else Some(projectId)
  }

  /** Card `projectId` shows its details (`expandedProject === project.id`). */
  predicate IsExpanded(expanded: Option<string>, projectId: string) {
    expanded == Some(projectId)
  }

  /** Two clicks on the same card, starting from no expanded card, leave none expanded. */
  lemma ToggleTwiceFromNone(projectId: string)
    ensures Toggle(Toggle(None, projectId), projectId) == None
  {
  }

  /** Since the state is a single optional id, at most one card is expanded at a time, and
      after a click either exactly the clicked card is expanded or none is. */
  lemma AtMostOneExpanded(expanded: Option<string>, clicked: string, a: string, b: string)
    ensures IsExpanded(expanded, a) && IsExpanded(expanded, b) ==> a == b
    ensures IsExpanded(Toggle(expanded, clicked), a) ==> a == clicked
  {
  }

  function ResearcherHasId(id: string): Researcher -> bool {
    (r: Researcher) => r.id == id
  }

  /** `getResearcherById`: `researchers.find(researcher => researcher.id === id)`. */
  function GetResearcherById(researchers: seq<Researcher>, id: string): (r: Option<Researcher>)
    ensures r.None? <==> forall x :: x in researchers ==> x.id != id
    ensures r.Some? ==> r.value in researchers && r.value.id == id
  {
    Find(researchers, ResearcherHasId(id))
  }

  /** The researcher returned is the first one carrying the id. */
  lemma GetResearcherByIdFirst(researchers: seq<Researcher>, id: string)
    requires GetResearcherById(researchers, id).Some?
    ensures exists k :: 0 <= k < |researchers| && researchers[k] == GetResearcherById(researchers, id).value
                        && forall j :: 0 <= j < k ==> researchers[j].id != id
  {
    var k := FindIndex(researchers, ResearcherHasId(id));
    assert forall j :: 0 <= j < k ==> !ResearcherHasId(id)(researchers[j]);
  }

  /** The ids that name some researcher. */
  function Resolves(researchers: seq<Researcher>): string -> bool {
    id => exists x :: x in researchers && x.id == id
  }

  /** The "Research Team" grid: `project.researchers.map(...)` with each unresolved id
      rendered as `null`, which React omits. */
  function ResearchTeam(researchers: seq<Researcher>, ids: seq<string>): seq<Researcher> {
    if ids == [] then []
    else
      (match GetResearcherById(researchers, ids[0])
       case Some(r) => [r]
       case None => [])
      + ResearchTeam(researchers, ids[1..])
  }

  /** The team shown is exactly the project's resolving ids, in project order, each replaced
      by the researcher `getResearcherById` returns for it; dangling ids are dropped. */
  lemma {:induction false} ResearchTeamSpec(researchers: seq<Researcher>, ids: seq<string>)
    ensures |ResearchTeam(researchers, ids)| == |Filter(ids, Resolves(researchers))|
    ensures forall k :: 0 <= k < |ResearchTeam(researchers, ids)| ==>
      ResearchTeam(researchers, ids)[k].id == Filter(ids, Resolves(researchers))[k]
        && GetResearcherById(researchers, Filter(ids, Resolves(researchers))[k]) == Some(ResearchTeam(researchers, ids)[k])
  {
    if ids != [] {
      ResearchTeamSpec(researchers, ids[1..]);
      var team := ResearchTeam(researchers, ids);
      var rest := ResearchTeam(researchers, ids[1..]);
      var kept := Filter(ids, Resolves(researchers));
      var keptRest := Filter(ids[1..], Resolves(researchers));
      match GetResearcherById(researchers, ids[0])
      case Some(r) =>
        assert Resolves(researchers)(ids[0]);
        assert team == [r] + rest;
        assert kept == [ids[0]] + keptRest;
      case None =>
        assert !Resolves(researchers)(ids[0]);
        assert team == rest;
        assert kept == keptRest;
    }
  }

  /** Every member shown is a researcher of the collection listed by the project. */
  lemma ResearchTeamMembers(researchers: seq<Researcher>, ids: seq<string>, r: Researcher)
    requires r in ResearchTeam(researchers, ids)
    ensures r in researchers && r.id in ids
  {
    ResearchTeamSpec(researchers, ids);
    var k :| 0 <= k < |ResearchTeam(researchers, ids)| && ResearchTeam(researchers, ids)[k] == r;
    var kept := Filter(ids, Resolves(researchers));
    assert kept[k] in kept;
    FilterMembership(ids, Resolves(researchers), kept[k]);
  }

  /** When every id resolves the team has one member per id; when none does it is empty. */
  lemma ResearchTeamExtremes(researchers: seq<Researcher>, ids: seq<string>)
    ensures (forall id :: id in ids ==> Resolves(researchers)(id)) ==> |ResearchTeam(researchers, ids)| == |ids|
    ensures (forall id :: id in ids ==> !Resolves(researchers)(id)) ==> ResearchTeam(researchers, ids) == []
  {
    ResearchTeamSpec(researchers, ids);
    if forall id :: id in ids ==> Resolves(researchers)(id) {
      FilterKeepsAll(ids, Resolves(researchers));
    }
    if forall id :: id in ids ==> !Resolves(researchers)(id) {
      FilterDropsAll(ids, Resolves(researchers));
    }
  }

  /** What the end of a project's date range shows: "Present", or a formatted date. */
  datatype RangeEnd = Present | Until(date: string)

  /** `project.endDate ? ... : 'Present'`: an absent or empty end date reads "Present". */
  function RangeEndOf(endDate: Option<string>): (r: RangeEnd)
    ensures r == Present <==> endDate.None? || endDate.value == ""
    ensures r.Until? ==> endDate == Some(r.date)
  {
    if endDate.Some? && endDate.value != "" then Until(endDate.value) else Present
  }

  /** The page's two state slots. */
  class ResearchView {
    var expandedProject: Option<string>
    var tabValue: int

    /** `useState(null)` and `useState(0)`. */
    constructor()
      ensures expandedProject == None && tabValue == 0
    {
      expandedProject := None;
      tabValue := 0;
    }

    /** `handleExpandClick`: toggle the clicked card, keeping the tab. */
    method HandleExpandClick(projectId: string)
      modifies this
      ensures expandedProject == Toggle(old(expandedProject), projectId)
      ensures tabValue == old(tabValue)
    {
      expandedProject := Toggle(expandedProject, projectId);
    }

    /** `handleTabChange`: select the new tab; the expanded card is untouched. */
    method HandleTabChange(newValue: int)
      modifies this
      ensures tabValue == newValue
      ensures expandedProject == old(expandedProject)
    {
      tabValue := newValue;
    }
  }
}
