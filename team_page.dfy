/** The logic of the Team page (src/pages/TeamPage.tsx): the number of projects shown on a
    researcher's card and the specialties shown on it. The team list itself is read from a
    JSON file and is a parameter here. */
module TeamPage {
  import opened Types
  import opened Seqs

  function ListsResearcher(researcherId: string): Project -> bool {
    (p: Project) => researcherId in p.researchers
  }

  /** `getProjectCount`: the number of projects whose researcher list includes the id. */
  function GetProjectCount(projects: seq<Project>, researcherId: string): (n: nat)
    ensures n <= |projects|
  {
    |Filter(projects, ListsResearcher(researcherId))|
  }

  /** The count is the number of positions in the project list whose project lists the id. */
  lemma ProjectCountCountsListingProjects(projects: seq<Project>, researcherId: string)
    ensures GetProjectCount(projects, researcherId)
         == |set i | 0 <= i < |projects| && researcherId in projects[i].researchers|
  {
    var p := ListsResearcher(researcherId);
    FilterLength(projects, p);
    assert Positions(projects, p) == (set i | 0 <= i < |projects| && researcherId in projects[i].researchers);
  }

  /** The count is 0 exactly when no project lists the id. */
  lemma ProjectCountZeroIffUnlisted(projects: seq<Project>, researcherId: string)
    ensures GetProjectCount(projects, researcherId) == 0
        <==> forall p :: p in projects ==> researcherId !in p.researchers
  {
    var kept := Filter(projects, ListsResearcher(researcherId));
    forall p ensures p in kept <==> p in projects && researcherId in p.researchers {
      FilterMembership(projects, ListsResearcher(researcherId), p);
    }
    if kept != [] {
      assert kept[0] in kept;
    }
  }

  /** One more project adds one to the count if it lists the id, however many times, and
      nothing otherwise. */
  lemma ProjectCountedOnce(projects: seq<Project>, p: Project, researcherId: string)
    ensures GetProjectCount(projects + [p], researcherId)
         == GetProjectCount(projects, researcherId) + (if researcherId in p.researchers then 1 else 0)
  {
    FilterSnoc(projects, p, ListsResearcher(researcherId));
  }

  /** `researcher.specialties.slice(0, 3)`: the first three specialties, or all of them
      when there are fewer. */
  function ShownSpecialties(specialties: seq<string>): (r: seq<string>)
    ensures |r| == if |specialties| < 3 then |specialties| else 3
    ensures r <= specialties
  {
    Take(specialties, 3)
  }
}
