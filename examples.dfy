/** The pages' queries evaluated on the fixture collections of src/mock-data/index.ts. */
module Examples {
  import opened Wrappers
  import opened Types
  import opened Seqs
  import opened Strings
  import opened MockData
  import opened TagFilter
  import PublicationsPage
  import GalleryPage
  import ResearchPage
  import TeamPage
  import HomePage
  import FixtureSearch

  /** Filtering on the tag "Filtration", with an empty search, leaves only pub-3. */
  lemma FiltrationTagOnlyPub3()
    ensures PublicationsPage.FilteredPublications(MockPublications, "", Some("Filtration")) == [Publication3]
  {
    var m := PublicationsPage.Matcher("", Some("Filtration"));
    assert ToLower("") == "";
    ContainsEmpty(ToLower(Publication3.title));
    assert !m(Publication1) && !m(Publication2) && m(Publication3);
    FilterCons(Publication3, [], m);
    FilterCons(Publication2, [Publication3], m);
    FilterCons(Publication1, [Publication2, Publication3], m);
    assert MockPublications == [Publication1] + [Publication2, Publication3];
  }

  /** The tag on pub-3 is spelled "Bio-Polyymers", so the tag "Bio-Polymers" matches no
      publication, whatever the search term. */
  lemma BioPolymersTagMatchesNothing(searchTerm: string)
    ensures PublicationsPage.FilteredPublications(MockPublications, searchTerm, Some("Bio-Polymers")) == []
  {
    FilterDropsAll(MockPublications, PublicationsPage.Matcher(searchTerm, Some("Bio-Polymers")));
  }

  /** Filtering the fixture media by one type, one item at a time. */
  lemma CountsOfKind(kind: MediaType)
    ensures GalleryPage.CountOfKind(MockMedia, kind)
        == |Filter([Media1], GalleryPage.OfKind(kind))| + |Filter([Media2], GalleryPage.OfKind(kind))|
         + |Filter([Media3], GalleryPage.OfKind(kind))| + |Filter([Media4], GalleryPage.OfKind(kind))|
         + |Filter([Media5], GalleryPage.OfKind(kind))| + |Filter([Media6], GalleryPage.OfKind(kind))|
  {
    var p := GalleryPage.OfKind(kind);
    FilterCons(Media6, [], p);
    FilterCons(Media5, [Media6], p);
    FilterCons(Media4, [Media5, Media6], p);
    FilterCons(Media3, [Media4, Media5, Media6], p);
    FilterCons(Media2, [Media3, Media4, Media5, Media6], p);
    FilterCons(Media1, [Media2, Media3, Media4, Media5, Media6], p);
    assert MockMedia == [Media1] + [Media2, Media3, Media4, Media5, Media6];
    assert [Media2, Media3, Media4, Media5, Media6] == [Media2] + [Media3, Media4, Media5, Media6];
    assert [Media3, Media4, Media5, Media6] == [Media3] + [Media4, Media5, Media6];
    assert [Media4, Media5, Media6] == [Media4] + [Media5, Media6];
    assert [Media5, Media6] == [Media5] + [Media6];
    assert [Media6] == [Media6] + [];
    forall m | m in MockMedia ensures Filter([m], p) == (if p(m) then [m] else []) {
      FilterCons(m, [], p);
      assert [m] == [m] + [];
    }
  }

  /** The gallery holds two videos, three images and one document, and the tabs say so. */
  lemma MediaTypeCounts()
    ensures GalleryPage.CountOfKind(MockMedia, Video) == 2
    ensures GalleryPage.CountOfKind(MockMedia, Image) == 3
    ensures GalleryPage.CountOfKind(MockMedia, Document) == 1
    ensures GalleryPage.TabLabels(MockMedia) == ["All (6)", "Videos (2)", "Images (3)", "Documents (1)"]
  {
    CountsOfKind(Video);
    CountsOfKind(Image);
    CountsOfKind(Document);
    assert GalleryPage.TabLabels(MockMedia)[0] == "All (6)";
    assert GalleryPage.TabLabels(MockMedia)[1] == "Videos (2)";
    assert GalleryPage.TabLabels(MockMedia)[2] == "Images (3)";
    assert GalleryPage.TabLabels(MockMedia)[3] == "Documents (1)";
  }

  /** A project id resolves to that project's title; an empty or unknown id to nothing. */
  lemma ProjectNames()
    ensures GalleryPage.GetProjectName(MockProjects, Media1.projectId) == Some("Sustainable Cement Alternatives Research")
    ensures GalleryPage.GetProjectName(MockProjects, Media6.projectId) == Some("Urban Heat Island Mitigation Study")
    ensures GalleryPage.GetProjectName(MockProjects, Some("")) == None
    ensures GalleryPage.GetProjectName(MockProjects, Some("project-9")) == None
  {
    FindIndexAt(MockProjects, GalleryPage.HasId("project-1"), 0);
    FindIndexAt(MockProjects, GalleryPage.HasId("project-2"), 1);
  }

  /** A project listing a known and an unknown researcher shows a team of one. */
  lemma DanglingResearcherDropped()
    ensures ResearchPage.ResearchTeam(MockResearchers, ["researcher-1", "researcher-99"]) == [Researcher1]
  {
    var ids := ["researcher-1", "researcher-99"];
    FindIndexAt(MockResearchers, ResearchPage.ResearcherHasId("researcher-1"), 0);
    assert ResearchPage.GetResearcherById(MockResearchers, "researcher-99") == None;
    assert ids[1..] == ["researcher-99"];
    assert ids[1..][1..] == [];
    assert ResearchPage.ResearchTeam(MockResearchers, ["researcher-99"]) == [] + ResearchPage.ResearchTeam(MockResearchers, []);
  }

  /** Each researcher's project count on the Team page. */
  lemma ProjectCounts()
    ensures TeamPage.GetProjectCount(MockProjects, "researcher-1") == 2
    ensures TeamPage.GetProjectCount(MockProjects, "researcher-4") == 1
    ensures TeamPage.GetProjectCount(MockProjects, "researcher-99") == 0
  {
    forall id | id in ["researcher-1", "researcher-4", "researcher-99"]
      ensures TeamPage.GetProjectCount(MockProjects, id)
           == (if id in Project1.researchers then 1 else 0) + (if id in Project2.researchers then 1 else 0)
            + (if id in Project3.researchers then 1 else 0)
    {
      var p := TeamPage.ListsResearcher(id);
      FilterCons(Project3, [], p);
      FilterCons(Project2, [Project3], p);
      FilterCons(Project1, [Project2, Project3], p);
      assert MockProjects == [Project1] + [Project2, Project3];
    }
  }

  /** A project listing the same researcher twice counts once for that researcher. */
  lemma DuplicateListingCountsOnce()
    ensures TeamPage.GetProjectCount([Project1.(researchers := ["researcher-1", "researcher-1"])], "researcher-1") == 1
  {
  }

  /** No fixture bio exceeds 100 characters, so the Home page shows every bio in full. */
  lemma FixtureBiosShownInFull()
    ensures forall r :: r in MockResearchers ==> HomePage.BioPreview(r.bio) == r.bio
  {
  }

  /** The Home page features the first two projects and the first three researchers. */
  lemma FixtureFeatured()
    ensures HomePage.FeaturedProjects(MockProjects) == [Project1, Project2]
    ensures HomePage.FeaturedResearchers(MockResearchers) == [Researcher1, Researcher2, Researcher3]
  {
  }

  /** Searching for "cement" finds pub-1 alone: its title holds "Cement", and neither other
      publication holds the word in any field. */
  lemma CementSearchFindsPub1()
    ensures PublicationsPage.FilteredPublications(MockPublications, "cement", None) == [Publication1]
  {
    var m := PublicationsPage.Matcher("cement", None);
    assert ToLower("cement") == "cement";
    assert Publication1.title == "Novel Approaches to Low-Carbon " + "Cement Production";
    ToLowerConcat("Novel Approaches to Low-Carbon ", "Cement Production");
    ContainsAt(ToLower("Cement Production"), "cement", 0);
    ContainsConcat(ToLower("Novel Approaches to Low-Carbon "), ToLower("Cement Production"), "cement");
    FixtureSearch.CementNotInPub2();
    FixtureSearch.CementNotInPub3();
    assert m(Publication1) && !m(Publication2) && !m(Publication3);
    FilterCons(Publication3, [], m);
    FilterCons(Publication2, [Publication3], m);
    FilterCons(Publication1, [Publication2, Publication3], m);
    assert MockPublications == [Publication1] + [Publication2, Publication3];
  }

  /** Searching for "polymer" within the tag "Materials Science" finds nothing: only pub-1
      carries that tag, and pub-1 does not mention polymers. */
  lemma PolymerInMaterialsScienceFindsNothing()
    ensures PublicationsPage.FilteredPublications(MockPublications, "polymer", Some("Materials Science")) == []
  {
    FixtureSearch.PolymerNotInPub1();
    FilterDropsAll(MockPublications, PublicationsPage.Matcher("polymer", Some("Materials Science")));
  }
}
