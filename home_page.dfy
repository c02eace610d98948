/** The logic of the Home page (src/pages/HomePage.tsx): the featured slices, the stats
    cards, and the truncated bio and specialty chips of a featured researcher. */
module HomePage {
  import opened Wrappers
  import opened Types
  import opened Seqs

  /** `mockProjects.slice(0, 2)`. */
  function FeaturedProjects(projects: seq<Project>): (r: seq<Project>)
    ensures |r| == if |projects| < 2 then |projects| else 2
    ensures r <= projects
  {
    Take(projects, 2)
  }

  /** `mockResearchers.slice(0, 3)`. */
  function FeaturedResearchers(researchers: seq<Researcher>): (r: seq<Researcher>)
    ensures |r| == if |researchers| < 3 then |researchers| else 3
    ensures r <= researchers
  {
    Take(researchers, 3)
  }

  /** `researcher.specialties.slice(0, 2)`. */
  function SpecialtyChips(specialties: seq<string>): (r: seq<string>)
    ensures |r| == if |specialties| < 2 then |specialties| else 2
    ensures r <= specialties
  {
    Take(specialties, 2)
  }

  const BioLimit: nat := 100

  /** The bio on a featured researcher's card: past 100 characters it is cut to its first
      100 characters followed by "...". */
  function BioPreview(bio: string): (r: string)
    ensures |bio| > BioLimit ==> |r| == BioLimit + 3 && r[..BioLimit] == bio[..BioLimit] && r[BioLimit..] == "..."
    ensures |bio| <= BioLimit ==> r == bio
    ensures |r| <= BioLimit + 3
  {
    if |bio| > BioLimit then bio[..BioLimit] + "..." else bio
  }

  /** Previewing a preview changes nothing: a cut bio is 103 characters long, so it is cut
      again at the same place and gets the same "...". */
  lemma BioPreviewIdempotent(bio: string)
    ensures BioPreview(BioPreview(bio)) == BioPreview(bio)
  {
    if |bio| > BioLimit {
      var r := BioPreview(bio);
      assert r[..BioLimit] == bio[..BioLimit];
      assert BioPreview(r) == r[..BioLimit] + "...";
    }
  }

  /** The value on a stats card: a live count, or a fixed text. */
  datatype StatValue = Count(n: nat) | Text(text: string)

  datatype Stat = Stat(name: string, value: StatValue)   // `name` is the source field `label`

  /** The four stats cards, in order. */
  function Stats(projects: seq<Project>, researchers: seq<Researcher>): seq<Stat> {
    [ Stat("Active Projects", Count(|projects|)),
      Stat("Research Team", Count(|researchers|)),
      Stat("Publications", Text("15+")),
      Stat("Impact Factor", Text("4.2")) ]
  }

  function HasName(name: string): Stat -> bool {
    (s: Stat) => s.name == name
  }

  /** The value of the card named `name`, if any. */
  function StatValueOf(stats: seq<Stat>, name: string): Option<StatValue> {
    match Find(stats, HasName(name))
    case None => None
    case Some(s) => Some(s.value)
  }

  /** The Active Projects and Research Team cards count the two collections; the
      Publications and Impact Factor cards show fixed texts whatever the data holds, so the
      Publications card does not count publications. */
  lemma StatsValues(projects: seq<Project>, researchers: seq<Researcher>)
    ensures StatValueOf(Stats(projects, researchers), "Active Projects") == Some(Count(|projects|))
    ensures StatValueOf(Stats(projects, researchers), "Research Team") == Some(Count(|researchers|))
    ensures StatValueOf(Stats(projects, researchers), "Publications") == Some(Text("15+"))
    ensures StatValueOf(Stats(projects, researchers), "Impact Factor") == Some(Text("4.2"))
  {
    var stats := Stats(projects, researchers);
    FindIndexAt(stats, HasName("Active Projects"), 0);
    FindIndexAt(stats, HasName("Research Team"), 1);
    FindIndexAt(stats, HasName("Publications"), 2);
    FindIndexAt(stats, HasName("Impact Factor"), 3);
  }
}
