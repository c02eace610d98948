/** The fixture collections of src/mock-data/index.ts, which every page reads. */
module MockData {
  import opened Wrappers
  import opened Types

  const MockOrganization: Organization := Organization(
    "Argil Research Institute",
    "Leading-edge research organization focused on advanced materials and environmental sustainability",
    "2018",
    "To advance scientific knowledge through interdisciplinary research that addresses critical environmental and technological challenges",
    "contact@argil-research.org",
    Some("+1 (555) 123-4567"),
    Some("123 Innovation Drive, Research City, RC 12345"))

  const Researcher1: Researcher := Researcher(
    "researcher-1", "Dr. Sarah Chen", "Director of Research",
    "PhD in Materials Science with 15+ years experience in advanced materials research",
    "/samples/sample-research-photo-1.jpg", "sarah.chen@argil-research.org",
    ["Materials Science", "Sustainable Chemistry", "Green Technology"],
    ["project-1", "project-2"])

  const Researcher2: Researcher := Researcher(
    "researcher-2", "Dr. Michael Rodriguez", "Lead Environmental Scientist",
    "Environmental scientist specializing in climate impact assessment and sustainable development",
    "/samples/sample-research-photo-2.jpg", "michael.rodriguez@argil-research.org",
    ["Environmental Science", "Climate Research", "Sustainable Development"],
    ["project-2", "project-3"])

  const Researcher3: Researcher := Researcher(
    "researcher-3", "Prof. Emily Watson", "Senior Research Fellow",
    "Professor with expertise in data analysis and computational modeling",
    "/samples/sample-research-photo-3.jpg", "emily.watson@argil-research.org",
    ["Data Science", "Computational Modeling", "Statistics"],
    ["project-1", "project-3"])

  const Researcher4: Researcher := Researcher(
    "researcher-4", "Dr. Ahmed Hassan", "Research Associate",
    "Materials engineer focused on developing next-generation sustainable materials",
    "https://images.unsplash.com/photo-1472099645785-5658abf4ff4e?w=400&q=80", "ahmed.hassan@argil-research.org",
    ["Materials Engineering", "Sustainability", "Innovation"],
    ["project-1"])

  const MockResearchers: seq<Researcher> := [Researcher1, Researcher2, Researcher3, Researcher4]

  const Project1: Project := Project(
    "project-1", "Sustainable Cement Alternatives Research",
    "Developing low-carbon cement alternatives that reduce CO₂ emissions by 60% compared to traditional cement production",
    ["researcher-1", "researcher-3", "researcher-4"],
    "$2.5M (NSF Grant)", "2022-01-01", Some("2024-12-31"),
    ["/samples/sample-research-project.jpg"],
    ["Sustainability", "Materials", "Green Technology", "Construction"])

  const Project2: Project := Project(
    "project-2", "Urban Heat Island Mitigation Study",
    "Comprehensive study of urban heat islands and deployment of advanced cooling materials in metropolitan areas",
    ["researcher-1", "researcher-2"],
    "$1.8M (DOE Grant)", "2023-03-01", None,
    ["media-3", "media-6"],
    ["Urban Planning", "Climate Change", "Environmental Science"])

  const Project3: Project := Project(
    "project-3", "Bio-Materials for Water Purification",
    "Developing biodegradable filter materials for efficient and sustainable water treatment solutions",
    ["researcher-2", "researcher-3"],
    "$1.2M (EPA Grant)", "2023-06-01", None,
    ["media-4"],
    ["Water Treatment", "Bio-Materials", "Sustainability"])

  const MockProjects: seq<Project> := [Project1, Project2, Project3]

  // Publication titles and abstracts are written as concatenations of short literals, which
  // the verifier can take apart character by character.
  const Pub1Title: string :=
    "Novel Approaches to Low-Carbon " +
    "Cement Production"
  const Pub1Abstract: string :=
    "This paper presents innovative " +
    "approaches to reducing carbon " +
    "emissions in cement production " +
    "through alternative binder " +
    "materials and process " +
    "optimization."
  const Pub2Title: string :=
    "Impact of Advanced Materials on " +
    "Urban Temperature Regulation"
  const Pub2Abstract: string :=
    "A comprehensive analysis of how " +
    "specialized materials can " +
    "mitigate urban heat island " +
    "effects, with case studies from " +
    "five major cities."
  const Pub3Title: string :=
    "Biodegradable Polymers for " +
    "Enhanced Water Filtration"
  const Pub3Abstract: string :=
    "Development and testing of new " +
    "biodegradable polymer membranes " +
    "for water purification " +
    "applications."

  const Publication1: Publication := Publication(
    "pub-1",
    Pub1Title,
    ["Dr. Sarah Chen", "Prof. Emily Watson", "Dr. Ahmed Hassan"],
    Pub1Abstract,
    Some("https://doi.org/10.1234/cement-research.2024.001"),
    "sample-publication-1.pdf", "2024-02-15", "Journal of Sustainable Materials",
    ["Cement", "Carbon Reduction", "Materials Science"])

  const Publication2: Publication := Publication(
    "pub-2",
    Pub2Title,
    ["Dr. Michael Rodriguez", "Dr. Sarah Chen"],
    Pub2Abstract,
    Some("https://doi.org/10.1234/urban-climate.2024.002"),
    "sample-publication-2.pdf", "2024-01-08", "Urban Climate Journal",
    ["Urban Heat Islands", "Materials", "Climate Impact"])

  const Publication3: Publication := Publication(
    "pub-3",
    Pub3Title,
    ["Dr. Michael Rodriguez", "Prof. Emily Watson"],
    Pub3Abstract,
    None,
    "sample-publication-3.pdf", "2023-11-22", "Water Research & Technology",
    ["Water Purification", "Bio-Polyymers", "Filtration"])

  const MockPublications: seq<Publication> := [Publication1, Publication2, Publication3]

  const Media1: Media := Media(
    "media-1", Video, "sample-video-1.mp4", "Cement Production Research Timelapse",
    "Research process showing the development of sustainable cement alternatives",
    Some("project-1"), ["Video", "Research", "Materials"])

  const Media2: Media := Media(
    "media-2", Image, "/samples/sample-research-photo-1.jpg", "Laboratory Setup for Cement Testing",
    "Advanced laboratory equipment used in materials testing",
    Some("project-1"), ["Lab", "Equipment", "Materials"])

  const Media3: Media := Media(
    "media-3", Image, "/samples/sample-research-photo-2.jpg", "Urban Temperature Study Setup",
    "Sensors deployed for collecting urban heat data",
    Some("project-2"), ["Urban", "Sensors", "Data Collection"])

  const Media4: Media := Media(
    "media-4", Image, "/samples/sample-research-photo-3.jpg", "Bio-Material Filter Prototype",
    "Prototype of biodegradable water purification filter",
    Some("project-3"), ["Prototype", "Bio-Materials", "Water"])

  const Media5: Media := Media(
    "media-5", Video, "sample-video-2.mp4", "Materials Research Presentation",
    "Overview presentation of current research initiatives",
    Some("project-1"), ["Presentation", "Research", "Overview"])

  const Media6: Media := Media(
    "media-6", Document, "sample-document-1.pdf", "Research Methodology Document",
    "Detailed methodology for urban heat study",
    Some("project-2"), ["Documentation", "Methodology", "Urban Study"])

  const MockMedia: seq<Media> := [Media1, Media2, Media3, Media4, Media5, Media6]

  /** Ids are unique within each collection. */
  lemma IdsUnique()
    ensures forall i, j :: 0 <= i < j < |MockResearchers| ==> MockResearchers[i].id != MockResearchers[j].id
    ensures forall i, j :: 0 <= i < j < |MockProjects| ==> MockProjects[i].id != MockProjects[j].id
    ensures forall i, j :: 0 <= i < j < |MockPublications| ==> MockPublications[i].id != MockPublications[j].id
    ensures forall i, j :: 0 <= i < j < |MockMedia| ==> MockMedia[i].id != MockMedia[j].id
  {
  }

  /** Every media item names a project, and that project exists. */
  lemma MediaProjectsResolve()
    ensures forall m :: m in MockMedia ==>
      m.projectId.Some? && exists p :: p in MockProjects && p.id == m.projectId.value
  {
    assert Project1 in MockProjects && Project2 in MockProjects && Project3 in MockProjects;
  }

  /** A researcher lists a project exactly when that project lists the researcher. */
  lemma ProjectLinksMirrored()
    ensures forall r, pid :: r in MockResearchers && pid in r.projects ==>
      exists p :: p in MockProjects && p.id == pid && r.id in p.researchers
    ensures forall p, rid :: p in MockProjects && rid in p.researchers ==>
      exists r :: r in MockResearchers && r.id == rid && p.id in r.projects
  {
    assert Project1 in MockProjects && Project2 in MockProjects && Project3 in MockProjects;
    assert Researcher1 in MockResearchers && Researcher2 in MockResearchers;
    assert Researcher3 in MockResearchers && Researcher4 in MockResearchers;
  }

  /** pub-3 has no DOI link; pub-1 and pub-2 have one. */
  lemma DoiLinks()
    ensures MockPublications[0].doiUrl.Some? && MockPublications[1].doiUrl.Some?
    ensures MockPublications[2].id == "pub-3" && MockPublications[2].doiUrl.None?
  {
  }
}
