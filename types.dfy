/** The site's entities (src/types.ts). Cross-references between entities are plain id
    strings with no guarantee that they resolve; every `?` field is an `Option`. */
module Types {
  import opened Wrappers

  datatype Researcher = Researcher(
    id: string,
    name: string,
    title: string,
    bio: string,
    photoUrl: string,
    email: string,
    specialties: seq<string>,
    projects: seq<string>)        // project ids

  datatype Project = Project(
    id: string,
    title: string,
    description: string,
    researchers: seq<string>,     // researcher ids
    funding: string,
    startDate: string,
    endDate: Option<string>,      // absent while the project is ongoing
    mediaUrls: seq<string>,
    tags: seq<string>)

  datatype Publication = Publication(
    id: string,
    title: string,
    authors: seq<string>,         // plain names, not researcher ids
    abstractText: string,         // the source field `abstract`
    doiUrl: Option<string>,
    pdfUrl: string,
    publicationDate: string,
    journal: string,
    tags: seq<string>)

  /** The closed union `'video' | 'image' | 'document'`. */
  datatype MediaType = Video | Image | Document

  /** `Media`; the source field `type` is called `kind` here. */
  datatype Media = Media(
    id: string,
    kind: MediaType,
    url: string,
    title: string,
    caption: string,
    projectId: Option<string>,    // a project id
    tags: seq<string>)

  datatype Organization = Organization(
    name: string,
    description: string,
    founded: string,
    mission: string,
    contactEmail: string,
    phone: Option<string>,
    address: Option<string>)

  datatype ThemeMode = Light | Dark

  datatype AppState = AppState(
    themeMode: ThemeMode,
    currentPath: string,
    loading: bool,
    error: Option<string>)
}
