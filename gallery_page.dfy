/** The query layer of the Gallery page (src/pages/GalleryPage.tsx): the tab-to-type
    mapping, the combined type-and-tag filter, the tag chips, the project-name lookup, the
    items handed to the image carousel and the counts on the tabs. The two state slots
    (`tabValue`, `selectedTag`) live in `GalleryView`. */
module GalleryPage {
  import opened Wrappers
  import opened Types
  import opened Seqs
  import opened Strings
  import opened TagFilter

  /** `matchesType`: tab 0 passes everything, tabs 1, 2 and 3 pass videos, images and
      documents, and any other tab value passes nothing. */
  predicate TypeMatchesTab(tabValue: int, kind: MediaType) {
    || tabValue == 0
    || (tabValue == 1 && kind == Video)
    || (tabValue == 2 && kind == Image)
    || (tabValue == 3 && kind == Document)
  }

  /** The filter callback: `matchesType && matchesTag`. */
  predicate MatchesMedia(m: Media, tabValue: int, selectedTag: Option<string>) {
    TypeMatchesTab(tabValue, m.kind) && PassesTag(m.tags, selectedTag)
  }

  function MediaMatcher(tabValue: int, selectedTag: Option<string>): Media -> bool {
    m => MatchesMedia(m, tabValue, selectedTag)
  }

  /** `filteredMedia`. */
  function FilteredMedia(media: seq<Media>, tabValue: int, selectedTag: Option<string>): seq<Media> {
    Filter(media, MediaMatcher(tabValue, selectedTag))
  }

  function MediaTags(m: Media): seq<string> {
    m.tags
  }

  /** `media.flatMap(media => media.tags)`. */
  function MediaTagSequence(media: seq<Media>): seq<string> {
    FlatMap(media, MediaTags)
  }

  /** `allTags`: the distinct media tags in order of first appearance. */
  function AllMediaTags(media: seq<Media>): seq<string> {
    Dedup(MediaTagSequence(media))
  }

  function HasId(id: string): Project -> bool {
    (p: Project) => p.id == id
  }

  /** `getProjectName`: nothing for an absent or empty id (JavaScript falsiness), otherwise
      the title of the first project carrying that id, or nothing when none does. */
  function GetProjectName(projects: seq<Project>, projectId: Option<string>): (r: Option<string>)
    ensures r.Some? ==> projectId.Some? && exists p :: p in projects && p.id == projectId.value && p.title == r.value
  {
    if projectId.None? || projectId.value == "" then None
    else
      match Find(projects, HasId(projectId.value))
      case None => None
      case Some(p) => Some(p.title)
  }

  /** One entry of the carousel, as `react-image-gallery` receives it. */
  datatype GalleryItem = GalleryItem(
    original: string,
    thumbnail: string,
    description: string,
    originalAlt: string,
    thumbnailAlt: string)

  function IsImage(m: Media): bool {
    m.kind == Image
  }

  function ToGalleryItem(m: Media): GalleryItem {
    GalleryItem(m.url, m.url, m.caption, m.title, m.title)
  }

  /** `imageGalleryItems`: the image media, each turned into a carousel entry. */
  function ImageGalleryItems(media: seq<Media>): seq<GalleryItem> {
    var images := Filter(media, IsImage);
    seq(|images|, i requires 0 <= i < |images| => ToGalleryItem(images[i]))
  }

  function OfKind(kind: MediaType): Media -> bool {
    (m: Media) => m.kind == kind
  }

  /** `media.filter(m => m.type === kind).length`. */
  function CountOfKind(media: seq<Media>, kind: MediaType): nat {
    |Filter(media, OfKind(kind))|
  }

  /** The number shown on tab `tab` of the four tabs. */
  function TabCount(media: seq<Media>, tab: nat): nat
    requires tab < 4
  {
    match tab
    case 0 => |media|
    case 1 => CountOfKind(media, Video)
    case 2 => CountOfKind(media, Image)
    case 3 => CountOfKind(media, Document)
  }

  const TabNames: seq<string> := ["All", "Videos", "Images", "Documents"]

  /** The `tabs` labels, e.g. `Videos (2)`. */
  function TabLabels(media: seq<Media>): seq<string> {
    seq(4, k requires 0 <= k < 4 => TabNames[k] + " (" + NatToString(TabCount(media, k)) + ")")
  }

  /** Tab 0 passes every type; each of tabs 1-3 passes exactly one type, and those three
      types are distinct; any other tab value passes no type at all. */
  lemma TypeTabsPartition(kind: MediaType, tab: int)
    ensures TypeMatchesTab(0, kind)
    ensures TypeMatchesTab(1, kind) <==> kind == Video
    ensures TypeMatchesTab(2, kind) <==> kind == Image
    ensures TypeMatchesTab(3, kind) <==> kind == Document
    ensures !(0 <= tab <= 3) ==> !TypeMatchesTab(tab, kind)
  {
  }

  /** An item is kept exactly when it is in the collection and passes both predicates. */
  lemma FilteredMediaMembership(media: seq<Media>, tabValue: int, selectedTag: Option<string>, m: Media)
    ensures m in FilteredMedia(media, tabValue, selectedTag)
        <==> m in media && TypeMatchesTab(tabValue, m.kind) && PassesTag(m.tags, selectedTag)
  {
    FilterMembership(media, MediaMatcher(tabValue, selectedTag), m);
  }

  /** The kept items are in the collection's order, and nothing is added. */
  lemma FilteredMediaIsSubsequence(media: seq<Media>, tabValue: int, selectedTag: Option<string>)
    ensures IsSubsequence(FilteredMedia(media, tabValue, selectedTag), media)
  {
    FilterIsSubsequence(media, MediaMatcher(tabValue, selectedTag));
  }

  /** A tab value outside 0..3 keeps nothing, whatever tag is selected. */
  lemma UnknownTabShowsNothing(media: seq<Media>, tabValue: int, selectedTag: Option<string>)
    requires !(0 <= tabValue <= 3)
    ensures FilteredMedia(media, tabValue, selectedTag) == []
  {
    FilterDropsAll(media, MediaMatcher(tabValue, selectedTag));
  }

  /** With no tag selected (`null` or `""`), tab 0 keeps the whole collection. */
  lemma AllTabWithoutTagShowsAll(media: seq<Media>, selectedTag: Option<string>)
    requires !TagSelected(selectedTag)
    ensures FilteredMedia(media, 0, selectedTag) == media
  {
    FilterKeepsAll(media, MediaMatcher(0, selectedTag));
  }

  /** The chips: no tag twice, exactly the tags of some media item, in order of first
      appearance. */
  lemma AllMediaTagsSpec(media: seq<Media>)
    ensures NoDuplicates(AllMediaTags(media))
    ensures forall t :: t in AllMediaTags(media) <==> exists m :: m in media && t in m.tags
    ensures forall i, j :: 0 <= i < j < |AllMediaTags(media)| ==>
      AllMediaTags(media)[i] in MediaTagSequence(media) && AllMediaTags(media)[j] in MediaTagSequence(media) &&
      FirstIndex(MediaTagSequence(media), AllMediaTags(media)[i]) < FirstIndex(MediaTagSequence(media), AllMediaTags(media)[j])
  {
    DedupSpec(MediaTagSequence(media));
    forall t ensures t in MediaTagSequence(media) <==> exists m :: m in media && t in m.tags {
      FlatMapMembership(media, MediaTags, t);
    }
  }

  /** `getProjectName` returns nothing exactly when the id is absent, empty, or carried by
      no project; otherwise it returns the title of the first project with that id. */
  lemma GetProjectNameSpec(projects: seq<Project>, projectId: Option<string>)
    ensures GetProjectName(projects, projectId).None?
        <==> projectId.None? || projectId.value == "" || forall p :: p in projects ==> p.id != projectId.value
    ensures GetProjectName(projects, projectId).Some? ==>
      exists k :: 0 <= k < |projects| && projects[k].id == projectId.value
        && (forall j :: 0 <= j < k ==> projects[j].id != projectId.value)
        && GetProjectName(projects, projectId) == Some(projects[k].title)
  {
    if projectId.Some? && projectId.value != "" {
      var found := Find(projects, HasId(projectId.value));
      if found.Some? {
        var k := FindIndex(projects, HasId(projectId.value));
        assert forall j :: 0 <= j < k ==> !HasId(projectId.value)(projects[j]);
      }
    }
  }

  /** The carousel holds exactly the image items, in collection order, each with the url as
      both picture and thumbnail, the caption as description and the title as both alt texts:
      the same items `filteredMedia` holds for tab 2 when no tag is selected. */
  lemma ImageGalleryItemsSpec(media: seq<Media>)
    ensures |ImageGalleryItems(media)| == CountOfKind(media, Image)
    ensures |ImageGalleryItems(media)| == |FilteredMedia(media, 2, None)|
    ensures forall i :: 0 <= i < |ImageGalleryItems(media)| ==>
      var m := FilteredMedia(media, 2, None)[i];
      var item := ImageGalleryItems(media)[i];
      m.kind == Image && item.original == m.url && item.thumbnail == m.url
        && item.description == m.caption && item.originalAlt == m.title && item.thumbnailAlt == m.title
    ensures forall item :: item in ImageGalleryItems(media) ==>
      exists m :: m in media && m.kind == Image && item == ToGalleryItem(m)
  {
    var images := Filter(media, IsImage);
    FilterCongruent(media, IsImage, OfKind(Image));
    FilterCongruent(media, IsImage, MediaMatcher(2, None));
    FilterSound(media, IsImage);
    assert FilteredMedia(media, 2, None) == images;
    forall i | 0 <= i < |images| ensures images[i].kind == Image {
      assert images[i] in images;
    }
    forall item | item in ImageGalleryItems(media)
      ensures exists m :: m in media && m.kind == Image && item == ToGalleryItem(m)
    {
      var i :| 0 <= i < |ImageGalleryItems(media)| && ImageGalleryItems(media)[i] == item;
      assert images[i] in images;
    }
  }

  /** Every media item is of exactly one of the three types, so the Videos, Images and
      Documents counts add up to the All count. */
  lemma {:induction false} KindCountsSumToAll(media: seq<Media>)
    ensures CountOfKind(media, Video) + CountOfKind(media, Image) + CountOfKind(media, Document) == |media|
  {
    if media != [] {
      KindCountsSumToAll(media[1..]);
    }
  }

  /** With no tag selected, `filteredMedia` for tab `k` holds exactly as many items as that
      tab's label announces. */
  lemma TabCountMatchesFilter(media: seq<Media>, tab: nat)
    requires tab < 4
    ensures |FilteredMedia(media, tab, None)| == TabCount(media, tab)
  {
    if tab == 0 {
      FilterKeepsAll(media, MediaMatcher(0, None));
    } else if tab == 1 {
      FilterCongruent(media, MediaMatcher(1, None), OfKind(Video));
    } else if tab == 2 {
      FilterCongruent(media, MediaMatcher(2, None), OfKind(Image));
    } else {
      FilterCongruent(media, MediaMatcher(3, None), OfKind(Document));
    }
  }

  /** Each tab label is the tab's name followed by the size of `filteredMedia` for that tab
      when no tag is selected. */
  lemma TabLabelsShowFilteredCounts(media: seq<Media>)
    ensures |TabLabels(media)| == 4
    ensures forall k :: 0 <= k < 4 ==>
      TabLabels(media)[k] == TabNames[k] + " (" + NatToString(|FilteredMedia(media, k, None)|) + ")"
  {
    forall k | 0 <= k < 4
      ensures TabLabels(media)[k] == TabNames[k] + " (" + NatToString(|FilteredMedia(media, k, None)|) + ")"
    {
      TabCountMatchesFilter(media, k);
    }
  }

  /** The page's two state slots, the selected tab and the selected tag chip. */
  class GalleryView {
    var tabValue: int
    var selectedTag: Option<string>

    /** `useState(0)` and `useState(null)`. */
    constructor()
      ensures tabValue == 0 && selectedTag == None
    {
      tabValue := 0;
      selectedTag := None;
    }

    /** `filteredMedia` in the current state; the grid of tab 0's panel renders it. */
    function Visible(media: seq<Media>): seq<Media>
      reads this
    {
      FilteredMedia(media, tabValue, selectedTag)
    }

    /** `handleTabChange`: select the new tab and drop the selected tag, so that
        `filteredMedia` becomes every item of the new tab's type. */
    method HandleTabChange(newValue: int)
      modifies this
      ensures tabValue == newValue && selectedTag == None
      ensures forall media :: Visible(media) == Filter(media, MediaMatcher(newValue, None))
    {
      tabValue := newValue;
      selectedTag := None;
    }

    /** A tag chip's `onClick`: select that tag, keeping the tab. */
    method SelectTag(tag: string)
      modifies this
      ensures selectedTag == Some(tag) && tabValue == old(tabValue)
    {
      selectedTag := Some(tag);
    }

    /** The "All Tags" chip's `onClick`: select no tag, keeping the tab. */
    method ClearTag()
      modifies this
      ensures selectedTag == None && tabValue == old(tabValue)
    {
      selectedTag := None;
    }
  }
}
