/** The query layer of the Publications page (src/pages/PublicationsPage.tsx): the tag
    universe shown as chips, the combined search-and-tag filter, and the wording of the
    result count. The page state (`searchTerm`, `selectedTag`) is passed in as parameters. */
module PublicationsPage {
  import opened Wrappers
  import opened Types
  import opened Seqs
  import opened Strings
  import opened TagFilter

  /** `matchesSearch`: the lowercased term occurs in the lowercased title, in some
      lowercased author name, or in the lowercased abstract text. */
  predicate MatchesSearch(pub: Publication, searchTerm: string) {
    var term := ToLower(searchTerm);
    || Contains(ToLower(pub.title), term)
    || (exists author :: author in pub.authors && Contains(ToLower(author), term))
    || Contains(ToLower(pub.abstractText), term)
  }

  /** The filter callback: `matchesSearch && matchesTag`. */
  predicate Matches(pub: Publication, searchTerm: string, selectedTag: Option<string>) {
    MatchesSearch(pub, searchTerm) && PassesTag(pub.tags, selectedTag)
  }

  function Matcher(searchTerm: string, selectedTag: Option<string>): Publication -> bool {
    pub => Matches(pub, searchTerm, selectedTag)
  }

  /** `filteredPublications`. */
  function FilteredPublications(pubs: seq<Publication>, searchTerm: string, selectedTag: Option<string>): seq<Publication> {
    Filter(pubs, Matcher(searchTerm, selectedTag))
  }

  function TagsOf(pub: Publication): seq<string> {
    pub.tags
  }

  /** `pubs.flatMap(pub => pub.tags)`: every tag of every publication, in order. */
  function TagSequence(pubs: seq<Publication>): seq<string> {
    FlatMap(pubs, TagsOf)
  }

  /** `allTags`: `Array.from(new Set(...))` over the tag sequence. */
  function AllTags(pubs: seq<Publication>): seq<string> {
    Dedup(TagSequence(pubs))
  }

  /** The heading above the results: `{n} Publication{n !== 1 ? 's' : ''} Found`. */
  function ResultHeading(count: nat): string {
    NatToString(count) + " Publication" + (if count != 1 then "s" else "") + " Found"
  }

  /** Whether the "No publications found" message is rendered. */
  predicate ShowsNoResults(count: nat) {
    count == 0
  }

  /** The result keeps the order of the input and adds nothing. */
  lemma FilteredIsSubsequence(pubs: seq<Publication>, searchTerm: string, selectedTag: Option<string>)
    ensures IsSubsequence(FilteredPublications(pubs, searchTerm, selectedTag), pubs)
  {
    FilterIsSubsequence(pubs, Matcher(searchTerm, selectedTag));
  }

  /** Soundness of the search: a returned publication holds the lowercased term in its
      lowercased title, some lowercased author, or its lowercased abstract text. */
  lemma SearchSound(pubs: seq<Publication>, searchTerm: string, selectedTag: Option<string>, pub: Publication)
    requires pub in FilteredPublications(pubs, searchTerm, selectedTag)
    ensures pub in pubs
    ensures || Contains(ToLower(pub.title), ToLower(searchTerm))
            || (exists author :: author in pub.authors && Contains(ToLower(author), ToLower(searchTerm)))
            || Contains(ToLower(pub.abstractText), ToLower(searchTerm))
  {
    FilterMembership(pubs, Matcher(searchTerm, selectedTag), pub);
  }

  /** Soundness of the tag filter: with a non-empty selected tag, every result carries
      exactly that tag. */
  lemma TagSound(pubs: seq<Publication>, searchTerm: string, tag: string, pub: Publication)
    requires tag != ""
    requires pub in FilteredPublications(pubs, searchTerm, Some(tag))
    ensures tag in pub.tags
  {
    FilterMembership(pubs, Matcher(searchTerm, Some(tag)), pub);
  }

  /** Completeness: a publication of the input satisfying both predicates is returned. */
  lemma FilterCompleteness(pubs: seq<Publication>, searchTerm: string, selectedTag: Option<string>, pub: Publication)
    requires pub in pubs
    requires MatchesSearch(pub, searchTerm) && PassesTag(pub.tags, selectedTag)
    ensures pub in FilteredPublications(pubs, searchTerm, selectedTag)
  {
    FilterMembership(pubs, Matcher(searchTerm, selectedTag), pub);
  }

  /** An empty search term with no selected tag shows every publication. */
  lemma EmptyQueryShowsAll(pubs: seq<Publication>)
    ensures FilteredPublications(pubs, "", None) == pubs
  {
    assert ToLower("") == "";
    forall pub | pub in pubs ensures Matches(pub, "", None) {
      ContainsEmpty(ToLower(pub.title));
    }
    FilterKeepsAll(pubs, Matcher("", None));
  }

  /** A null and an empty selected tag impose no constraint: both leave exactly the
      publications that match the search. */
  lemma NoTagIsNoConstraint(pubs: seq<Publication>, searchTerm: string)
    ensures FilteredPublications(pubs, searchTerm, Some("")) == FilteredPublications(pubs, searchTerm, None)
    ensures forall pub :: pub in FilteredPublications(pubs, searchTerm, None) <==> pub in pubs && MatchesSearch(pub, searchTerm)
  {
    FilterCongruent(pubs, Matcher(searchTerm, Some("")), Matcher(searchTerm, None));
    forall pub ensures pub in FilteredPublications(pubs, searchTerm, None) <==> pub in pubs && MatchesSearch(pub, searchTerm) {
      FilterMembership(pubs, Matcher(searchTerm, None), pub);
    }
  }

  /** Filtering the result again with the same term and tag changes nothing. */
  lemma FilterIsIdempotent(pubs: seq<Publication>, searchTerm: string, selectedTag: Option<string>)
    ensures FilteredPublications(FilteredPublications(pubs, searchTerm, selectedTag), searchTerm, selectedTag)
         == FilteredPublications(pubs, searchTerm, selectedTag)
  {
    FilterIdempotent(pubs, Matcher(searchTerm, selectedTag));
  }

  /** The chips: no tag twice, exactly the tags found on some publication, in the order of
      their first appearance. */
  lemma AllTagsSpec(pubs: seq<Publication>)
    ensures NoDuplicates(AllTags(pubs))
    ensures forall t :: t in AllTags(pubs) <==> exists pub :: pub in pubs && t in pub.tags
    ensures forall i, j :: 0 <= i < j < |AllTags(pubs)| ==>
      AllTags(pubs)[i] in TagSequence(pubs) && AllTags(pubs)[j] in TagSequence(pubs) &&
      FirstIndex(TagSequence(pubs), AllTags(pubs)[i]) < FirstIndex(TagSequence(pubs), AllTags(pubs)[j])
  {
    DedupSpec(TagSequence(pubs));
    forall t ensures t in TagSequence(pubs) <==> exists pub :: pub in pubs && t in pub.tags {
      FlatMapMembership(pubs, TagsOf, t);
    }
  }

  /** The heading reads "Publication" (singular) exactly when one publication is shown. */
  lemma HeadingSingularExactlyForOne(count: nat)
    ensures ResultHeading(count) == NatToString(count) + " Publication Found" <==> count == 1
  {
    if count != 1 {
      assert |ResultHeading(count)| == |NatToString(count) + " Publication Found"| + 1;
    }
  }

  /** The "no publications" message appears exactly when no publication passes both
      predicates. */
  lemma NoResultsExactlyWhenNothingMatches(pubs: seq<Publication>, searchTerm: string, selectedTag: Option<string>)
    ensures ShowsNoResults(|FilteredPublications(pubs, searchTerm, selectedTag)|)
        <==> forall pub :: pub in pubs ==> !Matches(pub, searchTerm, selectedTag)
  {
    var r := FilteredPublications(pubs, searchTerm, selectedTag);
    forall pub ensures pub in r <==> pub in pubs && Matches(pub, searchTerm, selectedTag) {
      FilterMembership(pubs, Matcher(searchTerm, selectedTag), pub);
    }
    if r != [] {
      assert r[0] in r;
    }
  }
}
