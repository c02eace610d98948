# Argil Research Institute site: the query layer, in Dafny

The site is a presentational React application. Its pages read fixed collections of
researchers, projects, publications and media. The only logic is a small query layer
written inline in the page components, plus two helpers and one store slice. This
project lifts that logic into standalone Dafny functions, methods and classes that take
the collections as parameters, and proves the properties the pages rely on.

The model covers:

- **Publications page.** The case-insensitive search over title, authors and abstract. The
  exact tag match that is ANDed with it. The tag chips, which keep each tag's first
  occurrence. The wording of the result count.
- **Gallery page.** The mapping from tab index to media type, and the media filter (type
  AND tag). The tag chips. The project-name lookup. The items handed to the image
  carousel. The counts on the tabs. The page state (`tabValue`, `selectedTag`) is a class, and
  `handleTabChange` clears the selected tag.
- **Research page.** The expand/collapse toggle (a class holding `expandedProject` and
  `tabValue`). `getResearcherById`. The team list, which drops ids that resolve to nobody.
  The "Present" end of a date range.
- **Team page.** `getProjectCount` and the first-three-specialties slice.
- **Home page.** The featured slices, the 100-character bio preview, the first-two
  specialty chips, and the stats cards.
- **Navigation.** Between the path and the tab index, in both directions.
- **Image helper.** The `imageImports` map: the `forEach` loop is a method, proved against
  a recursive definition. `getImageSrc` with its external-URL pass-through and fixed fallback.
- **The `ui` store slice.** A record with four reducers. These are a pure `Reduce` function
  and a `UiStore` class whose methods assign the fields in place.
- **Fixture lemmas.** Example evaluations over the constant collections of
  `src/mock-data/index.ts`.

## JavaScript behaviour the model makes explicit

- **Falsy values.** `!selectedTag` holds for both `null` and `""` (`TagFilter.TagSelected`).
  `!projectId` holds for a missing and an empty id. `project.endDate ? … : 'Present'`
  treats `""` as absent.
- **`||` fallback.** `imageImports[f] || imageImports['sample-research-photo-3.jpg']` falls
  through on an empty entry. The fallback entry can itself be missing, so `getImageSrc`
  returns an `Option`.
- **`replace`.** `key.replace('./', '')` removes the first `./` wherever it occurs, not
  only a leading one (`Strings.ReplaceFirst`).
- **Out-of-range indexing.** `routes[newValue]` outside the table reads `undefined`
  (`Navigation.RouteFor` returns an `Option`).
- **`find`, `new Set` and `slice`.** `find` returns the first match.
  `Array.from(new Set(...))` keeps first occurrences in order. `slice(0, n)` is a
  prefix of length `min(n, |s|)`.
- **Field renames.** `abstract`, `type` and `label` are Dafny keywords. They become
  `abstractText`, `kind` and `name`.

## Model

| member | source | states |
|---|---|---|
| GalleryPage.TypeTabsPartition | src/pages/GalleryPage.tsx:46-50 | tab 0 passes every media type; tabs 1, 2, 3 pass exactly video, image, document; any other tab value passes none |
| GalleryPage.FilteredMediaMembership | src/pages/GalleryPage.tsx:45-53 | an item is in `filteredMedia` iff it is in the collection and passes both the type and the tag predicate |
| GalleryPage.FilteredMediaIsSubsequence | src/pages/GalleryPage.tsx:45-53 | `filteredMedia` keeps the collection's order and adds nothing |
| GalleryPage.UnknownTabShowsNothing | src/pages/GalleryPage.tsx:46-50 | a tab value outside 0..3 keeps no item, whatever the tag |
| GalleryPage.AllTabWithoutTagShowsAll | src/pages/GalleryPage.tsx:45-53 | tab 0 with a null or empty tag keeps the whole collection |
| GalleryPage.AllMediaTagsSpec | src/pages/GalleryPage.tsx:41-43 | the chips have no duplicates, are exactly the tags of some media item, and are in first-occurrence order |
| GalleryPage.GetProjectName | src/pages/GalleryPage.tsx:55-59 | a returned title belongs to a project carrying the given id |
| GalleryPage.GetProjectNameSpec | src/pages/GalleryPage.tsx:55-59 | no title iff the id is absent, empty or carried by no project; otherwise the title of the first project with that id |
| GalleryPage.ImageGalleryItemsSpec | src/pages/GalleryPage.tsx:76-84 | one carousel entry per image item, in order, with original = thumbnail = url, description = caption, both alt texts = title; the same items as tab 2 with no tag |
| GalleryPage.KindCountsSumToAll | src/pages/GalleryPage.tsx:86-91 | the Videos, Images and Documents counts add up to the All count |
| GalleryPage.TabCountMatchesFilter | src/pages/GalleryPage.tsx:86-91 | with no tag selected, `filteredMedia` for tab k has as many items as tab k's label count |
| GalleryPage.TabLabelsShowFilteredCounts | src/pages/GalleryPage.tsx:86-91 | each of the four labels is the tab name followed by the size of that tab's filtered list in parentheses |
| GalleryPage.GalleryView.constructor | src/pages/GalleryPage.tsx:33-34 | the page starts on tab 0 with no tag selected |
| GalleryPage.GalleryView.HandleTabChange | src/pages/GalleryPage.tsx:36-39 | sets the tab to the new value and always resets the tag to null, so the filtered list is the new tab's untagged list |
| GalleryPage.GalleryView.SelectTag | src/pages/GalleryPage.tsx:128 | a tag chip selects its tag and keeps the tab |
| GalleryPage.GalleryView.ClearTag | src/pages/GalleryPage.tsx:120 | the "All Tags" chip selects no tag and keeps the tab |
| PublicationsPage.FilteredIsSubsequence | src/pages/PublicationsPage.tsx:25-31 | the result keeps the input's order and adds nothing |
| PublicationsPage.SearchSound | src/pages/PublicationsPage.tsx:26-28 | every result holds the lowercased term in its lowercased title, some lowercased author, or its lowercased abstract |
| PublicationsPage.TagSound | src/pages/PublicationsPage.tsx:29 | with a non-empty selected tag, every result's tags contain exactly that string |
| PublicationsPage.FilterCompleteness | src/pages/PublicationsPage.tsx:25-31 | every input publication satisfying the search and the tag predicate is in the result |
| PublicationsPage.EmptyQueryShowsAll | src/pages/PublicationsPage.tsx:26-29 | an empty term with a null tag returns the whole input |
| PublicationsPage.NoTagIsNoConstraint | src/pages/PublicationsPage.tsx:29 | an empty tag gives the same result as a null one, and both keep exactly the publications matching the search |
| PublicationsPage.FilterIsIdempotent | src/pages/PublicationsPage.tsx:25-31 | filtering the result again with the same term and tag changes nothing |
| PublicationsPage.AllTagsSpec | src/pages/PublicationsPage.tsx:21-23 | the chips have no duplicates, are exactly the tags of some publication, and are in first-occurrence order |
| PublicationsPage.HeadingSingularExactlyForOne | src/pages/PublicationsPage.tsx:104 | the heading says "Publication" without the plural "s" iff the count is 1 |
| PublicationsPage.NoResultsExactlyWhenNothingMatches | src/pages/PublicationsPage.tsx:180 | the "no publications" message shows iff no publication passes both predicates |
| ResearchPage.Toggle | src/pages/ResearchPage.tsx:38 | clicking the expanded id collapses it; clicking any other id, from null or from another id, expands exactly that id |
| ResearchPage.ToggleTwiceFromNone | src/pages/ResearchPage.tsx:37-39 | two clicks on the same id from null return to null |
| ResearchPage.AtMostOneExpanded | src/pages/ResearchPage.tsx:34-39 | at most one card is expanded, and after a click the only card that can be expanded is the clicked one |
| ResearchPage.GetResearcherById | src/pages/ResearchPage.tsx:45-46 | nothing iff no researcher has the id; otherwise a researcher of the collection with that id |
| ResearchPage.GetResearcherByIdFirst | src/pages/ResearchPage.tsx:45-46 | the researcher returned is the first one with the id |
| ResearchPage.ResearchTeamSpec | src/pages/ResearchPage.tsx:142-158 | the team is the project's resolving ids, in project order, each replaced by the researcher the lookup returns; dangling ids are dropped |
| ResearchPage.ResearchTeamMembers | src/pages/ResearchPage.tsx:142-158 | every member shown is a researcher of the collection whose id the project lists |
| ResearchPage.ResearchTeamExtremes | src/pages/ResearchPage.tsx:142-158 | all ids resolving gives one member per id; none resolving gives an empty team |
| ResearchPage.RangeEndOf | src/pages/ResearchPage.tsx:114 | the range ends in "Present" iff the end date is absent or empty, and otherwise in that date |
| ResearchPage.ResearchView.constructor | src/pages/ResearchPage.tsx:34-35 | no card expanded, tab 0 |
| ResearchPage.ResearchView.HandleExpandClick | src/pages/ResearchPage.tsx:37-39 | the expanded id becomes the toggle of the old one; the tab is unchanged |
| ResearchPage.ResearchView.HandleTabChange | src/pages/ResearchPage.tsx:41-43 | sets the tab and leaves the expanded card untouched |
| TeamPage.GetProjectCount | src/pages/TeamPage.tsx:20 | the count never exceeds the number of projects |
| TeamPage.ProjectCountCountsListingProjects | src/pages/TeamPage.tsx:19-21 | the count equals the number of positions in the project list whose project lists the id |
| TeamPage.ProjectCountZeroIffUnlisted | src/pages/TeamPage.tsx:20 | the count is 0 iff no project lists the id |
| TeamPage.ProjectCountedOnce | src/pages/TeamPage.tsx:20 | one more project adds one to the count if it lists the id, however many times, and nothing otherwise |
| TeamPage.ShownSpecialties | src/pages/TeamPage.tsx:86 | the first min(3, n) specialties, in order |
| HomePage.FeaturedProjects | src/pages/HomePage.tsx:27 | the first min(2, n) projects, in order |
| HomePage.FeaturedResearchers | src/pages/HomePage.tsx:28 | the first min(3, n) researchers, in order |
| HomePage.SpecialtyChips | src/pages/HomePage.tsx:205 | the first min(2, n) specialties, in order |
| HomePage.BioPreview | src/pages/HomePage.tsx:200-202 | a bio over 100 characters becomes its first 100 characters and "...", 103 in all; a shorter one is unchanged |
| HomePage.BioPreviewIdempotent | src/pages/HomePage.tsx:200-202 | previewing a preview changes nothing |
| HomePage.StatsValues | src/pages/HomePage.tsx:82-85 | the Active Projects and Research Team cards show the two collection lengths; Publications and Impact Factor show fixed texts |
| Navigation.GetActiveTab | src/components/layout/Navigation.tsx:23-41 | the active tab is always in 0..5 |
| Navigation.RouteFor | src/components/layout/Navigation.tsx:44-46 | a tab index has a route iff it is in 0..5, and a route is always one of the table's paths |
| Navigation.RoutesDistinct | src/components/layout/Navigation.tsx:44 | no path appears twice in the routes table |
| Navigation.ActiveTabOfRoute | src/components/layout/Navigation.tsx:23-44 | round trip: the route of tab i makes tab i active, for every i in 0..5 |
| Navigation.UnknownPathIsHome | src/components/layout/Navigation.tsx:38-39 | any path outside the table activates tab 0 |
| Navigation.RouteOfActiveTab | src/components/layout/Navigation.tsx:23-44 | path to tab and back returns the path iff it is one of the six listed; every other path comes back as "/" |
| Navigation.ActiveTabNotInjective | src/components/layout/Navigation.tsx:38-39 | two different paths share tab 0 |
| Navigation.TablesAligned | src/components/layout/Navigation.tsx:44-56 | both tables have length 6; tab 0 is "/" and Home, and every other path is "/" followed by its lowercased label |
| ImageUtils.NormalizeDirectoryKey | src/utils/imageUtils.ts:14 | a key "./name" becomes "name" |
| ImageUtils.NormalizePlainKey | src/utils/imageUtils.ts:14 | a key without "./" is kept as it is |
| ImageUtils.BuildImageImports | src/utils/imageUtils.ts:12-16 | the `forEach` loop builds exactly the map `ImageImports` defines, in which later keys overwrite earlier ones |
| ImageUtils.ImageImportsDomain | src/utils/imageUtils.ts:13-16 | the map's names are exactly the keys with their first "./" removed |
| ImageUtils.ImageImportsValue | src/utils/imageUtils.ts:15 | each name holds the resolved path of the last key with that name |
| ImageUtils.GetImageSrc | src/utils/imageUtils.ts:18-25 | a result is the name itself or a map value; no result only for a local name when the fallback file is missing |
| ImageUtils.ExternalUrlUnchanged | src/utils/imageUtils.ts:20-22 | a name starting with "http://", "https://" or "//" is returned unchanged, whatever the map holds |
| ImageUtils.LocalHit | src/utils/imageUtils.ts:24 | a local name with a non-empty entry yields that entry |
| ImageUtils.LocalMiss | src/utils/imageUtils.ts:24 | a local name that is missing or maps to "" yields the 'sample-research-photo-3.jpg' entry, if there is one |
| ImageUtils.BundledFileResolves | src/utils/imageUtils.ts:12-25 | for the map built from the bundle, a bundled file's name yields that file's path when no later key shares the name and the path is non-empty |
| UiSlice.ReduceFrames | src/store/slices/uiSlice.ts:20-32 | each action touches only its own fields: setError sets the error and forces loading off; clearError clears only the error; only setThemeMode changes the theme |
| UiSlice.ClearErrorIdempotent | src/store/slices/uiSlice.ts:30-32 | clearing the error twice is clearing it once |
| UiSlice.SetErrorThenClear | src/store/slices/uiSlice.ts:26-32 | after setError then clearError, nothing is loading, there is no error, and the theme is unchanged |
| UiSlice.ThemeSetOnlyBySetThemeMode | src/store/slices/uiSlice.ts:20-32 | after any action sequence the theme is the last setThemeMode's, or the starting one when there is none |
| UiSlice.UiStore.constructor | src/store/slices/uiSlice.ts:10-14 | the initial state is light theme, not loading, no error |
| UiSlice.UiStore.SetThemeMode | src/store/slices/uiSlice.ts:20-22 | assigns the theme; loading and error unchanged |
| UiSlice.UiStore.SetLoading | src/store/slices/uiSlice.ts:23-25 | assigns the loading flag; theme and error unchanged |
| UiSlice.UiStore.SetError | src/store/slices/uiSlice.ts:26-29 | assigns the error, forces loading off, theme unchanged |
| UiSlice.UiStore.ClearError | src/store/slices/uiSlice.ts:30-32 | drops the error; theme and loading unchanged |
| UiSlice.UiStore.Dispatch | src/store/slices/uiSlice.ts:16-34 | the in-place update agrees with the reducer function on every action |
| Seqs.FilterMembership | src/pages/PublicationsPage.tsx:25-31 | `filter` keeps an element iff it is in the input and satisfies the predicate |
| Seqs.DedupSpec | src/pages/PublicationsPage.tsx:21-23 | `Array.from(new Set(s))` has no duplicates, has the same elements as s, and is in first-occurrence order |
| Seqs.Find | src/pages/GalleryPage.tsx:57 | `find` returns nothing iff no element matches, and otherwise the first match |
| Seqs.Take | src/pages/HomePage.tsx:27 | `slice(0, n)` is the prefix of length min(n, \|s\|) |
| Strings.ReplaceFirstAtStart | src/utils/imageUtils.ts:14 | `replace` of a pattern the string starts with removes that prefix |
| Strings.NatToString | src/pages/PublicationsPage.tsx:104 | a number's decimal rendering is non-empty, made of digits, and starts with '0' only for 0 itself, so it is the canonical form `${n}` prints |
| Strings.NatToStringValue | src/pages/GalleryPage.tsx:86-91 | round trip: the digits a count is rendered with, read back in base 10, are the count itself, so the "(n)" of every tab label and the count in the publications heading show the true number |
| MockData.IdsUnique | src/mock-data/index.ts:13-180 | ids are unique within the researchers, projects, publications and media |
| MockData.MediaProjectsResolve | src/mock-data/index.ts:125-180 | every media item names an existing project |
| MockData.ProjectLinksMirrored | src/mock-data/index.ts:13-88 | a researcher lists a project iff that project lists the researcher |
| MockData.DoiLinks | src/mock-data/index.ts:90-123 | pub-1 and pub-2 have a DOI link, pub-3 has none |
| Examples.CementSearchFindsPub1 | src/mock-data/index.ts:90-123 | searching "cement" finds pub-1 alone |
| Examples.PolymerInMaterialsScienceFindsNothing | src/mock-data/index.ts:90-123 | the tag "Materials Science" with the search "polymer" finds nothing |
| Examples.FiltrationTagOnlyPub3 | src/mock-data/index.ts:121 | the tag "Filtration" with an empty search finds pub-3 alone |
| Examples.BioPolymersTagMatchesNothing | src/mock-data/index.ts:121 | the tag is spelled "Bio-Polyymers", so the tag "Bio-Polymers" finds nothing, whatever the search |
| Examples.MediaTypeCounts | src/mock-data/index.ts:125-180 | 2 videos, 3 images, 1 document; tab labels "All (6)", "Videos (2)", "Images (3)", "Documents (1)" |
| Examples.ProjectNames | src/mock-data/index.ts:56-88 | media-1 and media-6 show their projects' titles; an empty or unknown id shows none |
| Examples.DanglingResearcherDropped | src/mock-data/index.ts:13-54 | a project listing researcher-1 and an unknown id shows a team of one |
| Examples.ProjectCounts | src/mock-data/index.ts:56-88 | researcher-1 is on 2 projects, researcher-4 on 1, an unknown id on 0 |
| Examples.DuplicateListingCountsOnce | src/pages/TeamPage.tsx:20 | a project listing the same researcher twice counts once |
| Examples.FixtureBiosShownInFull | src/mock-data/index.ts:13-54 | no fixture bio exceeds 100 characters, so each is shown in full |
| Examples.FixtureFeatured | src/mock-data/index.ts:13-88 | the Home page features project-1 and project-2, and researchers 1 to 3 |
| FixtureSearch.CementNotInPub2 | src/mock-data/index.ts:102-112 | no field of pub-2 contains "cement" in any case |
| FixtureSearch.CementNotInPub3 | src/mock-data/index.ts:113-122 | no field of pub-3 contains "cement" in any case |
| FixtureSearch.PolymerNotInPub1 | src/mock-data/index.ts:91-101 | no field of pub-1 contains "polymer" in any case |

## Left out

- JSX rendering, MUI layout, framer-motion animations, `useInView` and hover effects. These
  are presentation with no logic to verify.
- `src/pages/AboutPage.tsx`, `src/components/layout/Footer.tsx`,
  `src/components/layout/Header.tsx`, `src/App.tsx`, `src/store/store.ts`,
  `src/types/react-image-gallery.d.ts` and `webpack.config.js` are not part of this
  model. They are static markup, router and store wiring, a foreign type declaration and
  build configuration.
- The `navigate(...)` and `console.log` calls of the navigation bar. They are router and
  console side effects; only the path and index tables are modelled.
- The Redux Toolkit machinery around the slice. This covers action creators, the
  reducer's handling of unknown actions, and the `undefined` starting state. `Reduce` and
  `UiStore` model the four case reducers only.
- `require.context` (src/utils/imageUtils.ts:9). The bundler's directory scan is the
  parameter `keys`, and the module each key loads is the parameter `resolve`. The plain
  object `imageImports` is a `map`, so names that clash with `Object.prototype` members
  are not modelled.
- `team-members.json` (src/pages/TeamPage.tsx:14) is not shared with this model. The team
  list is a parameter of the Team page functions.
- `toLowerCase` is modelled on ASCII letters only (`Strings.LowerChar`); other characters
  are left unchanged. `includes` and `length` work on characters, not UTF-16 code units.
- Locale-dependent date formatting (`toLocaleDateString`). Only whether an end date is
  present is modelled (`ResearchPage.RangeEndOf`).
- The placeholder panels that hold no logic. These are the Research page's "Active" and
  "Completed" tabs, and the Gallery page's tab 1 and tab 3 panels. The Gallery grid renders
  `filteredMedia` only in tab 0's panel, but the filter is defined and proved for every tab
  value.
- The labels and texts that only read a length: "All Projects (n)" and "n media files
  available" on the Research page, and the placeholder image choice on the Home page's
  project cards (src/pages/HomePage.tsx:125).
- The search, tag and tab handlers that overwrite one state slot with an input value
  (src/pages/PublicationsPage.tsx:68, 83, 91). `PublicationsPage` takes `searchTerm` and
  `selectedTag` as parameters instead.
- The external photo URL of researcher-4 is not evaluated as a fixture example.
  `ImageUtils.ExternalUrlUnchanged` covers every external URL.
