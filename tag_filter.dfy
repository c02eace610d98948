/** The tag predicate shared by the Publications and Gallery pages:
    `!selectedTag || item.tags.includes(selectedTag)`. */
module TagFilter {
  import opened Wrappers

  /** JavaScript truthiness of the selected tag: `null` and `""` both select nothing. */
  predicate TagSelected(tag: Option<string>) {
    tag.Some? && tag.value != ""
  }

  /** An item passes when no tag is selected or its tag list holds the selected tag,
      compared exactly (case-sensitive). */
  predicate PassesTag(tags: seq<string>, tag: Option<string>) {
    !TagSelected(tag) || tag.value in tags
  }
}
