/**
 * The article record that `parseDraft` builds from a draft's front matter and
 * body, and that every later stage (platform adaptation, publishing) passes on.
 */
module Articles {
  import opened Wrappers

  /** The front-matter keys a draft may carry; a missing key is `None`. */
  datatype Frontmatter = Frontmatter(
    title: string,
    coverImage: Option<string>,
    tags: Option<seq<string>>,
    series: Option<string>)

  datatype Article = Article(
    title: string,
    content: string,
    tags: Option<seq<string>>,
    coverImage: Option<string>,
    series: Option<string>)

  /** JavaScript truthiness of an optional string: present and not empty. */
  predicate Truthy(s: Option<string>) {
    s.Some? && s.value != ""
  }
}
