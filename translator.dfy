/**
 * Per-platform adaptation of an article (lib/translator.js): tag rules for
 * Hashnode and Dev.to, the cover image prepended to Blogger's HTML, and the
 * choice between an English and a Korean draft file.
 */
module Translator {
  import opened Wrappers
  import opened Text
  import opened Articles

  // ---------------------------------------------------------------------------
  // Tag rules

  /** `t.replace(/\s+/g, '')`: every white-space character removed, the rest kept in order. */
  function RemoveWhitespace(s: string): (r: string)
    ensures |r| <= |s|
    ensures forall c :: c in r <==> c in s && !IsWhitespace(c)
    decreases |s|
  {
    if s == [] then []
    else
      assert s == [s[0]] + s[1..];
      (if IsWhitespace(s[0]) then [] else [s[0]]) + RemoveWhitespace(s[1..])
  }

  /** Removing white space distributes over concatenation, so it keeps the order of what is left. */
  lemma {:induction false} RemoveWhitespaceAppend(a: string, b: string)
    ensures RemoveWhitespace(a + b) == RemoveWhitespace(a) + RemoveWhitespace(b)
    decreases |a|
  {
    if a == [] {
      assert a + b == b;
    } else {
      var tail := a[1..];
      assert a == [a[0]] + tail;
      assert a + b == [a[0]] + (tail + b);
      var head := if IsWhitespace(a[0]) then [] else [a[0]];
      RemoveWhitespaceCons(a[0], tail);
      RemoveWhitespaceCons(a[0], tail + b);
      RemoveWhitespaceAppend(tail, b);
      assert RemoveWhitespace(a + b) == head + (RemoveWhitespace(tail) + RemoveWhitespace(b));
      assert RemoveWhitespace(a) == head + RemoveWhitespace(tail);
      StringAssoc(head, RemoveWhitespace(tail), RemoveWhitespace(b));
    }
  }

  lemma RemoveWhitespaceCons(x: char, s: string)
    ensures RemoveWhitespace([x] + s) == (if IsWhitespace(x) then [] else [x]) + RemoveWhitespace(s)
  {
    assert ([x] + s)[1..] == s;
  }

  /** A string without white space is left as it is. */
  lemma {:induction false} RemoveWhitespaceFixes(s: string)
    requires forall c :: c in s ==> !IsWhitespace(c)
    ensures RemoveWhitespace(s) == s
    decreases |s|
  {
    if s != [] {
      assert s[0] in s;
      assert forall c :: c in s[1..] ==> c in s;
      RemoveWhitespaceFixes(s[1..]);
      assert s == [s[0]] + s[1..];
    }
  }

  /** The Dev.to form of one tag: lower case, white space removed. */
  function DevtoTag(t: string): (r: string)
    ensures forall c :: c in r ==> !IsWhitespace(c) && !IsUpper(c)
    ensures forall c :: c in r <==> c in ToLower(t) && !IsWhitespace(c)
    ensures (forall c :: c in t ==> !IsWhitespace(c)) ==> r == ToLower(t)
    ensures |r| <= |t|
  {
    SpacelessTagOnlyLowered(t);
    var lower := ToLower(t);
    var r := RemoveWhitespace(lower);
    r
  }

  /** A tag without white space only has its capitals lowered. */
  lemma SpacelessTagOnlyLowered(t: string)
    ensures (forall c :: c in t ==> !IsWhitespace(c)) ==> RemoveWhitespace(ToLower(t)) == ToLower(t)
  {
    if forall c :: c in t ==> !IsWhitespace(c) {
      var lower := ToLower(t);
      forall c | c in lower
        ensures !IsWhitespace(c)
      {
        var i :| 0 <= i < |lower| && lower[i] == c;
        assert t[i] in t;
      }
      RemoveWhitespaceFixes(lower);
    }
  }

  lemma LowerCharFixes(c: char)
    requires !IsUpper(c)
    ensures LowerChar(c) == c
  {
  }

  /** Normalising a Dev.to tag a second time changes nothing. */
  lemma DevtoTagIdempotent(t: string)
    ensures DevtoTag(DevtoTag(t)) == DevtoTag(t)
  {
    var d := DevtoTag(t);
    assert ToLower(d) == d by {
      forall i | 0 <= i < |d| ensures ToLower(d)[i] == d[i] {
        assert d[i] in d;
        LowerCharFixes(d[i]);
      }
    }
    assert forall c :: c in ToLower(d) ==> !IsWhitespace(c);
    RemoveWhitespaceFixes(ToLower(d));
  }

  const HashnodeMaxTags: nat := 5

  /** Hashnode's tag rule `tags?.slice(0, 5)`. */
  function HashnodeTags(tags: Option<seq<string>>): (r: Option<seq<string>>)
    ensures r.None? <==> tags.None?
    ensures r.Some? ==> r.value <= tags.value
    ensures r.Some? ==> |r.value| == if |tags.value| < HashnodeMaxTags then |tags.value| else HashnodeMaxTags
  {
    match tags
    case None => None
    case Some(ts) => Some(if |ts| <= HashnodeMaxTags then ts else ts[..HashnodeMaxTags])
  }

  /** Dev.to's tag rule `tags?.map(t => t.toLowerCase().replace(/\s+/g, ''))`. */
  function DevtoTags(tags: Option<seq<string>>): (r: Option<seq<string>>)
    ensures r.None? <==> tags.None?
    ensures r.Some? ==> |r.value| == |tags.value|
    ensures r.Some? ==> forall i :: 0 <= i < |r.value| ==> r.value[i] == DevtoTag(tags.value[i])
  {
    match tags
    case None => None
    case Some(ts) => Some(seq(|ts|, i requires 0 <= i < |ts| => DevtoTag(ts[i])))
  }

  // ---------------------------------------------------------------------------
  // Blogger cover

  const CoverStyle: string := "width:100%;max-width:1000px;margin-bottom:20px;"

  /** The image element put in front of Blogger's HTML, followed by a blank line. */
  function CoverTag(cover: string, title: string): (tag: string)
    ensures ("<img src=\"" + cover + "\"") <= tag
    ensures EndsWith(tag, ">\n\n")
  {
    var open := "<img src=\"" + cover + "\"";
    var tag := open + " alt=\"" + title + "\" style=\"" + CoverStyle + "\">" + "\n\n";
    assert tag == open + (" alt=\"" + title + "\" style=\"" + CoverStyle + "\">" + "\n\n");
    tag
  }

  // ---------------------------------------------------------------------------
  // adaptForPlatform

  /**
   * `adaptForPlatform(article, platform)`. For Blogger the markdown-to-HTML
   * conversion and the sanitiser are the parameter `toHtml`; the quality check
   * there only logs and is not part of the result.
   */
  function AdaptForPlatform(a: Article, platform: string, toHtml: string -> string): (r: Article)
    ensures r.title == a.title && r.coverImage == a.coverImage && r.series == a.series
    ensures platform == "blogger" ==>
      && r.tags == a.tags
      && EndsWith(r.content, toHtml(a.content))
      && (Truthy(a.coverImage) ==> ("<img src=\"" + a.coverImage.value + "\"") <= r.content)
      && (!Truthy(a.coverImage) ==> r.content == toHtml(a.content))
    ensures platform == "hashnode" ==> r.content == a.content && r.tags == HashnodeTags(a.tags)
    ensures platform == "devto" ==> r.content == a.content && r.tags == DevtoTags(a.tags)
    ensures platform !in {"blogger", "hashnode", "devto"} ==> r == a
  {
    if platform == "blogger" then
      var html := toHtml(a.content);
      if Truthy(a.coverImage) then
        var tag := CoverTag(a.coverImage.value, a.title);
        assert (tag + html)[..|tag|] == tag;
        assert (tag + html)[|tag + html| - |html|..] == html;
        a.(content := tag + html)
      else a.(content := html)
    else if platform == "hashnode" then a.(tags := HashnodeTags(a.tags))
    else if platform == "devto" then a.(tags := DevtoTags(a.tags))
    else a
  }

  /** Adapting for Dev.to or Hashnode twice gives what adapting once gives. */
  lemma AdaptTagsIdempotent(a: Article, platform: string, toHtml: string -> string)
    requires platform == "devto" || platform == "hashnode"
    ensures AdaptForPlatform(AdaptForPlatform(a, platform, toHtml), platform, toHtml)
         == AdaptForPlatform(a, platform, toHtml)
  {
    var once := AdaptForPlatform(a, platform, toHtml);
    if platform == "devto" && a.tags.Some? {
      forall i | 0 <= i < |a.tags.value| {
        DevtoTagIdempotent(a.tags.value[i]);
      }
      assert DevtoTags(once.tags).value == once.tags.value;
    }
  }

  // ---------------------------------------------------------------------------
  // Draft selection

  /** `isKoreanDraft(filename)`: the name contains `-ko.md`. */
  function IsKoreanDraft(filename: string): (b: bool)
    ensures b <==> Contains(filename, "-ko.md")
  {
    EndsWithContains(filename, "-ko.md");
    Contains(filename, "-ko.md") || EndsWith(filename, "-ko.md")
  }

  /** The Korean sibling of a draft path: its first `.md` becomes `-ko.md`. */
  function KoreanPath(basePath: string): string {
    ReplaceFirst(basePath, ".md", "-ko.md")
  }

  /**
   * `getDraftPathForPlatform(basePath, platform)`; `fileExists` stands for
   * `fs.existsSync`.
   */
  function GetDraftPathForPlatform(basePath: string, platform: string, fileExists: string -> bool): (p: string)
    ensures platform != "blogger" ==> p == basePath
    ensures platform == "blogger" && fileExists(KoreanPath(basePath)) ==> p == KoreanPath(basePath)
    ensures platform == "blogger" && !fileExists(KoreanPath(basePath)) ==> p == basePath
  {
    if platform == "blogger" then
      var koPath := KoreanPath(basePath);
      if fileExists(koPath) then koPath else basePath
    else basePath
  }

  /** For `stem.md` (no `.md` inside the stem) the Korean path is `stem-ko.md`, which is a Korean draft. */
  lemma KoreanPathOfMarkdown(stem: string)
    requires !Contains(stem, ".md")
    ensures KoreanPath(stem + ".md") == stem + "-ko.md"
    ensures IsKoreanDraft(KoreanPath(stem + ".md"))
  {
    FirstMarkdownSuffix(stem);
    ContainsAt(stem + "-ko.md", "-ko.md", |stem|);
  }

  lemma {:induction false} FirstMarkdownSuffix(stem: string)
    requires !Contains(stem, ".md")
    ensures ReplaceFirst(stem + ".md", ".md", "-ko.md") == stem + "-ko.md"
    decreases |stem|
  {
    if stem == [] {
      assert stem + ".md" == ".md";
      assert stem + "-ko.md" == "-ko.md";
      assert ".md" <= ".md";
    } else {
      MarkdownNotAtStart(stem);
      HeadAppend(stem, ".md", "-ko.md");
      FirstMarkdownSuffix(stem[1..]);
    }
  }

  lemma MarkdownNotAtStart(stem: string)
    requires stem != [] && !Contains(stem, ".md")
    ensures !(".md" <= stem + ".md")
  {
    if |stem| >= 3 {
      assert (stem + ".md")[..3] == stem[..3];
    } else if |stem| == 2 {
      assert (stem + ".md")[2] == '.';
    } else {
      assert (stem + ".md")[1] == '.';
    }
  }
}
