/**
 * The stand-alone Dev.to publisher (publish.js): rewriting local asset links,
 * choosing between updating an article with the same title and creating a
 * new one, and the static check of the GitHub-hosted images a text links to.
 *
 * The HTTP calls are parameters: the article listing is its result (or
 * `None` when the request failed) and each image probe is a function from
 * URL to response.
 */
module LegacyPublish {
  import opened Wrappers
  import opened Text
  import opened Config
  import opened Articles
  import AV = AssetVerifier
  import Publisher

  // ---------------------------------------------------------------------------
  // The article sent to Dev.to

  const GithubUsername: string := "hevi35-coder"
  const RepoName: string := "devto-publisher"
  const BranchName: string := "main"

  /** `BASE_ASSET_URL`, spelled out inline from its own constants. */
  function BaseAssetUrl(): (u: string)
    ensures u == AssetBaseUrl()
  {
    "https://raw.githubusercontent.com/" + GithubUsername + "/" + RepoName + "/" + BranchName + "/assets/"
  }

  /** The `article` object of the request body. */
  datatype DevtoArticle = DevtoArticle(
    title: string,
    bodyMarkdown: string,
    published: bool,
    series: Option<string>,
    tags: Option<seq<string>>,
    mainImage: Option<string>)

  /**
   * The article built from the whole file `fileContent` (front matter
   * included) and its parsed front matter `data`: every `../assets/` becomes
   * the base URL, and a local cover has its first `../assets/` rewritten.
   */
  function BuildArticle(fileContent: string, data: Frontmatter): (a: DevtoArticle)
    ensures a.bodyMarkdown == Join(SplitOn(fileContent, Publisher.AssetDir), BaseAssetUrl())
    ensures a.title == data.title && a.published && a.series == data.series && a.tags == data.tags
    ensures Truthy(data.coverImage) && Publisher.AssetDir <= data.coverImage.value ==>
              a.mainImage == Some(BaseAssetUrl() + data.coverImage.value[|Publisher.AssetDir|..])
    ensures !(Truthy(data.coverImage) && "../assets" <= data.coverImage.value) ==> a.mainImage == data.coverImage
  {
    ReplaceAllIsSplitJoin(fileContent, Publisher.AssetDir, BaseAssetUrl());
    var mainImage :=
      if data.coverImage.Some? && data.coverImage.value != "" && "../assets" <= data.coverImage.value
      then Some(ReplaceFirst(data.coverImage.value, Publisher.AssetDir, BaseAssetUrl()))
      else data.coverImage;
    DevtoArticle(data.title, ReplaceAll(fileContent, Publisher.AssetDir, BaseAssetUrl()), true,
                 data.series, data.tags, mainImage)
  }

  /**
   * On the same text and front matter, the script rewrites assets and the
   * cover exactly as the router's `parseDraft` does; only the tag default
   * differs.
   */
  lemma RewriteAgreesWithParseDraft(text: string, data: Frontmatter)
    ensures BuildArticle(text, data).bodyMarkdown == Publisher.ParseDraft(data, text).content
    ensures BuildArticle(text, data).mainImage == Publisher.ParseDraft(data, text).coverImage
    ensures Publisher.ParseDraft(data, text).tags == Some(BuildArticle(text, data).tags.GetOr([]))
  {
  }

  // ---------------------------------------------------------------------------
  // Create or update

  /** One entry of `GET /api/articles/me/all`. */
  datatype Listed = Listed(id: int, title: string, url: string)

  /** The comparison inside `find`: equal titles once both are trimmed. */
  predicate SameTitle(a: Listed, title: string) {
    Trim(a.title) == Trim(title)
  }

  /** `meArticles.data.find(a => a.title.trim() === article.title.trim())`, as a position. */
  function FindExisting(articles: seq<Listed>, title: string): (r: Option<nat>)
    ensures r.Some? ==> r.value < |articles| && SameTitle(articles[r.value], title)
    ensures r.Some? ==> forall j :: 0 <= j < r.value ==> !SameTitle(articles[j], title)
    ensures r.None? ==> forall j :: 0 <= j < |articles| ==> !SameTitle(articles[j], title)
  {
    var keys := TitleKeys(articles);
    FindFromFirstMatch(keys, Trim(title), 0);
    FindFrom(keys, Trim(title), 0)
  }

  /** The trimmed title of every listed article, in listing order. */
  function TitleKeys(articles: seq<Listed>): (keys: seq<string>)
    ensures |keys| == |articles|
    ensures forall j :: 0 <= j < |articles| ==> keys[j] == Trim(articles[j].title)
  {
    seq(|articles|, j requires 0 <= j < |articles| => Trim(articles[j].title))
  }

  /** The search of `find` from position `from` on, over the trimmed titles. */
  function FindFrom(keys: seq<string>, key: string, from: nat): (r: Option<nat>)
    requires from <= |keys|
    ensures r.Some? ==> from <= r.value < |keys|
    decreases |keys| - from
  {
    if from == |keys| then None
    else if keys[from] == key then Some(from)
    else FindFrom(keys, key, from + 1)
  }

  /** The search from `from` stops at the first matching title, and finds nothing only when none matches. */
  lemma {:induction false} FindFromFirstMatch(keys: seq<string>, key: string, from: nat)
    requires from <= |keys|
    ensures FindFrom(keys, key, from).Some? ==> keys[FindFrom(keys, key, from).value] == key
    ensures FindFrom(keys, key, from).Some? ==>
      forall j :: from <= j < FindFrom(keys, key, from).value ==> keys[j] != key
    ensures FindFrom(keys, key, from).None? ==> forall j :: from <= j < |keys| ==> keys[j] != key
    decreases |keys| - from
  {
    if from < |keys| && keys[from] != key {
      FindFromFirstMatch(keys, key, from + 1);
    }
  }

  /** `articleId` after the lookup: `null` when the listing failed or no title matched. */
  function ArticleId(listing: Option<seq<Listed>>, title: string): (id: Option<int>)
    ensures listing.None? ==> id.None?
    ensures listing.Some? ==>
      (id.Some? <==> FindExisting(listing.value, title).Some?)
    ensures listing.Some? && id.Some? ==> id.value == listing.value[FindExisting(listing.value, title).value].id
  {
    match listing
    case None => None
    case Some(articles) =>
      match FindExisting(articles, title)
      case None => None
      case Some(k) => Some(articles[k].id)
  }

  /** The one request sent: `PUT /api/articles/{id}` or `POST /api/articles`. */
  datatype Request = Put(id: int, article: DevtoArticle) | Create(article: DevtoArticle)

  /** `if (articleId)`: a present, non-zero id updates; anything else creates. */
  function ChooseRequest(articleId: Option<int>, article: DevtoArticle): (r: Request)
    ensures r.article == article
    ensures r.Put? <==> articleId.Some? && articleId.value != 0
    ensures r.Put? ==> r.id == articleId.value
  {
    if articleId.Some? && articleId.value != 0 then Put(articleId.value, article) else Create(article)
  }

  /** The request `publishArticle` sends for a file, its front matter and the listing result. */
  function PublishRequest(fileContent: string, data: Frontmatter, listing: Option<seq<Listed>>): Request {
    var article := BuildArticle(fileContent, data);
    ChooseRequest(ArticleId(listing, article.title), article)
  }

  /** When the listing request fails, the article is created. */
  lemma ListingFailureCreates(fileContent: string, data: Frontmatter)
    ensures PublishRequest(fileContent, data, None).Create?
  {
  }

  /**
   * With a listing, the article updates the first listed article whose
   * trimmed title equals its own (when that id is not 0), and is created
   * when no title matches.
   */
  lemma UpdateIffTitleListed(fileContent: string, data: Frontmatter, articles: seq<Listed>)
    ensures var r := PublishRequest(fileContent, data, Some(articles));
            r.Put? <==> exists k :: 0 <= k < |articles| && SameTitle(articles[k], data.title) && articles[k].id != 0
                                    && forall j :: 0 <= j < k ==> !SameTitle(articles[j], data.title)
    ensures var r := PublishRequest(fileContent, data, Some(articles));
            r.Put? ==> SameTitle(articles[FindExisting(articles, data.title).value], data.title)
                       && r.id == articles[FindExisting(articles, data.title).value].id
  {
    var r := PublishRequest(fileContent, data, Some(articles));
    var found := FindExisting(articles, data.title);
    if found.Some? {
      var k := found.value;
      forall k' | 0 <= k' < |articles| && SameTitle(articles[k'], data.title)
                  && forall j :: 0 <= j < k' ==> !SameTitle(articles[j], data.title)
        ensures k' == k
      {
      }
    }
  }

  // ---------------------------------------------------------------------------
  // verifyImagesFromContent

  /** A character the URL group `[^)"\s]` accepts. */
  predicate UrlChar(c: char) {
    c != ')' && c != '"' && !IsWhitespace(c)
  }

  /** How many URL characters follow position `j`. */
  function UrlRun(s: string, j: nat): (n: nat)
    requires j <= |s|
    ensures j + n <= |s|
    ensures forall k :: j <= k < j + n ==> UrlChar(s[k])
    ensures j + n == |s| || !UrlChar(s[j + n])
    decreases |s| - j
  {
    if j == |s| || !UrlChar(s[j]) then 0 else 1 + UrlRun(s, j + 1)
  }

  /** Where a match of the image pattern that starts at `i` ends, if one does. */
  function MatchAt(s: string, i: nat): (e: Option<nat>)
    requires i <= |s|
    ensures e.Some? ==> i + |RawHost| < e.value <= |s| && RawHost <= s[i..]
  {
    if RawHost <= s[i..] then
      var n := UrlRun(s, i + |RawHost|);
      if n > 0 then Some(i + |RawHost| + n) else None
    else None
  }

  /** The next match at or after `from`, as `(start, end)`: what one `exec` call finds. */
  function NextMatch(s: string, from: nat): (m: Option<(nat, nat)>)
    requires from <= |s|
    ensures m.Some? ==> from <= m.value.0 < m.value.1 <= |s| && MatchAt(s, m.value.0) == Some(m.value.1)
    ensures m.Some? ==> forall i :: from <= i < m.value.0 ==> MatchAt(s, i).None?
    ensures m.None? ==> forall i :: from <= i <= |s| ==> MatchAt(s, i).None?
    decreases |s| - from
  {
    if MatchAt(s, from).Some? then Some((from, MatchAt(s, from).value))
    else if from == |s| then None
    else NextMatch(s, from + 1)
  }

  /** Every URL the global pattern matches from `from` on, in order, repeats included. */
  function Matches(s: string, from: nat): seq<string>
    requires from <= |s|
    decreases |s| - from
  {
    match NextMatch(s, from)
    case None => []
    case Some((start, end)) => [s[start..end]] + Matches(s, end)
  }

  /** Each match is the raw-file host followed by at least one URL character, and only those. */
  lemma {:induction false} MatchesAreImageUrls(s: string, from: nat)
    requires from <= |s|
    ensures forall k :: 0 <= k < |Matches(s, from)| ==> RawHost <= Matches(s, from)[k] && |Matches(s, from)[k]| > |RawHost|
    ensures forall k :: 0 <= k < |Matches(s, from)| ==> forall c :: c in Matches(s, from)[k][|RawHost|..] ==> UrlChar(c)
    decreases |s| - from
  {
    match NextMatch(s, from)
    case None =>
    case Some((start, end)) =>
      MatchShape(s, start, end);
      MatchesAreImageUrls(s, end);
      MatchesStep(s, from, start, end);
      var all, rest := Matches(s, from), Matches(s, end);
      forall k | 0 <= k < |all|
        ensures RawHost <= all[k] && |all[k]| > |RawHost|
        ensures forall c :: c in all[k][|RawHost|..] ==> UrlChar(c)
      {
        if k > 0 {
          assert all[k] == rest[k - 1];
        }
      }
  }

  lemma MatchShape(s: string, start: nat, end: nat)
    requires start <= |s| && MatchAt(s, start) == Some(end)
    ensures RawHost <= s[start..end] && |s[start..end]| > |RawHost|
    ensures forall c :: c in s[start..end][|RawHost|..] ==> UrlChar(c)
  {
    var n := UrlRun(s, start + |RawHost|);
    HostThenRun(s, start, end, RawHost);
  }

  /** A host followed by a run of URL characters, cut out of the text. */
  lemma HostThenRun(s: string, start: nat, end: nat, host: string)
    requires start + |host| <= end <= |s| && host <= s[start..]
    requires forall k :: start + |host| <= k < end ==> UrlChar(s[k])
    ensures host <= s[start..end]
    ensures forall c :: c in s[start..end][|host|..] ==> UrlChar(c)
  {
    var url := s[start..end];
    assert url[..|host|] == s[start..][..|host|];
    var tail := url[|host|..];
    forall c | c in tail
      ensures UrlChar(c)
    {
      var k :| 0 <= k < |tail| && tail[k] == c;
      assert tail[k] == s[start + |host| + k];
    }
  }

  /** The list with later repeats dropped, first occurrences in order: a `Set` built by `add`. */
  function Dedup(xs: seq<string>): (d: seq<string>)
    decreases |xs|
  {
    if xs == [] then []
    else
      var d := Dedup(xs[..|xs| - 1]);
      if xs[|xs| - 1] in d then d else d + [xs[|xs| - 1]]
  }

  /** The set keeps every element once and nothing else. */
  lemma {:induction false} DedupIsSet(xs: seq<string>)
    ensures forall x :: x in Dedup(xs) <==> x in xs
    ensures forall i, j :: 0 <= i < j < |Dedup(xs)| ==> Dedup(xs)[i] != Dedup(xs)[j]
    ensures |Dedup(xs)| <= |xs|
    decreases |xs|
  {
    if xs != [] {
      var init := xs[..|xs| - 1];
      DedupIsSet(init);
      assert xs == init + [xs[|xs| - 1]];
    }
  }

  /** Adding an element to the set: kept once, at its first position. */
  lemma DedupSnoc(xs: seq<string>, x: string)
    ensures Dedup(xs + [x]) == if x in Dedup(xs) then Dedup(xs) else Dedup(xs) + [x]
  {
    assert (xs + [x])[..|xs|] == xs;
  }

  lemma DedupEmpty(xs: seq<string>)
    ensures Dedup(xs) == [] <==> xs == []
  {
    if xs != [] {
      DedupSnoc(xs[..|xs| - 1], xs[|xs| - 1]);
      assert xs[..|xs| - 1] + [xs[|xs| - 1]] == xs;
    }
  }

  /**
   * A text in which the raw-file host is followed by a URL character has at
   * least one match, so the check probes something.
   */
  lemma HostWithPathIsFound(s: string, i: nat)
    requires i + |RawHost| < |s| && RawHost <= s[i..] && UrlChar(s[i + |RawHost|])
    ensures Matches(s, 0) != []
  {
    assert MatchAt(s, i).Some?;
  }

  /** One `exec` step: the match found first, then the matches after it. */
  lemma MatchesStep(s: string, from: nat, start: nat, end: nat)
    requires from <= |s| && NextMatch(s, from) == Some((start, end))
    ensures start < end <= |s|
    ensures Matches(s, from) == [s[start..end]] + Matches(s, end)
  {
  }

  /** What the static check concludes. */
  datatype ImageCheck = NoImages | Checked(urls: seq<string>, allValid: bool)

  /**
   * `verifyImagesFromContent(text)` with `probe(url)` the answer to
   * `axios.head(url)`: the distinct image URLs in order of first appearance,
   * each probed once, and whether every probe answered 200.
   */
  method VerifyImagesFromContent(text: string, probe: string -> AV.Probe) returns (r: ImageCheck, probed: seq<string>)
    ensures Matches(text, 0) == [] <==> r == NoImages
    ensures r == NoImages ==> probed == []
    ensures r.Checked? ==> r.urls == Dedup(Matches(text, 0)) && probed == r.urls
    ensures r.Checked? ==> (r.allValid <==> forall k :: 0 <= k < |r.urls| ==> AV.IsOk(probe(r.urls[k])))
    ensures forall i, j :: 0 <= i < j < |probed| ==> probed[i] != probed[j]
    ensures forall u :: u in probed <==> u in Matches(text, 0)
  {
    var imageUrls := CollectImageUrls(text);
    DedupEmpty(Matches(text, 0));
    DedupIsSet(Matches(text, 0));
    if |imageUrls| == 0 {
      return NoImages, [];
    }
    var allValid;
    allValid, probed := ProbeAll(imageUrls, probe);
    r := Checked(imageUrls, allValid);
  }

  /** The `for … of` loop: one probe per URL, `allValid` cleared by any answer but 200. */
  method ProbeAll(urls: seq<string>, probe: string -> AV.Probe) returns (allValid: bool, probed: seq<string>)
    ensures probed == urls
    ensures allValid <==> forall k :: 0 <= k < |urls| ==> AV.IsOk(probe(urls[k]))
  {
    allValid := true;
    probed := [];
    for i := 0 to |urls|
      invariant probed == urls[..i]
      invariant allValid <==> forall k :: 0 <= k < i ==> AV.IsOk(probe(urls[k]))
    {
      var res := probe(urls[i]);
      probed := probed + [urls[i]];
      if res.Status? && res.code == 200 {
      } else {
        allValid := false;
      }
    }
    assert probed == urls[..|urls|];
  }

  /** Moving one element from the front of the remaining matches to the end of those found. */
  lemma Regroup(found: seq<string>, url: string, rest: seq<string>)
    ensures found + ([url] + rest) == (found + [url]) + rest
  {
  }

  /** `urls.add(url)` on the set of the URLs found so far. */
  method SetAdd(urls: seq<string>, ghost found: seq<string>, url: string) returns (added: seq<string>)
    requires urls == Dedup(found)
    ensures added == Dedup(found + [url])
  {
    DedupSnoc(found, url);
    added := if url in urls then urls else urls + [url];
  }

  /** The `exec` loop: each match is added to the set of URLs. */
  method CollectImageUrls(text: string) returns (urls: seq<string>)
    ensures urls == Dedup(Matches(text, 0))
  {
    urls := [];
    ghost var found: seq<string> := [];
    var lastIndex := 0;
    var m := NextMatch(text, lastIndex);
    while m.Some?
      invariant lastIndex <= |text|
      invariant m == NextMatch(text, lastIndex)
      invariant found + Matches(text, lastIndex) == Matches(text, 0)
      invariant urls == Dedup(found)
      decreases |text| - lastIndex
    {
      var (start, end) := m.value;
      var url := text[start..end];
      MatchesStep(text, lastIndex, start, end);
      Regroup(found, url, Matches(text, end));
      urls := SetAdd(urls, found, url);
      found := found + [url];
      lastIndex := end;
      m := NextMatch(text, lastIndex);
    }
    assert found + Matches(text, lastIndex) == found;
  }
}
