/**
 * The Naver Blog export (scripts/export-naver.js): the inline rewrites that
 * run before line processing (images, then bold, then links), the
 * line-anchored header, rule and bullet rewrites, the paragraph-wrapping
 * loop, the extraction of image references, and the slug of a cover file.
 *
 * The regular expressions of the script are modelled by matchers anchored at
 * one position; a global replace scans left to right, and at each position
 * either replaces a match and skips it or keeps one character, which is how a
 * regular expression with the `g` flag finds its matches.
 */
module NaverExport {
  import opened Wrappers
  import opened Text

  // ---------------------------------------------------------------------------
  // Spans

  /** The number of leading characters of `s` that differ from `stop`. */
  function SpanUntil(s: string, stop: char): (n: nat)
    ensures n <= |s|
    ensures forall i :: 0 <= i < n ==> s[i] != stop
    ensures n < |s| ==> s[n] == stop
    decreases |s|
  {
    if s == [] || s[0] == stop then 0 else 1 + SpanUntil(s[1..], stop)
  }

  /** The number of leading characters of `s` that a `.` matches. */
  function SpanLine(s: string): (n: nat)
    ensures n <= |s|
    ensures forall i :: 0 <= i < n ==> !IsLineTerminator(s[i])
    ensures n < |s| ==> IsLineTerminator(s[n])
    decreases |s|
  {
    if s == [] || IsLineTerminator(s[0]) then 0 else 1 + SpanLine(s[1..])
  }

  /** The number of leading characters of `s` that `\s` matches. */
  function SpanSpace(s: string): (n: nat)
    ensures n <= |s|
    ensures forall i :: 0 <= i < n ==> IsWhitespace(s[i])
    ensures n < |s| ==> !IsWhitespace(s[n])
    decreases |s|
  {
    if s == [] || !IsWhitespace(s[0]) then 0 else 1 + SpanSpace(s[1..])
  }

  lemma {:induction false} SpanUntilMarked(x: string, c: char, y: string)
    requires c !in x
    ensures SpanUntil(x + [c] + y, c) == |x|
    decreases |x|
  {
    if x != [] {
      assert (x + [c] + y)[1..] == x[1..] + [c] + y;
      assert x[0] in x;
      SpanUntilMarked(x[1..], c, y);
    }
  }

  lemma {:induction false} SpanLineMarked(x: string, y: string)
    requires forall i :: 0 <= i < |x| ==> !IsLineTerminator(x[i])
    requires y == [] || IsLineTerminator(y[0])
    ensures SpanLine(x + y) == |x|
    decreases |x|
  {
    if x != [] {
      assert (x + y)[1..] == x[1..] + y;
      SpanLineMarked(x[1..], y);
    } else {
      assert x + y == y;
    }
  }

  // ---------------------------------------------------------------------------
  // Inline patterns

  /** The capture groups of a match at the start of a text, and the match's length. */
  datatype Match = Match(first: string, second: string, len: nat)

  /** The three patterns of `preprocessMarkdown`. */
  datatype InlinePattern = ImagePattern | BoldPattern | LinkPattern

  /** The first character of every match of the pattern. */
  function Lead(p: InlinePattern): char {
    match p
    case ImagePattern => '!'
    case BoldPattern => '*'
    case LinkPattern => '['
  }

  /** The markdown of an image reference, `![alt](url)`. */
  function ImageMarkup(alt: string, url: string): string {
    "![" + alt + "](" + url + ")"
  }

  /** The markdown of a link, `[text](url)`. */
  function LinkMarkup(text: string, url: string): string {
    "[" + text + "](" + url + ")"
  }

  /**
   * `/!\[([^\]]*)\]\(([^)]+)\)/` at the start of `s`: an image reference
   * whose alt text has no `]` and whose non-empty URL has no `)`.
   */
  function MatchImage(s: string): (m: Option<Match>)
    ensures m.Some? ==> 0 < m.value.len <= |s|
    ensures m.Some? ==> ']' !in m.value.first && m.value.second != [] && ')' !in m.value.second
  {
    if |s| < 2 || s[0] != '!' || s[1] != '[' then None
    else
      var a := SpanUntil(s[2..], ']');
      var p := 2 + a;
      if p + 1 >= |s| || s[p + 1] != '(' then None
      else
        var u := SpanUntil(s[p + 2..], ')');
        var q := p + 2 + u;
        if u == 0 || q >= |s| then None
        else
          assert ']' !in s[2..p] by {
            assert forall i :: 0 <= i < a ==> s[2..p][i] == s[2..][i];
          }
          assert ')' !in s[p + 2..q] by {
            var t := s[p + 2..];
            assert forall i :: 0 <= i < u ==> s[p + 2..q][i] == t[i];
          }
          Some(Match(s[2..p], s[p + 2..q], q + 1))
  }

  /** Where the brackets, parentheses and groups of a matched image reference lie. */
  lemma MatchedImagePlaces(s: string)
    requires MatchImage(s).Some?
    ensures var m := MatchImage(s).value; m.len == 5 + |m.first| + |m.second| <= |s|
    ensures var m := MatchImage(s).value; s[0] == '!' && s[1] == '[' && s[2 + |m.first|] == ']' && s[3 + |m.first|] == '('
    ensures var m := MatchImage(s).value; s[4 + |m.first| + |m.second|] == ')'
    ensures var m := MatchImage(s).value; m.first == s[2..2 + |m.first|]
    ensures var m := MatchImage(s).value; m.second == s[4 + |m.first|..4 + |m.first| + |m.second|]
  {
    var a := SpanUntil(s[2..], ']');
    var p := 2 + a;
    var u := SpanUntil(s[p + 2..], ')');
    assert s[p] == s[2..][a];
    assert s[p + 2 + u] == s[p + 2..][u];
  }

  /** Text with `![`, `](` and `)` around an alt text and a URL is image markup followed by the rest. */
  lemma ImageShapeAt(s: string, alt: string, url: string, len: nat)
    requires len == 5 + |alt| + |url| <= |s|
    requires s[0] == '!' && s[1] == '[' && s[2 + |alt|] == ']' && s[3 + |alt|] == '('
    requires s[4 + |alt| + |url|] == ')'
    requires alt == s[2..2 + |alt|]
    requires url == s[4 + |alt|..4 + |alt| + |url|]
    ensures s == ImageMarkup(alt, url) + s[len..]
  {
    var p := 2 + |alt|;
    var q := p + 2 + |url|;
    assert s[..2] == "![";
    assert s[p..p + 2] == "](";
    assert s[q..q + 1] == ")";
    assert s == s[..2] + s[2..p] + s[p..p + 2] + s[p + 2..q] + s[q..q + 1] + s[q + 1..];
  }

  /** A matched image reference is exactly the markup of its two groups. */
  lemma MatchedImageShape(s: string)
    requires MatchImage(s).Some?
    ensures var m := MatchImage(s).value; s == ImageMarkup(m.first, m.second) + s[m.len..]
  {
    MatchedImagePlaces(s);
    var m := MatchImage(s).value;
    ImageShapeAt(s, m.first, m.second, m.len);
  }

  /** Every image reference is matched, with its alt text and URL as the groups. */
  lemma ImageMarkupMatches(alt: string, url: string, rest: string)
    requires ']' !in alt && url != [] && ')' !in url
    ensures MatchImage(ImageMarkup(alt, url) + rest).Some?
    ensures MatchImage(ImageMarkup(alt, url) + rest).value.first == alt
    ensures MatchImage(ImageMarkup(alt, url) + rest).value.second == url
    ensures MatchImage(ImageMarkup(alt, url) + rest).value.len == |ImageMarkup(alt, url)|
  {
    var s := ImageMarkup(alt, url) + rest;
    ImageAltSpan(alt, url, rest, s);
    MatchImageAt(s, |alt|, |url|);
  }

  /** The alt text and the URL of image markup end where the markup says. */
  lemma ImageAltSpan(alt: string, url: string, rest: string, s: string)
    requires ']' !in alt && ')' !in url
    requires s == ImageMarkup(alt, url) + rest
    ensures |s| >= 2 && s[0] == '!' && s[1] == '[' && |alt| + 4 + |url| < |s|
    ensures SpanUntil(s[2..], ']') == |alt| && s[|alt| + 3] == '('
    ensures SpanUntil(s[|alt| + 4..], ')') == |url|
    ensures s[2..2 + |alt|] == alt && s[|alt| + 4..|alt| + 4 + |url|] == url
  {
    var tail := "(" + url + ")" + rest;
    assert s[2..] == alt + [']'] + tail;
    SpanUntilMarked(alt, ']', tail);
    assert s[|alt| + 4..] == url + [')'] + rest;
    SpanUntilMarked(url, ')', rest);
  }

  /** How `MatchImage` reads a text once the spans of its two groups are known. */
  lemma MatchImageAt(s: string, a: nat, u: nat)
    requires |s| >= 2 && s[0] == '!' && s[1] == '['
    requires a == SpanUntil(s[2..], ']') && a + 3 < |s| && s[a + 3] == '('
    requires u == SpanUntil(s[a + 4..], ')') && 0 < u && a + 4 + u < |s|
    ensures MatchImage(s).Some?
    ensures MatchImage(s).value.first == s[2..2 + a]
    ensures MatchImage(s).value.second == s[a + 4..a + 4 + u]
    ensures MatchImage(s).value.len == a + 5 + u
  {
  }

  /** `\*\*([^*]+)\*\*` at the start of `s`: a non-empty run without `*` between double stars. */
  function MatchBold(s: string): (m: Option<Match>)
    ensures m.Some? ==> 0 < m.value.len <= |s|
    ensures m.Some? ==> m.value.first != [] && '*' !in m.value.first
  {
    if |s| < 2 || s[0] != '*' || s[1] != '*' then None
    else
      var c := SpanUntil(s[2..], '*');
      var p := 2 + c;
      if c == 0 || p + 1 >= |s| || s[p + 1] != '*' then None
      else
        assert forall i :: 0 <= i < c ==> s[2..p][i] == s[2..][i];
        Some(Match(s[2..p], "", p + 2))
  }

  /** A matched bold run is exactly the run between its double stars. */
  lemma MatchedBoldShape(s: string)
    requires MatchBold(s).Some?
    ensures var m := MatchBold(s).value; s == "**" + m.first + "**" + s[m.len..]
  {
    var c := SpanUntil(s[2..], '*');
    var p := 2 + c;
    assert s[p] == s[2..][c];
    assert s[..2] == "**";
    assert s[p..p + 2] == "**";
    assert s == s[..2] + s[2..p] + s[p..p + 2] + s[p + 2..];
  }

  /** The length of the `https?://` scheme at the start of `s`, or 0. */
  function SchemeLength(s: string): (k: nat)
    ensures k == 0 || k == 7 || k == 8
    ensures k == 8 <==> "https://" <= s
    ensures k == 7 <==> "http://" <= s
  {
    if "https://" <= s then
      assert s[4] == 's';
      8
    else if "http://" <= s then 7
    else 0
  }

  /** Prefixes that cover the scheme have the same scheme. */
  lemma SchemeOfPrefix(r: string, n: nat)
    requires SchemeLength(r) <= n <= |r|
    ensures SchemeLength(r[..n]) == SchemeLength(r)
  {
    var k := SchemeLength(r);
    assert r[..n][..k] == r[..k];
  }

  /** `https?:\/\/[^)]+` followed by `)` at the start of `r`: the length of the URL, or 0. */
  function UrlLength(r: string): (n: nat)
    ensures n > 0 ==> 0 < SchemeLength(r) < n < |r| && r[n] == ')'
    ensures n > 0 ==> ')' !in r[..n]
  {
    var k := SchemeLength(r);
    if k == 0 then 0
    else
      var u := SpanUntil(r[k..], ')');
      if u == 0 || k + u >= |r| then 0
      else
        assert r[k + u] == r[k..][u];
        assert forall i :: 0 <= i < k ==> r[i] != ')' by {
          if k == 8 {
            assert r[..8] == "https://";
          } else {
            assert r[..7] == "http://";
          }
        }
        assert forall i :: k <= i < k + u ==> r[i] == r[k..][i - k];
        assert forall i :: 0 <= i < k + u ==> r[..k + u][i] == r[i];
        k + u
  }

  /**
   * `/\[([^\]]+)\]\((https?:\/\/[^)]+)\)/` at the start of `s`: a link with a
   * non-empty text and an absolute `http` or `https` URL.
   */
  function MatchLink(s: string): (m: Option<Match>)
    ensures m.Some? ==> 0 < m.value.len <= |s|
    ensures m.Some? ==> m.value.first != [] && ']' !in m.value.first && ')' !in m.value.second
  {
    if s == [] || s[0] != '[' then None
    else
      var a := SpanUntil(s[1..], ']');
      if a == 0 || a + 2 >= |s| || s[a + 2] != '(' then None
      else
        var n := UrlLength(s[a + 3..]);
        if n == 0 then None
        else Some(Match(s[1..a + 1], s[a + 3..][..n], a + 4 + n))
  }

  /** The URL of a matched link starts with its scheme and goes on past it. */
  lemma MatchedLinkScheme(s: string)
    requires MatchLink(s).Some?
    ensures 0 < SchemeLength(MatchLink(s).value.second) < |MatchLink(s).value.second|
  {
    var r := s[SpanUntil(s[1..], ']') + 3..];
    MatchedLinkUrl(s);
    SchemeOfPrefix(r, UrlLength(r));
  }

  /** The URL group of a matched link is the URL the scheme rule measured. */
  lemma MatchedLinkUrl(s: string)
    requires MatchLink(s).Some?
    ensures var r := s[SpanUntil(s[1..], ']') + 3..];
      UrlLength(r) > 0 && MatchLink(s).value.second == r[..UrlLength(r)]
  {
  }

  /** Text with `[`, `](` and `)` around a text and a URL is link markup followed by the rest. */
  lemma LinkShapeAt(s: string, text: string, url: string, len: nat)
    requires len == 4 + |text| + |url| <= |s|
    requires s[0] == '[' && s[1 + |text|] == ']' && s[2 + |text|] == '('
    requires s[3 + |text| + |url|] == ')'
    requires text == s[1..1 + |text|]
    requires url == s[3 + |text|..3 + |text| + |url|]
    ensures s == LinkMarkup(text, url) + s[len..]
  {
    var p := 1 + |text|;
    var n := |url|;
    assert s[..1] == "[";
    assert s[p..p + 2] == "](";
    assert s[p + 2 + n..p + 3 + n] == ")";
    assert s == s[..1] + s[1..p] + s[p..p + 2] + s[p + 2..p + 2 + n] + s[p + 2 + n..p + 3 + n] + s[p + 3 + n..];
  }

  /** Where the brackets, parentheses and groups of a matched link lie. */
  lemma MatchedLinkPlaces(s: string)
    requires MatchLink(s).Some?
    ensures var m := MatchLink(s).value; m.len == 4 + |m.first| + |m.second| <= |s|
    ensures var m := MatchLink(s).value; s[0] == '[' && s[1 + |m.first|] == ']' && s[2 + |m.first|] == '('
    ensures var m := MatchLink(s).value; s[3 + |m.first| + |m.second|] == ')'
    ensures var m := MatchLink(s).value; m.first == s[1..1 + |m.first|]
    ensures var m := MatchLink(s).value; m.second == s[3 + |m.first|..3 + |m.first| + |m.second|]
  {
    MatchLinkParts(s);
    var a := SpanUntil(s[1..], ']');
    LinkPlacesAt(s, a, UrlLength(s[a + 3..]));
  }

  /** The groups and length of a matched link, in terms of the spans the pattern measures. */
  lemma MatchLinkParts(s: string)
    requires MatchLink(s).Some?
    ensures var a := SpanUntil(s[1..], ']'); 0 < a && a + 2 < |s| && s[0] == '[' && s[a + 2] == '('
    ensures var a := SpanUntil(s[1..], ']'); var n := UrlLength(s[a + 3..]);
      n > 0 && MatchLink(s).value.first == s[1..a + 1] && MatchLink(s).value.second == s[a + 3..][..n]
      && MatchLink(s).value.len == a + 4 + n
  {
  }

  /** Positions inside a link whose text spans `a` characters and whose URL spans `n`. */
  lemma LinkPlacesAt(s: string, a: nat, n: nat)
    requires 0 < a && a + 2 < |s| && s[0] == '[' && s[a + 2] == '('
    requires a == SpanUntil(s[1..], ']') && n == UrlLength(s[a + 3..]) && n > 0
    ensures a + 4 + n <= |s| && s[1 + a] == ']' && s[3 + a + n] == ')'
    ensures |s[1..a + 1]| == a && |s[a + 3..][..n]| == n
    ensures s[a + 3..][..n] == s[a + 3..a + 3 + n]
  {
    assert s[1 + a] == s[1..][a];
    assert s[3 + a + n] == s[a + 3..][n];
  }

  /** A matched link is exactly the markup of its two groups. */
  lemma MatchedLinkShape(s: string)
    requires MatchLink(s).Some?
    ensures var m := MatchLink(s).value; s == LinkMarkup(m.first, m.second) + s[m.len..]
  {
    MatchedLinkPlaces(s);
    var m := MatchLink(s).value;
    LinkShapeAt(s, m.first, m.second, m.len);
  }

  /** A URL with its scheme and no `)`, followed by `)`, has its own length as the URL length. */
  lemma UrlLengthOfLink(url: string, rest: string)
    requires ')' !in url && 0 < SchemeLength(url) < |url|
    ensures UrlLength(url + ")" + rest) == |url|
  {
    var r := url + ")" + rest;
    var k := SchemeLength(url);
    assert SchemeLength(r) == k by {
      assert r[..k] == url[..k];
    }
    assert r[k..] == url[k..] + [')'] + rest;
    assert ')' !in url[k..] by {
      assert forall c :: c in url[k..] ==> c in url;
    }
    SpanUntilMarked(url[k..], ')', rest);
  }

  /** Where a bracketed text is followed by `(` and a URL, the link matches there. */
  lemma MatchLinkAt(s: string, p: nat)
    requires 1 < p && p + 1 < |s| && s[0] == '[' && s[p] == ']' && s[p + 1] == '('
    requires ']' !in s[1..p] && UrlLength(s[p + 2..]) > 0
    ensures MatchLink(s).Some? && MatchLink(s).value.len == p + 3 + UrlLength(s[p + 2..])
    ensures MatchLink(s).value.first == s[1..p]
    ensures MatchLink(s).value.second == s[p + 2..][..UrlLength(s[p + 2..])]
  {
    assert s[1..] == s[1..p] + [']'] + s[p + 1..];
    SpanUntilMarked(s[1..p], ']', s[p + 1..]);
  }

  /** The same, with the text and the URL given by their lengths and contents. */
  lemma LinkMatchOf(s: string, text: string, url: string)
    requires text != [] && ']' !in text && |text| + |url| + 4 <= |s|
    requires s[0] == '[' && s[1..1 + |text|] == text && s[1 + |text|] == ']' && s[2 + |text|] == '('
    requires UrlLength(s[3 + |text|..]) == |url| > 0 && s[3 + |text|..3 + |text| + |url|] == url
    ensures MatchLink(s).Some? && MatchLink(s).value.len == |text| + |url| + 4
    ensures MatchLink(s).value.first == text
    ensures MatchLink(s).value.second == url
  {
    MatchLinkAt(s, 1 + |text|);
    assert s[3 + |text|..][..|url|] == url;
  }

  /** Every link with a non-empty text and an absolute URL is matched. */
  lemma LinkMarkupMatches(text: string, url: string, rest: string)
    requires text != [] && ']' !in text && ')' !in url
    requires 0 < SchemeLength(url) < |url|
    ensures MatchLink(LinkMarkup(text, url) + rest).Some?
    ensures MatchLink(LinkMarkup(text, url) + rest).value == Match(text, url, |LinkMarkup(text, url)|)
  {
    var s := LinkMarkup(text, url) + rest;
    var p := 1 + |text|;
    assert s[0] == '[' && s[p] == ']' && s[p + 1] == '(';
    assert s[1..p] == text;
    assert s[p + 2..] == url + ")" + rest;
    UrlLengthOfLink(url, rest);
    assert s[p + 2..p + 2 + |url|] == url;
    LinkMatchOf(s, text, url);
  }

  /** The image placeholder's opening, styles and label, and its closing. */
  const PlaceholderOpen: string := "\n\n<div style=\""
  const PlaceholderBackground: string := "background:#f8f9fa;"
  const PlaceholderBorder: string := "border:2px dashed #03c75a;"
  const PlaceholderFrame: string := "border-radius:8px;padding:20px;"
  const PlaceholderMargin: string := "margin:20px 0;"
  const PlaceholderText: string := "text-align:center;color:#666;"
  const PlaceholderLabel: string := "\">\U{1F4F7} 이미지: "
  const PlaceholderClose: string := "</div>\n\n"

  /** The styled box that replaces an image reference, naming its alt text. */
  function ImagePlaceholder(alt: string): string {
    PlaceholderOpen + PlaceholderBackground + PlaceholderBorder + PlaceholderFrame + PlaceholderMargin + PlaceholderText + PlaceholderLabel + alt + PlaceholderClose
  }

  const LinkStyle: string := "color:#03c75a;" + "text-decoration:underline;"

  /** The anchor that replaces a link. */
  function Anchor(text: string, url: string): string {
    "<a href=\"" + url + "\" style=\"" + LinkStyle + "\">" + text + "</a>"
  }

  function MatchInline(p: InlinePattern, s: string): (m: Option<Match>)
    ensures m.Some? ==> 0 < m.value.len <= |s| && s[0] == Lead(p)
  {
    match p
    case ImagePattern => MatchImage(s)
    case BoldPattern => MatchBold(s)
    case LinkPattern => MatchLink(s)
  }

  /** The replacement text of each pattern, with its groups filled in. */
  function RenderInline(p: InlinePattern, m: Match): string {
    match p
    case ImagePattern => ImagePlaceholder(m.first)
    case BoldPattern => "<b>" + m.first + "</b>"
    case LinkPattern => Anchor(m.first, m.second)
  }

  /** `s.replace(pattern, replacement)` with the `g` flag. */
  function Replace(s: string, p: InlinePattern): string
    decreases |s|
  {
    if s == [] then []
    else
      match MatchInline(p, s)
      case Some(m) => RenderInline(p, m) + Replace(s[m.len..], p)
      case None => [s[0]] + Replace(s[1..], p)
  }

  /** `preprocessMarkdown(md)`: image references first, then bold, then links. */
  function Preprocess(md: string): string {
    Replace(Replace(Replace(md, ImagePattern), BoldPattern), LinkPattern)
  }

  /** Where the pattern's first character is missing, the replace copies one character and moves on. */
  lemma ReplaceStep(s: string, p: InlinePattern)
    requires s != [] && s[0] != Lead(p)
    ensures Replace(s, p) == [s[0]] + Replace(s[1..], p)
  {
    assert MatchInline(p, s).None?;
  }

  /** Where the pattern matches, the replace emits its rendering and resumes after the match. */
  lemma ReplaceMatched(s: string, p: InlinePattern)
    requires MatchInline(p, s).Some?
    ensures var m := MatchInline(p, s).value; Replace(s, p) == RenderInline(p, m) + Replace(s[m.len..], p)
  {
  }

  /** Text without the pattern's first character passes a replace unchanged. */
  lemma {:induction false} ReplaceSkips(a: string, b: string, p: InlinePattern)
    requires Lead(p) !in a
    ensures Replace(a + b, p) == a + Replace(b, p)
    decreases |a|
  {
    if a == [] {
      assert a + b == b;
    } else {
      HeadAppend(a, b, Replace(b, p));
      assert a[0] in a;
      ReplaceStep(a + b, p);
      assert forall c :: c in a[1..] ==> c in a;
      ReplaceSkips(a[1..], b, p);
    }
  }

  lemma ReplaceFree(a: string, p: InlinePattern)
    requires Lead(p) !in a
    ensures Replace(a, p) == a
  {
    ReplaceSkips(a, "", p);
    assert a + "" == a;
  }

  // No piece of the image placeholder holds a star or an opening bracket.
  lemma PlaceholderOpenPlain() ensures '*' !in PlaceholderOpen && '[' !in PlaceholderOpen { }
  lemma PlaceholderBackgroundPlain() ensures '*' !in PlaceholderBackground && '[' !in PlaceholderBackground { }
  lemma PlaceholderBorderPlain() ensures '*' !in PlaceholderBorder && '[' !in PlaceholderBorder { }
  lemma PlaceholderFramePlain() ensures '*' !in PlaceholderFrame && '[' !in PlaceholderFrame { }
  lemma PlaceholderMarginPlain() ensures '*' !in PlaceholderMargin && '[' !in PlaceholderMargin { }
  lemma PlaceholderTextPlain() ensures '*' !in PlaceholderText && '[' !in PlaceholderText { }
  lemma PlaceholderLabelPlain() ensures '*' !in PlaceholderLabel && '[' !in PlaceholderLabel { }
  lemma PlaceholderClosePlain() ensures '*' !in PlaceholderClose && '[' !in PlaceholderClose { }

  lemma PlaceholderPlain(alt: string)
    requires '*' !in alt && '[' !in alt
    ensures '*' !in ImagePlaceholder(alt) && '[' !in ImagePlaceholder(alt)
  {
    PlaceholderOpenPlain();
    PlaceholderBackgroundPlain();
    PlaceholderBorderPlain();
    PlaceholderFramePlain();
    PlaceholderMarginPlain();
    PlaceholderTextPlain();
    PlaceholderLabelPlain();
    PlaceholderClosePlain();
  }

  // ---------------------------------------------------------------------------
  // Drafts as text and image references

  /** A draft seen as plain runs of text and image references. */
  datatype Segment = Plain(text: string) | Picture(alt: string, url: string)

  /** Plain runs hold no `!`; image references are well formed. */
  predicate WellFormed(seg: Segment) {
    match seg
    case Plain(t) => '!' !in t
    case Picture(alt, url) => ']' !in alt && url != [] && ')' !in url
  }

  /** Beyond that, no plain run and no alt text holds a star or an opening bracket. */
  predicate FreeOfBoldAndLinks(seg: Segment) {
    match seg
    case Plain(t) => '*' !in t && '[' !in t
    case Picture(alt, _) => '*' !in alt && '[' !in alt
  }

  function SegmentMarkdown(seg: Segment): string {
    match seg
    case Plain(t) => t
    case Picture(alt, url) => ImageMarkup(alt, url)
  }

  function Markdown(segs: seq<Segment>): string
    decreases |segs|
  {
    if segs == [] then "" else SegmentMarkdown(segs[0]) + Markdown(segs[1..])
  }

  /** The draft with every image reference turned into its placeholder. */
  function WithPlaceholders(segs: seq<Segment>): string
    decreases |segs|
  {
    if segs == [] then ""
    else
      (match segs[0]
       case Plain(t) => t
       case Picture(alt, _) => ImagePlaceholder(alt)) + WithPlaceholders(segs[1..])
  }

  /** The image reference of every picture, in order. */
  datatype ImageRef = ImageRef(alt: string, path: string)

  function Pictures(segs: seq<Segment>): seq<ImageRef>
    decreases |segs|
  {
    if segs == [] then []
    else
      (match segs[0]
       case Plain(_) => []
       case Picture(alt, url) => [ImageRef(alt, url)]) + Pictures(segs[1..])
  }

  /** The image pass turns each image reference into its placeholder and leaves the text around it. */
  lemma {:induction false} ImagePassPlaces(segs: seq<Segment>)
    requires forall i :: 0 <= i < |segs| ==> WellFormed(segs[i])
    ensures Replace(Markdown(segs), ImagePattern) == WithPlaceholders(segs)
    decreases |segs|
  {
    if segs != [] {
      assert forall i :: 0 <= i < |segs[1..]| ==> segs[1..][i] == segs[i + 1];
      ImagePassPlaces(segs[1..]);
      var rest := Markdown(segs[1..]);
      assert WellFormed(segs[0]);
      match segs[0]
      case Plain(t) =>
        ReplaceSkips(t, rest, ImagePattern);
      case Picture(alt, url) =>
        ImageMarkupMatches(alt, url, rest);
        assert (ImageMarkup(alt, url) + rest)[|ImageMarkup(alt, url)|..] == rest;
    }
  }

  lemma {:induction false} PlaceholdersPlain(segs: seq<Segment>)
    requires forall i :: 0 <= i < |segs| ==> FreeOfBoldAndLinks(segs[i])
    ensures '*' !in WithPlaceholders(segs) && '[' !in WithPlaceholders(segs)
    decreases |segs|
  {
    if segs != [] {
      assert forall i :: 0 <= i < |segs[1..]| ==> segs[1..][i] == segs[i + 1];
      PlaceholdersPlain(segs[1..]);
      assert FreeOfBoldAndLinks(segs[0]);
      if segs[0].Picture? {
        PlaceholderPlain(segs[0].alt);
      }
    }
  }

  /** The placeholder text holds no `**` run and no link opening. */
  lemma PlaceholdersFree(segs: seq<Segment>)
    requires forall i :: 0 <= i < |segs| ==> FreeOfBoldAndLinks(segs[i])
    ensures !Contains(WithPlaceholders(segs), "*") && !Contains(WithPlaceholders(segs), "[")
  {
    PlaceholdersPlain(segs);
    MissingLeadNotContained(WithPlaceholders(segs), "*");
    MissingLeadNotContained(WithPlaceholders(segs), "[");
  }

  /**
   * Because images are replaced before links, an image reference never
   * becomes an anchor: when the image pass leaves no stars and no opening
   * brackets (as `PlaceholdersFree` shows for a draft without bold or link
   * syntax, whose image pass `ImagePassPlaces` describes), the bold and link
   * passes change nothing and preprocessing is the image pass alone.
   */
  lemma PreprocessAfterImages(md: string, w: string)
    requires Replace(md, ImagePattern) == w && !Contains(w, "*") && !Contains(w, "[")
    ensures Preprocess(md) == w
  {
    CharContained(w, '*');
    CharContained(w, '[');
    ReplaceFree(w, BoldPattern);
    ReplaceFree(w, LinkPattern);
  }

  /** Run the other way round, the link pass would turn an image with an absolute URL into an anchor. */
  lemma LinksFirstWouldAnchorImages(alt: string, url: string)
    requires alt != [] && ']' !in alt && ')' !in url
    requires 0 < SchemeLength(url) < |url|
    ensures Replace(ImageMarkup(alt, url), LinkPattern) == "!" + Anchor(alt, url)
  {
    var s := ImageMarkup(alt, url);
    var t := LinkMarkup(alt, url);
    assert t + "" == t;
    calc {
      Replace(s, LinkPattern);
    == { assert s[0] == '!'; ReplaceStep(s, LinkPattern); }
      [s[0]] + Replace(s[1..], LinkPattern);
    == { assert s[1..] == t; }
      "!" + Replace(t, LinkPattern);
    == { LinkMarkupMatches(alt, url, ""); ReplaceMatched(t, LinkPattern); assert t[|t|..] == ""; }
      "!" + (Anchor(alt, url) + Replace("", LinkPattern));
    }
  }

  // ---------------------------------------------------------------------------
  // extractImages

  /** The image references of `s`, in order: what repeated `imageRegex.exec` finds. */
  function Images(s: string): seq<ImageRef>
    decreases |s|
  {
    if s == [] then []
    else
      match MatchImage(s)
      case Some(m) => [ImageRef(m.first, m.second)] + Images(s[m.len..])
      case None => Images(s[1..])
  }

  /**
   * `extractImages(markdown)`: each `exec` resumes where the previous match
   * ended; `rest` is the text from the regular expression's `lastIndex` on.
   */
  method ExtractImages(markdown: string) returns (images: seq<ImageRef>)
    ensures images == Images(markdown)
  {
    images := [];
    var rest := markdown;
    while rest != []
      invariant images + Images(rest) == Images(markdown)
      decreases |rest|
    {
      var found := MatchImage(rest);
      ImagesStep(rest);
      if found.Some? {
        var image := ImageRef(found.value.first, found.value.second);
        AppendAssoc(images, [image], Images(rest[found.value.len..]));
        images := images + [image];
        rest := rest[found.value.len..];
      } else {
        rest := rest[1..];
      }
    }
    assert images + [] == images;
  }

  /** One step of the extraction: a match yields its reference and resumes after it, otherwise one character is skipped. */
  lemma ImagesStep(s: string)
    requires s != []
    ensures MatchImage(s).Some? ==> Images(s) == [ImageRef(MatchImage(s).value.first, MatchImage(s).value.second)] + Images(s[MatchImage(s).value.len..])
    ensures MatchImage(s).None? ==> Images(s) == Images(s[1..])
  {
  }

  lemma AppendAssoc(a: seq<ImageRef>, b: seq<ImageRef>, c: seq<ImageRef>)
    ensures a + b + c == a + (b + c)
  {
  }

  lemma {:induction false} ImagesSkip(a: string, b: string)
    requires '!' !in a
    ensures Images(a + b) == Images(b)
    decreases |a|
  {
    if a == [] {
      assert a + b == b;
    } else {
      assert (a + b)[0] == a[0];
      assert a[0] in a;
      assert (a + b)[1..] == a[1..] + b;
      assert forall c :: c in a[1..] ==> c in a;
      ImagesSkip(a[1..], b);
    }
  }

  /** Extraction finds one reference per image in the draft, in order of appearance. */
  lemma {:induction false} ImagesOfDraft(segs: seq<Segment>)
    requires forall i :: 0 <= i < |segs| ==> WellFormed(segs[i])
    ensures Images(Markdown(segs)) == Pictures(segs)
    decreases |segs|
  {
    if segs != [] {
      assert forall i :: 0 <= i < |segs[1..]| ==> segs[1..][i] == segs[i + 1];
      ImagesOfDraft(segs[1..]);
      var rest := Markdown(segs[1..]);
      assert WellFormed(segs[0]);
      match segs[0]
      case Plain(t) =>
        ImagesSkip(t, rest);
      case Picture(alt, url) =>
        ImageMarkupMatches(alt, url, rest);
        assert (ImageMarkup(alt, url) + rest)[|ImageMarkup(alt, url)|..] == rest;
    }
  }

  // ---------------------------------------------------------------------------
  // Line rules (the `gm` replaces of `toNaverHtml`)

  /** The five line-anchored rewrites, in the order they run. */
  datatype LineRule = H3Rule | H2Rule | H1Rule | HrRule | BulletRule

  function Marker(rule: LineRule): string
    requires rule.H3Rule? || rule.H2Rule? || rule.H1Rule?
  {
    match rule
    case H3Rule => "### "
    case H2Rule => "## "
    case H1Rule => "# "
  }

  const H3Open: string := "<h3 style=\"" + "font-size:18px;font-weight:bold;color:#333;" + "margin:25px 0 10px;" + "\">"
  const H2Open: string := "<h2 style=\"" + "font-size:22px;font-weight:bold;color:#222;" + "margin:30px 0 15px;padding-bottom:10px;"
                          + "border-bottom:2px solid #03c75a;" + "\">"
  const HrHtml: string := "<hr style=\"" + "margin:30px 0;border:none;" + "border-top:1px solid #e0e0e0;" + "\">"
  const BulletOpen: string := "<p style=\"" + "margin:8px 0;padding-left:20px;" + "\">"

  /** `^<marker>(.+)$` at a line start: the marker and the rest of a non-empty line. */
  function MatchHeading(marker: string, s: string): (m: Option<Match>)
    requires marker != []
    ensures m.Some? ==> 0 < m.value.len <= |s|
  {
    if marker <= s then
      var n := SpanLine(s[|marker|..]);
      if n == 0 then None else Some(Match(s[|marker|..|marker| + n], "", |marker| + n))
    else None
  }

  /**
   * The largest `k` with `1 <= k <= top` whose character is not a line
   * terminator, or 0: where `\s+(.+)$` ends up when its white space runs
   * to the end of the text and has to give characters back.
   */
  function BacktrackPoint(w: string, top: nat): (k: nat)
    requires top < |w|
    ensures k <= top
    ensures k > 0 ==> !IsLineTerminator(w[k])
    ensures forall i :: k < i <= top && i > 0 ==> IsLineTerminator(w[i])
    decreases top
  {
    if top == 0 then 0
    else if !IsLineTerminator(w[top]) then top
    else BacktrackPoint(w, top - 1)
  }

  /**
   * `^(\*|-)\s+(.+)$` at a line start. `\s` also matches line breaks, so the
   * white space may run over several lines; the second group then takes the
   * rest of the line where it stops.
   */
  function MatchBullet(s: string): (m: Option<Match>)
    ensures m.Some? ==> 0 < m.value.len <= |s|
    ensures m.Some? ==> (s[0] == '*' || s[0] == '-') && m.value.first != []
  {
    if s == [] || (s[0] != '*' && s[0] != '-') then None
    else
      var w := SpanSpace(s[1..]);
      if w == 0 then None
      else if 1 + w < |s| then
        var n := SpanLine(s[1 + w..]);
        assert n > 0 by {
          assert s[1 + w..][0] == s[1..][w];
        }
        Some(Match(s[1 + w..1 + w + n], "", 1 + w + n))
      else
        var k := BacktrackPoint(s[1..], w - 1);
        if k == 0 then None
        else
          var n := SpanLine(s[1 + k..]);
          assert n > 0 by {
            assert s[1 + k..][0] == s[1..][k];
          }
          Some(Match(s[1 + k..1 + k + n], "", 1 + k + n))
  }

  function MatchLineRule(rule: LineRule, s: string): (m: Option<Match>)
    ensures m.Some? ==> 0 < m.value.len <= |s|
  {
    match rule
    case H3Rule => MatchHeading("### ", s)
    case H2Rule => MatchHeading("## ", s)
    case H1Rule => MatchHeading("# ", s)
    case HrRule => if "---" <= s && (|s| == 3 || IsLineTerminator(s[3])) then Some(Match("", "", 3)) else None
    case BulletRule => MatchBullet(s)
  }

  /** The replacement of each line rule; an `h1` line is dropped. */
  function LineHtml(rule: LineRule, text: string): string {
    match rule
    case H3Rule => H3Open + text + "</h3>"
    case H2Rule => H2Open + text + "</h2>"
    case H1Rule => ""
    case HrRule => HrHtml
    case BulletRule => BulletOpen + "\U{2022} " + text + "</p>"
  }

  /** One `gm` replace: a match is tried only where a line starts. */
  function ScanLines(s: string, rule: LineRule, atLineStart: bool): string
    decreases |s|
  {
    if s == [] then []
    else
      match (if atLineStart then MatchLineRule(rule, s) else None)
      case Some(m) => LineHtml(rule, m.first) + ScanLines(s[m.len..], rule, false)
      case None => [s[0]] + ScanLines(s[1..], rule, IsLineTerminator(s[0]))
  }

  /** The header, rule and bullet rewrites of `toNaverHtml`, in source order. */
  function LineRules(html: string): string {
    var h3 := ScanLines(html, H3Rule, true);
    var h2 := ScanLines(h3, H2Rule, true);
    var h1 := ScanLines(h2, H1Rule, true);
    var hr := ScanLines(h1, HrRule, true);
    ScanLines(hr, BulletRule, true)
  }

  lemma HeadingMatches(marker: string, title: string, rest: string)
    requires marker != [] && title != [] && forall i :: 0 <= i < |title| ==> !IsLineTerminator(title[i])
    requires rest == [] || IsLineTerminator(rest[0])
    ensures MatchHeading(marker, marker + title + rest) == Some(Match(title, "", |marker| + |title|))
  {
    var s := marker + title + rest;
    assert s[|marker|..] == title + rest;
    SpanLineMarked(title, rest);
    assert s[|marker|..|marker| + |title|] == title;
  }

  /**
   * A whole `#`, `##` or `###` line with a non-empty title becomes the
   * styled heading (nothing, for `#`); the line break after it stays.
   */
  lemma HeadingLine(rule: LineRule, title: string, rest: string)
    requires rule.H3Rule? || rule.H2Rule? || rule.H1Rule?
    requires title != [] && forall i :: 0 <= i < |title| ==> !IsLineTerminator(title[i])
    requires rest == [] || IsLineTerminator(rest[0])
    ensures ScanLines(Marker(rule) + title + rest, rule, true) == LineHtml(rule, title) + ScanLines(rest, rule, false)
    ensures rule.H1Rule? ==> ScanLines(Marker(rule) + title + rest, rule, true) == ScanLines(rest, rule, false)
  {
    var marker := Marker(rule);
    var s := marker + title + rest;
    HeadingMatches(marker, title, rest);
    assert MatchLineRule(rule, s) == Some(Match(title, "", |marker| + |title|));
    assert s[|marker| + |title|..] == rest;
    assert s != [];
  }

  /** A line that is exactly `---` becomes the styled rule. */
  lemma RuleLine(rest: string)
    requires rest == [] || IsLineTerminator(rest[0])
    ensures ScanLines("---" + rest, HrRule, true) == HrHtml + ScanLines(rest, HrRule, false)
  {
    assert ("---" + rest)[3..] == rest;
  }

  // ---------------------------------------------------------------------------
  // Paragraph wrapping

  const CaptionOpen: string := "<p style=\"" + "color:#666;font-size:14px;" + "font-style:italic;margin:5px 0;" + "\">"
  const ParagraphOpen: string := "<p style=\"" + "margin:15px 0;line-height:1.8;" + "\">"

  lemma OpeningTagsStart()
    ensures |CaptionOpen| > 0 && CaptionOpen[0] == '<'
    ensures |ParagraphOpen| > 0 && ParagraphOpen[0] == '<'
  {
  }

  lemma OpeningTagsOnOneLine()
    ensures '\n' !in CaptionOpen && '\n' !in ParagraphOpen
  {
    assert '\n' !in "<p style=\"" && '\n' !in "\">";
    assert '\n' !in "color:#666;font-size:14px;";
    assert '\n' !in "font-style:italic;margin:5px 0;";
    assert '\n' !in "margin:15px 0;line-height:1.8;";
  }

  lemma TrimKeeps(s: string)
    requires s != [] && !IsWhitespace(s[0]) && !IsWhitespace(s[|s| - 1])
    ensures Trim(s) == s
  {
  }

  lemma TrimIdempotent(s: string)
    ensures Trim(Trim(s)) == Trim(s)
  {
    var t := Trim(s);
    if t != [] {
      assert t[0] == TrimStart(s)[0];
      TrimKeeps(t);
    }
  }

  /** A paragraph element: its opening tag, the text and `</p>`. */
  function Paragraph(open: string, t: string): string {
    open + t + "</p>"
  }

  /** A character outside the opening tag and the text, and not in `</p>`, is outside the paragraph. */
  lemma ParagraphFree(open: string, t: string, c: char)
    requires c !in open && c !in t && c !in "</p>"
    ensures c !in Paragraph(open, t)
  {
  }

  /** An element opened by a tag and closed by `</p>` has nothing to trim. */
  lemma ElementTrimmed(open: string, t: string)
    requires open != [] && open[0] == '<'
    ensures Trim(Paragraph(open, t)) == Paragraph(open, t)
  {
    var r := open + t + "</p>";
    assert r[0] == '<' && r[|r| - 1] == '>';
    TrimKeeps(r);
  }

  /**
   * One step of the `toNaverHtml` loop: a line blank after trimming becomes
   * empty, a trimmed line starting with `<` or `•` passes through, one
   * starting with `*(` becomes a caption and any other a paragraph.
   */
  function WrapLine(line: string): (r: string)
  {
    var t := Trim(line);
    if t == [] then ""
    else if t[0] == '<' || t[0] == '\U{2022}' then t
    else if "*(" <= t then Paragraph(CaptionOpen, t)
    else Paragraph(ParagraphOpen, t)
  }

  /** A wrapped line is empty exactly when the line is blank; otherwise it starts an HTML element or a bullet. */
  lemma WrapLineStart(line: string)
    ensures WrapLine(line) == [] <==> Trim(line) == []
    ensures WrapLine(line) != [] ==> WrapLine(line)[0] == '<' || WrapLine(line)[0] == '\U{2022}'
  {
    var t := Trim(line);
    OpeningTagsStart();
    if t != [] && t[0] != '<' && t[0] != '\U{2022}' {
      if "*(" <= t {
        assert WrapLine(line) == Paragraph(CaptionOpen, t);
      } else {
        assert WrapLine(line) == Paragraph(ParagraphOpen, t);
      }
    }
  }

  /** The wrapped line holds the trimmed line. */
  lemma WrapLineKeepsText(line: string)
    ensures Contains(WrapLine(line), Trim(line))
  {
    var t := Trim(line);
    if t == [] {
      assert Contains([], []);
    } else if t[0] == '<' || t[0] == '\U{2022}' {
      ContainsAt(t, t, 0);
    } else if "*(" <= t {
      ContainsMiddle(CaptionOpen, t, "</p>");
    } else {
      ContainsMiddle(ParagraphOpen, t, "</p>");
    }
  }

  /** A wrapped line has nothing left to trim. */
  lemma WrapLineTrimmed(line: string)
    ensures Trim(WrapLine(line)) == WrapLine(line)
  {
    var t := Trim(line);
    TrimIdempotent(line);
    OpeningTagsStart();
    if t != [] && t[0] != '<' && t[0] != '\U{2022}' {
      if "*(" <= t {
        ElementTrimmed(CaptionOpen, t);
      } else {
        ElementTrimmed(ParagraphOpen, t);
      }
    }
  }

  /** Wrapping never introduces a line break: a single line stays a single line. */
  lemma WrapLineSingle(line: string)
    requires !Contains(line, "\n")
    ensures !Contains(WrapLine(line), "\n")
  {
    var t := Trim(line);
    CharContained(line, '\n');
    TrimInside(line, '\n');
    if t != [] && t[0] != '<' && t[0] != '\U{2022}' {
      OpeningTagsOnOneLine();
      if "*(" <= t {
        ParagraphFree(CaptionOpen, t, '\n');
      } else {
        ParagraphFree(ParagraphOpen, t, '\n');
      }
    }
    assert '\n' !in WrapLine(line);
    MissingLeadNotContained(WrapLine(line), "\n");
  }

  /** Wrapping a wrapped line changes nothing. */
  lemma WrapLineIdempotent(line: string)
    ensures WrapLine(WrapLine(line)) == WrapLine(line)
  {
    WrapLineStart(line);
    WrapLineTrimmed(line);
  }

  /** The lines the wrapping loop walks over: the text after all rewrites, split at `\n`. */
  function NaverLines(markdown: string): (lines: seq<string>)
    ensures |lines| >= 1
    ensures forall i :: 0 <= i < |lines| ==> !Contains(lines[i], "\n")
  {
    var text := LineRules(Preprocess(markdown));
    SplitPartsExcludeSeparator(text, "\n");
    SplitOn(text, "\n")
  }

  /** `lines.join('\n')`, for lines without a line break: splitting gives the lines back. */
  function JoinLines(lines: seq<string>): (s: string)
    requires |lines| >= 1 && forall i :: 0 <= i < |lines| ==> !Contains(lines[i], "\n")
    ensures SplitOn(s, "\n") == lines
  {
    assert forall i :: 0 <= i < |lines| ==> '\n' !in lines[i] by {
      forall i | 0 <= i < |lines|
        ensures '\n' !in lines[i]
      {
        CharContained(lines[i], '\n');
      }
    }
    SplitJoinChar(lines, '\n');
    Join(lines, "\n")
  }

  /**
   * `toNaverHtml(markdown)`: the output has exactly one line per line of the
   * rewritten text, each the wrapping of that line.
   */
  method ToNaverHtml(markdown: string) returns (html: string)
    ensures |SplitOn(html, "\n")| == |NaverLines(markdown)|
    ensures forall i :: 0 <= i < |NaverLines(markdown)| ==> SplitOn(html, "\n")[i] == WrapLine(NaverLines(markdown)[i])
  {
    var lines := NaverLines(markdown);
    var processed: seq<string> := [];
    for i := 0 to |lines|
      invariant |processed| == i
      invariant forall j :: 0 <= j < i ==> processed[j] == WrapLine(lines[j])
    {
      processed := processed + [WrapLine(lines[i])];
    }
    forall j | 0 <= j < |processed|
      ensures !Contains(processed[j], "\n")
    {
      WrapLineSingle(lines[j]);
    }
    html := JoinLines(processed);
  }

  // ---------------------------------------------------------------------------
  // Slugs

  /** The characters `[a-z0-9가-힣]` keeps. */
  predicate SlugChar(c: char) {
    ('a' <= c <= 'z') || ('0' <= c <= '9') || ('\U{AC00}' <= c <= '\U{D7A3}')
  }

  /**
   * `toLowerCase` of one character, as far as `[a-z0-9가-힣]` can tell. Besides
   * the ASCII capitals, two characters lower-case to an ASCII letter: `İ`
   * (U+0130), whose lower case is `i` followed by a combining dot (U+0307), and
   * the Kelvin sign (U+212A), whose lower case is `k`. Every other character
   * lower-cases to one that is a slug character iff it is one already.
   */
  function SlugLowerChar(c: char): (l: string)
    ensures IsUpper(c) ==> l == [LowerChar(c)]
    ensures c == '\U{0130}' ==> l == ['i', '\U{0307}']
    ensures c == '\U{212A}' ==> l == ['k']
    ensures c != '\U{0130}' && c != '\U{212A}' ==> l == [LowerChar(c)]
  {
    if c == '\U{0130}' then ['i', '\U{0307}'] else if c == '\U{212A}' then ['k'] else [LowerChar(c)]
  }

  /** `str.toLowerCase()`, one character at a time through `SlugLowerChar`. */
  function SlugLower(s: string): (r: string)
    ensures |s| <= |r| <= 2 * |s|
    decreases |s|
  {
    if s == [] then [] else SlugLowerChar(s[0]) + SlugLower(s[1..])
  }

  /** Without `İ` or the Kelvin sign, lower-casing is character by character. */
  lemma {:induction false} SlugLowerIsToLower(s: string)
    requires forall i :: 0 <= i < |s| ==> s[i] != '\U{0130}' && s[i] != '\U{212A}'
    ensures SlugLower(s) == ToLower(s)
    decreases |s|
  {
    if s != [] {
      SlugLowerIsToLower(s[1..]);
      assert ToLower(s) == [LowerChar(s[0])] + ToLower(s[1..]);
    }
  }

  /** `.replace(/[^a-z0-9가-힣]+/g, '-')`: every maximal run of other characters becomes one `-`. */
  function DashRuns(s: string): (r: string)
    ensures forall i :: 0 <= i < |r| ==> SlugChar(r[i]) || r[i] == '-'
    ensures NoDoubleDash(r)
    ensures r != [] && r[0] == '-' ==> s != [] && !SlugChar(s[0])
    decreases |s|
  {
    if s == [] then []
    else if SlugChar(s[0]) then
      var tail := DashRuns(s[1..]);
      PrependKeepsRuns(s[0], tail);
      [s[0]] + tail
    else
      var rest := SkipWhile(s[1..], false);
      var tail := DashRuns(rest);
      PrependKeepsRuns('-', tail);
      "-" + tail
  }

  /** A slug character, or a dash before a text that does not start with one, keeps runs single. */
  lemma PrependKeepsRuns(c: char, t: string)
    requires SlugChar(c) || (c == '-' && (t == [] || t[0] != '-'))
    requires forall i :: 0 <= i < |t| ==> SlugChar(t[i]) || t[i] == '-'
    requires NoDoubleDash(t)
    ensures forall i :: 0 <= i < |[c] + t| ==> SlugChar(([c] + t)[i]) || ([c] + t)[i] == '-'
    ensures NoDoubleDash([c] + t)
  {
    var r := [c] + t;
    forall i | 1 <= i < |r|
      ensures r[i] == t[i - 1]
    {
    }
  }

  /** Drops the leading characters whose `SlugChar` differs from `keep`. */
  function SkipWhile(s: string, keep: bool): (r: string)
    ensures |r| <= |s| && r == s[|s| - |r|..]
    ensures r == [] || SlugChar(r[0]) != keep
    decreases |s|
  {
    if s != [] && SlugChar(s[0]) == keep then SkipWhile(s[1..], keep) else s
  }

  predicate NoDoubleDash(s: string) {
    forall i :: 0 <= i < |s| - 1 ==> !(s[i] == '-' && s[i + 1] == '-')
  }

  /** Drops leading dashes. */
  function SkipDashes(s: string): (r: string)
    ensures |r| <= |s|
    decreases |s|
  {
    if s != [] && s[0] == '-' then SkipDashes(s[1..]) else s
  }

  /** `.replace(/-+/g, '-')` */
  function CollapseDashes(s: string): string
    decreases |s|
  {
    if s == [] then []
    else if s[0] == '-' then "-" + CollapseDashes(SkipDashes(s[1..]))
    else [s[0]] + CollapseDashes(s[1..])
  }

  /** Collapsing dashes changes nothing when no two dashes are adjacent. */
  lemma {:induction false} CollapseKeepsSingleDashes(s: string)
    requires NoDoubleDash(s)
    ensures CollapseDashes(s) == s
    decreases |s|
  {
    if s != [] {
      assert NoDoubleDash(s[1..]) by {
        assert forall i :: 0 <= i < |s[1..]| ==> s[1..][i] == s[i + 1];
      }
      if s[0] == '-' {
        assert |s| > 1 ==> s[1] != '-';
        assert SkipDashes(s[1..]) == s[1..];
      }
      CollapseKeepsSingleDashes(s[1..]);
      assert s == [s[0]] + s[1..];
    }
  }

  /** The characters kept by a slug lie in the Basic Multilingual Plane, so UTF-16 length is length. */
  lemma {:induction false} BmpLength(s: string)
    requires forall i :: 0 <= i < |s| ==> s[i] as int <= 0xFFFF
    ensures Utf16Length(s) == |s|
    decreases |s|
  {
    if s != [] {
      BmpLength(s[..|s| - 1]);
    }
  }

  const SlugLimit: nat := 50

  /**
   * `slugify(str)`: lower-cased, every run of other characters a single `-`,
   * at most 50 UTF-16 code units.
   */
  function Slugify(title: string): (slug: string)
    ensures forall i :: 0 <= i < |slug| ==> SlugChar(slug[i]) || slug[i] == '-'
    ensures forall i :: 0 <= i < |slug| ==> !IsUpper(slug[i])
    ensures NoDoubleDash(slug)
    ensures Utf16Length(slug) == |slug| <= SlugLimit
  {
    var dashed := DashRuns(SlugLower(title));
    CollapseKeepsSingleDashes(dashed);
    var collapsed := CollapseDashes(dashed);
    // Every kept character is in the BMP, so the first 50 UTF-16 code units are the first 50 characters.
    var n := if |collapsed| <= SlugLimit then |collapsed| else SlugLimit;
    SlugPrefix(collapsed, n);
    collapsed[..n]
  }

  /** A prefix of a string of slug characters and single dashes is one too, and lies in the BMP. */
  lemma SlugPrefix(s: string, n: nat)
    requires n <= |s|
    requires forall i :: 0 <= i < |s| ==> SlugChar(s[i]) || s[i] == '-'
    requires NoDoubleDash(s)
    ensures forall i :: 0 <= i < n ==> SlugChar(s[..n][i]) || s[..n][i] == '-'
    ensures forall i :: 0 <= i < n ==> !IsUpper(s[..n][i])
    ensures NoDoubleDash(s[..n])
    ensures Utf16Length(s[..n]) == n
  {
    BmpLength(s[..n]);
  }

  /** A slug is its own slug. */
  lemma SlugifyIdempotent(title: string)
    ensures Slugify(Slugify(title)) == Slugify(title)
  {
    var s := Slugify(title);
    SlugLowerOfSlug(s);
    DashRunsKeepsSlug(s);
    SlugifyShort(s);
  }

  /** A string of slug characters and single dashes passes `DashRuns` unchanged. */
  lemma {:induction false} DashRunsKeepsSlug(s: string)
    requires forall i :: 0 <= i < |s| ==> SlugChar(s[i]) || s[i] == '-'
    requires NoDoubleDash(s)
    ensures DashRuns(s) == s
    decreases |s|
  {
    if s != [] {
      assert NoDoubleDash(s[1..]) by {
        assert forall i :: 0 <= i < |s[1..]| ==> s[1..][i] == s[i + 1];
      }
      DashRunsKeepsSlug(s[1..]);
      if !SlugChar(s[0]) {
        assert s[0] == '-';
        assert SkipWhile(s[1..], false) == s[1..] by {
          assert |s| > 1 ==> SlugChar(s[1]);
        }
      }
      assert s == [s[0]] + s[1..];
    }
  }

  /** A short title made only of slug characters and ASCII capitals becomes its lower-case form. */
  lemma SlugOfPlainTitle(title: string)
    requires |title| <= SlugLimit
    requires forall i :: 0 <= i < |title| ==> SlugChar(LowerChar(title[i]))
    ensures Slugify(title) == ToLower(title)
  {
    SlugLowerIsToLower(title);
    var lower := ToLower(title);
    assert forall i :: 0 <= i < |lower| ==> SlugChar(lower[i]);
    assert NoDoubleDash(lower);
    DashRunsKeepsSlug(lower);
    SlugifyShort(title);
  }

  /** A title whose dashed form is short and has no double dash is slugged to that form. */
  lemma SlugifyShort(title: string)
    requires |DashRuns(SlugLower(title))| <= SlugLimit
    ensures Slugify(title) == DashRuns(SlugLower(title))
  {
    CollapseKeepsSingleDashes(DashRuns(SlugLower(title)));
  }

  /** Slug characters lower-case to themselves. */
  lemma SlugLowerOfSlug(s: string)
    requires forall i :: 0 <= i < |s| ==> SlugChar(s[i]) || s[i] == '-'
    ensures SlugLower(s) == s
  {
    forall i | 0 <= i < |s|
      ensures s[i] != '\U{0130}' && s[i] != '\U{212A}' && LowerChar(s[i]) == s[i]
    {
    }
    SlugLowerIsToLower(s);
    assert ToLower(s) == s;
  }

  /**
   * `İ` lower-cases to `i` and a combining dot, and the dot is not a slug
   * character: `İstanbul` becomes `i-stanbul`.
   */
  lemma DottedCapitalISlug(rest: string)
    requires 0 < |rest| <= SlugLimit - 2
    requires forall i :: 0 <= i < |rest| ==> SlugChar(rest[i])
    ensures Slugify(['\U{0130}'] + rest) == ['i', '-'] + rest
  {
    var title := ['\U{0130}'] + rest;
    assert title[1..] == rest;
    SlugLowerOfSlug(rest);
    assert SlugLower(title) == ['i', '\U{0307}'] + rest;
    PairThen('i', '\U{0307}', rest);
    assert NoDoubleDash(rest);
    DashRunsKeepsSlug(rest);
    DashRunsAfterDot('i', '\U{0307}', rest);
    PairThen('i', '-', rest);
    SlugifyShort(title);
  }

  /** A slug character, then one other character, then a slug: the other character becomes one dash. */
  lemma DashRunsAfterDot(c: char, d: char, rest: string)
    requires SlugChar(c) && !SlugChar(d)
    requires rest != [] && SlugChar(rest[0]) && DashRuns(rest) == rest
    ensures DashRuns([c] + ([d] + rest)) == [c] + ("-" + rest)
  {
    DashBeforeSlug(d, rest);
    DashRunsOfSlug(c, [d] + rest);
  }

  lemma PairThen(c: char, d: char, rest: string)
    ensures [c] + ([d] + rest) == [c, d] + rest
  {
  }

  /** A character outside the slug class before a slug becomes a single dash. */
  lemma DashBeforeSlug(d: char, rest: string)
    requires !SlugChar(d)
    requires rest != [] && SlugChar(rest[0]) && DashRuns(rest) == rest
    ensures DashRuns([d] + rest) == "-" + rest
  {
    SkipWhileStops(rest);
    DashRunsOfNonSlug(d, rest);
  }

  lemma SkipWhileStops(s: string)
    requires s != [] && SlugChar(s[0])
    ensures SkipWhile(s, false) == s
  {
  }

  lemma DashRunsOfSlug(c: char, s: string)
    requires SlugChar(c)
    ensures DashRuns([c] + s) == [c] + DashRuns(s)
  {
    assert ([c] + s)[1..] == s;
  }

  lemma DashRunsOfNonSlug(c: char, s: string)
    requires !SlugChar(c)
    ensures DashRuns([c] + s) == "-" + DashRuns(SkipWhile(s, false))
  {
    assert ([c] + s)[1..] == s;
  }

  /** The Kelvin sign lower-cases to `k`, which the slug keeps. */
  lemma KelvinSignSlug(rest: string)
    requires |rest| < SlugLimit
    requires forall i :: 0 <= i < |rest| ==> SlugChar(rest[i])
    ensures Slugify(['\U{212A}'] + rest) == ['k'] + rest
  {
    var title := ['\U{212A}'] + rest;
    var lower := ['k'] + rest;
    assert title[1..] == rest;
    SlugLowerOfSlug(rest);
    assert SlugLower(title) == lower;
    assert NoDoubleDash(lower);
    DashRunsKeepsSlug(lower);
    SlugifyShort(title);
  }
}
