/**
 * String operations of JavaScript that the modelled scripts use: `includes`,
 * `startsWith`/`endsWith`, `trim`, `toLowerCase`/`toUpperCase` (ASCII letters
 * only), `split(str)`, `join(str)`, global `replace` of a literal pattern,
 * `replace` of the first occurrence, and the UTF-16 `length`.
 */
module Text {

  /** The characters that JavaScript's `\s` class and `String.prototype.trim` treat as white space. */
  predicate IsWhitespace(c: char) {
    || c == ' ' || c == '\t' || c == '\n' || c == '\U{000B}' || c == '\U{000C}' || c == '\r'
    || c == '\U{00A0}' || c == '\U{1680}' || ('\U{2000}' <= c <= '\U{200A}')
    || c == '\U{2028}' || c == '\U{2029}' || c == '\U{202F}' || c == '\U{205F}'
    || c == '\U{3000}' || c == '\U{FEFF}'
  }

  /** The characters a regular-expression `.` does not match. */
  predicate IsLineTerminator(c: char) {
    c == '\n' || c == '\r' || c == '\U{2028}' || c == '\U{2029}'
  }

  predicate IsUpper(c: char) { 'A' <= c <= 'Z' }

  predicate IsAsciiLetter(c: char) { 'a' <= c <= 'z' || 'A' <= c <= 'Z' }

  // ---------------------------------------------------------------------------
  // Substrings

  /** `s.includes(p)`: `p` occurs in `s` at some position. */
  predicate Contains(s: string, p: string)
    decreases |s|
  {
    p <= s || (|s| > 0 && Contains(s[1..], p))
  }

  /** `s.endsWith(p)` */
  predicate EndsWith(s: string, p: string) {
    |p| <= |s| && s[|s| - |p|..] == p
  }

  lemma {:induction false} ContainsAt(s: string, p: string, i: nat)
    requires i <= |s| && p <= s[i..]
    ensures Contains(s, p)
  {
    if i > 0 {
      assert s[1..][i - 1..] == s[i..];
      ContainsAt(s[1..], p, i - 1);
    }
  }

  lemma EndsWithContains(s: string, p: string)
    ensures EndsWith(s, p) ==> Contains(s, p)
  {
    if EndsWith(s, p) {
      ContainsAt(s, p, |s| - |p|);
    }
  }

  lemma {:induction false} ContainsInLeft(a: string, b: string, p: string)
    requires Contains(a, p)
    ensures Contains(a + b, p)
  {
    if p <= a {
      assert (a + b)[..|p|] == a[..|p|];
    } else {
      assert (a + b)[1..] == a[1..] + b;
      ContainsInLeft(a[1..], b, p);
    }
  }

  lemma {:induction false} ContainsInRight(a: string, b: string, p: string)
    requires Contains(b, p)
    ensures Contains(a + b, p)
  {
    if a == [] {
      assert a + b == b;
    } else {
      assert (a + b)[1..] == a[1..] + b;
      ContainsInRight(a[1..], b, p);
    }
  }

  /** Occurrence is transitive: a pattern inside a part of `s` is inside `s`. */
  lemma {:induction false} ContainsTransitive(s: string, mid: string, p: string)
    requires Contains(s, mid) && Contains(mid, p)
    ensures Contains(s, p)
    decreases |s|
  {
    if mid <= s {
      var t := s[|mid|..];
      assert s == mid + t;
      ContainsInLeft(mid, t, p);
    } else {
      ContainsTransitive(s[1..], mid, p);
      assert s == [s[0]] + s[1..];
      ContainsInRight([s[0]], s[1..], p);
    }
  }

  /** A string occurs wherever it is concatenated in. */
  lemma ContainsMiddle(a: string, p: string, b: string)
    ensures Contains(a + p + b, p)
  {
    assert (p + b)[..|p|] == p;
    ContainsAt(p + b, p, 0);
    ContainsInRight(a, p + b, p);
    assert a + p + b == a + (p + b);
  }

  /** A character of `s` occurs in `s` as a one-character string. */
  lemma CharContained(s: string, c: char)
    ensures c in s ==> Contains(s, [c])
  {
    if c in s {
      var i :| 0 <= i < |s| && s[i] == c;
      assert [c] <= s[i..];
      ContainsAt(s, [c], i);
    }
  }

  /** A pattern whose first character does not occur in `s` does not occur in `s`. */
  lemma {:induction false} MissingLeadNotContained(s: string, p: string)
    requires p != [] && p[0] !in s
    ensures !Contains(s, p)
  {
    if s != [] {
      assert s[0] in s;
      assert forall c :: c in s[1..] ==> c in s;
      MissingLeadNotContained(s[1..], p);
    }
  }

  /** A non-empty string that occurs in `s` has its first character in `s`. */
  lemma {:induction false} ContainedLeadOccurs(s: string, p: string)
    requires p != [] && Contains(s, p)
    ensures p[0] in s
  {
    if p <= s {
      assert s[0] == p[0];
    } else {
      ContainedLeadOccurs(s[1..], p);
      assert forall c :: c in s[1..] ==> c in s;
    }
  }

  // ---------------------------------------------------------------------------
  // Case mapping (ASCII letters; other characters are left as they are)

  function LowerChar(c: char): char {
    if IsUpper(c) then (c as int + 32) as char else c
  }

  function UpperChar(c: char): char {
    if 'a' <= c <= 'z' then (c as int - 32) as char else c
  }

  /** `s.toLowerCase()` on ASCII letters: same length, every upper-case letter lowered. */
  function ToLower(s: string): (r: string)
    ensures |r| == |s|
    ensures forall i :: 0 <= i < |s| ==> r[i] == LowerChar(s[i])
  {
    seq(|s|, i requires 0 <= i < |s| => LowerChar(s[i]))
  }

  /** `s.toUpperCase()` on ASCII letters. */
  function ToUpper(s: string): (r: string)
    ensures |r| == |s|
    ensures forall i :: 0 <= i < |s| ==> r[i] == UpperChar(s[i])
  {
    seq(|s|, i requires 0 <= i < |s| => UpperChar(s[i]))
  }

  /** A lower-case pattern found in `s` is found in `s.toLowerCase()`. */
  lemma {:induction false} ContainsToLower(s: string, p: string)
    requires Contains(s, p)
    requires forall c :: c in p ==> !IsUpper(c)
    ensures Contains(ToLower(s), p)
  {
    if p <= s {
      forall i | 0 <= i < |p|
        ensures ToLower(s)[i] == p[i]
      {
        assert p[i] in p;
      }
      assert p <= ToLower(s);
    } else {
      ContainsToLower(s[1..], p);
      assert ToLower(s)[1..] == ToLower(s[1..]);
    }
  }

  lemma ToLowerAppend(a: string, b: string)
    ensures ToLower(a + b) == ToLower(a) + ToLower(b)
  {
  }

  // ---------------------------------------------------------------------------
  // Trimming

  /** Drops the leading white space: what is left starts with a non-space or is empty. */
  function TrimStart(s: string): (r: string)
    ensures |r| <= |s| && r == s[|s| - |r|..]
    ensures r == [] || !IsWhitespace(r[0])
    ensures forall i :: 0 <= i < |s| - |r| ==> IsWhitespace(s[i])
    decreases |s|
  {
    if |s| > 0 && IsWhitespace(s[0]) then TrimStart(s[1..]) else s
  }

  /** Drops the trailing white space: what is left ends with a non-space or is empty. */
  function TrimEnd(s: string): (r: string)
    ensures r <= s
    ensures r == [] || !IsWhitespace(r[|r| - 1])
    ensures forall i :: |r| <= i < |s| ==> IsWhitespace(s[i])
    decreases |s|
  {
    if |s| > 0 && IsWhitespace(s[|s| - 1]) then TrimEnd(s[..|s| - 1]) else s
  }

  /** `s.trim()` */
  function Trim(s: string): string {
    TrimEnd(TrimStart(s))
  }

  /** `s.trim()` is empty exactly when `s` is all white space. */
  lemma TrimEmptyIffBlank(s: string)
    ensures Trim(s) == [] <==> forall i :: 0 <= i < |s| ==> IsWhitespace(s[i])
  {
    var t := TrimStart(s);
    if t != [] {
      assert t[0] == s[|s| - |t|];
    }
  }

  lemma {:induction false} TrimStartInside(s: string, c: char)
    ensures c in TrimStart(s) ==> c in s
    decreases |s|
  {
    if |s| > 0 && IsWhitespace(s[0]) {
      TrimStartInside(s[1..], c);
      assert c in s[1..] ==> c in s;
    }
  }

  lemma {:induction false} TrimEndInside(s: string, c: char)
    ensures c in TrimEnd(s) ==> c in s
    decreases |s|
  {
    if |s| > 0 && IsWhitespace(s[|s| - 1]) {
      TrimEndInside(s[..|s| - 1], c);
      assert c in s[..|s| - 1] ==> c in s;
    }
  }

  /** Every character of `s.trim()` is a character of `s`. */
  lemma TrimInside(s: string, c: char)
    ensures c in Trim(s) ==> c in s
  {
    TrimStartInside(s, c);
    TrimEndInside(TrimStart(s), c);
  }

  // ---------------------------------------------------------------------------
  // Replacing, splitting and joining on a literal pattern

  /**
   * `s.replace(/pat/g, rep)`: scans left to right; at each position where
   * `pat` starts, emits `rep` and skips the match, otherwise keeps one character.
   */
  function ReplaceAll(s: string, pat: string, rep: string): string
    requires pat != []
    decreases |s|
  {
    if pat <= s then rep + ReplaceAll(s[|pat|..], pat, rep)
    else if s == [] then []
    else [s[0]] + ReplaceAll(s[1..], pat, rep)
  }

  /** `s.replace(pat, rep)` with a string pattern: only the first occurrence is replaced. */
  function ReplaceFirst(s: string, pat: string, rep: string): string
    requires pat != []
    decreases |s|
  {
    if pat <= s then rep + s[|pat|..]
    else if s == [] then []
    else [s[0]] + ReplaceFirst(s[1..], pat, rep)
  }

  /** `s.split(sep)` for a non-empty string separator. */
  function SplitOn(s: string, sep: string): (parts: seq<string>)
    requires sep != []
    ensures |parts| >= 1
    decreases |s|
  {
    if sep <= s then [""] + SplitOn(s[|sep|..], sep)
    else if s == [] then [""]
    else
      var rest := SplitOn(s[1..], sep);
      [[s[0]] + rest[0]] + rest[1..]
  }

  /** `parts.join(sep)` */
  function Join(parts: seq<string>, sep: string): string
    decreases |parts|
  {
    if |parts| == 0 then ""
    else if |parts| == 1 then parts[0]
    else parts[0] + sep + Join(parts[1..], sep)
  }

  lemma JoinCons(x: string, xs: seq<string>, sep: string)
    requires |xs| >= 1
    ensures Join([x] + xs, sep) == x + sep + Join(xs, sep)
  {
    assert ([x] + xs)[1..] == xs;
  }

  /** Splitting at `sep` and joining back with `sep` gives the original string. */
  lemma {:induction false} JoinSplit(s: string, sep: string)
    requires sep != []
    ensures Join(SplitOn(s, sep), sep) == s
    decreases |s|
  {
    if sep <= s {
      JoinSplit(s[|sep|..], sep);
      JoinCons("", SplitOn(s[|sep|..], sep), sep);
    } else if s != [] {
      JoinSplit(s[1..], sep);
      JoinHeadExtend(s[0], SplitOn(s[1..], sep), sep);
    }
  }

  /** Prepending a character to the first part prepends it to the joined string. */
  lemma JoinHeadExtend(c: char, parts: seq<string>, sep: string)
    requires |parts| >= 1
    ensures Join([[c] + parts[0]] + parts[1..], sep) == [c] + Join(parts, sep)
  {
    if |parts| > 1 {
      JoinCons([c] + parts[0], parts[1..], sep);
      JoinCons(parts[0], parts[1..], sep);
      assert parts == [parts[0]] + parts[1..];
    }
  }

  /** A global replace is a split at the pattern followed by a join with the replacement. */
  lemma {:induction false} ReplaceAllIsSplitJoin(s: string, pat: string, rep: string)
    requires pat != []
    ensures ReplaceAll(s, pat, rep) == Join(SplitOn(s, pat), rep)
    decreases |s|
  {
    if pat <= s {
      ReplaceAllIsSplitJoin(s[|pat|..], pat, rep);
      JoinCons("", SplitOn(s[|pat|..], pat), rep);
    } else if s != [] {
      ReplaceAllIsSplitJoin(s[1..], pat, rep);
      JoinHeadExtend(s[0], SplitOn(s[1..], pat), rep);
    }
  }

  /** The first part of a split is a prefix of the string. */
  lemma {:induction false} SplitHeadIsPrefix(s: string, sep: string)
    requires sep != []
    ensures SplitOn(s, sep)[0] <= s
    decreases |s|
  {
    if !(sep <= s) && s != [] {
      SplitHeadIsPrefix(s[1..], sep);
    }
  }

  /** No part of a split contains the separator: every occurrence was cut out. */
  lemma {:induction false} SplitPartsExcludeSeparator(s: string, sep: string)
    requires sep != []
    ensures forall i :: 0 <= i < |SplitOn(s, sep)| ==> !Contains(SplitOn(s, sep)[i], sep)
    decreases |s|
  {
    var parts := SplitOn(s, sep);
    if sep <= s {
      var rest := SplitOn(s[|sep|..], sep);
      SplitPartsExcludeSeparator(s[|sep|..], sep);
      assert parts == [""] + rest;
      assert !Contains("", sep);
      assert forall i :: 1 <= i < |parts| ==> parts[i] == rest[i - 1];
    } else if s == [] {
      assert !Contains("", sep);
    } else {
      var rest := SplitOn(s[1..], sep);
      SplitPartsExcludeSeparator(s[1..], sep);
      SplitHeadIsPrefix(s[1..], sep);
      ConsPartFree(s, sep, rest[0]);
      assert parts == [[s[0]] + rest[0]] + rest[1..];
      assert forall i :: 1 <= i < |parts| ==> parts[i] == rest[i];
    }
  }

  /** The first character of a text that does not start with `sep`, put before a `sep`-free prefix of the rest, gives a `sep`-free text. */
  lemma ConsPartFree(s: string, sep: string, r0: string)
    requires s != [] && !(sep <= s)
    requires r0 <= s[1..] && !Contains(r0, sep)
    ensures !Contains([s[0]] + r0, sep)
  {
    var head := [s[0]] + r0;
    assert head <= s;
    PrefixTransitive(sep, head, s);
    assert head[1..] == r0;
  }

  /** Taking the first character off a concatenation, and putting it back. */
  lemma HeadAppend(a: string, b: string, r: string)
    requires a != []
    ensures (a + b)[0] == a[0] && (a + b)[1..] == a[1..] + b
    ensures [a[0]] + (a[1..] + r) == a + r
  {
    assert a == [a[0]] + a[1..];
  }

  lemma StringAssoc(a: string, b: string, c: string)
    ensures a + b + c == a + (b + c)
  {
  }

  lemma PrefixTransitive(a: string, b: string, c: string)
    ensures a <= b && b <= c ==> a <= c
  {
  }

  /** Splitting a string that starts with a separator-free piece at a one-character separator. */
  lemma {:induction false} SplitFreePrefix(x: string, t: string, c: char)
    requires c !in x
    ensures SplitOn(x + t, [c]) == [x + SplitOn(t, [c])[0]] + SplitOn(t, [c])[1..]
    decreases |x|
  {
    var tail := SplitOn(t, [c]);
    if x == [] {
      assert x + t == t;
      assert x + tail[0] == tail[0];
      assert tail == [tail[0]] + tail[1..];
    } else {
      assert x[0] in x;
      assert forall d :: d in x[1..] ==> d in x;
      HeadAppend(x, t, tail[0]);
      assert !([c] <= x + t);
      SplitFreePrefix(x[1..], t, c);
      var rest := SplitOn(x[1..] + t, [c]);
      assert SplitOn(x + t, [c]) == [[x[0]] + rest[0]] + rest[1..];
    }
  }

  /** Joining lines without the separator character and splitting again gives the lines back. */
  lemma {:induction false} SplitJoinChar(xs: seq<string>, c: char)
    requires |xs| >= 1
    requires forall i :: 0 <= i < |xs| ==> c !in xs[i]
    ensures SplitOn(Join(xs, [c]), [c]) == xs
    decreases |xs|
  {
    if |xs| == 1 {
      SplitFreePrefix(xs[0], "", c);
      assert SplitOn("", [c]) == [""];
      assert xs[0] + "" == xs[0];
      assert Join(xs, [c]) == xs[0];
    } else {
      SplitJoinChar(xs[1..], c);
      var j := Join(xs[1..], [c]);
      assert Join(xs, [c]) == xs[0] + ([c] + j);
      SplitFreePrefix(xs[0], [c] + j, c);
      assert [c] <= [c] + j;
      assert ([c] + j)[1..] == j;
      assert SplitOn([c] + j, [c]) == [""] + xs[1..];
      assert xs[0] + "" == xs[0];
      assert xs == [xs[0]] + xs[1..];
    }
  }

  /** A character occurs in a join only if it occurs in a part or in the separator. */
  lemma {:induction false} JoinExcludes(parts: seq<string>, sep: string, c: char)
    requires c !in sep
    requires forall i :: 0 <= i < |parts| ==> c !in parts[i]
    ensures c !in Join(parts, sep)
    decreases |parts|
  {
    if |parts| > 1 {
      JoinExcludes(parts[1..], sep, c);
    }
  }

  // ---------------------------------------------------------------------------
  // Strings built piece by piece with `+=`

  /** The pieces written one after another. */
  function Concat(pieces: seq<string>): string
    decreases |pieces|
  {
    if pieces == [] then "" else Concat(pieces[..|pieces| - 1]) + pieces[|pieces| - 1]
  }

  /** Appending one more piece appends its text. */
  lemma ConcatSnoc(pieces: seq<string>, x: string)
    ensures Concat(pieces + [x]) == Concat(pieces) + x
  {
    assert (pieces + [x])[..|pieces|] == pieces;
  }

  /** Concatenation distributes over joining lists of pieces. */
  lemma {:induction false} ConcatAppend(a: seq<string>, b: seq<string>)
    ensures Concat(a + b) == Concat(a) + Concat(b)
    decreases |b|
  {
    if b == [] {
      assert a + b == a;
    } else {
      var init := b[..|b| - 1];
      var last := b[|b| - 1];
      assert a + b == (a + init) + [last];
      assert b == init + [last];
      ConcatSnoc(a + init, last);
      ConcatSnoc(init, last);
      ConcatAppend(a, init);
      StringAssoc(Concat(a), Concat(init), last);
    }
  }

  /** The first piece starts the text. */
  lemma ConcatStartsWithFirst(pieces: seq<string>)
    requires pieces != []
    ensures pieces[0] <= Concat(pieces)
  {
    ConcatAppend([pieces[0]], pieces[1..]);
    ConcatSnoc([], pieces[0]);
    assert [pieces[0]] + pieces[1..] == pieces;
    assert [] + [pieces[0]] == [pieces[0]];
  }

  /** Two pieces joined. */
  lemma ConcatPair(a: string, b: string)
    ensures Concat([a, b]) == a + b
  {
    ConcatSnoc([a], b);
    ConcatSnoc([], a);
    assert [a] + [b] == [a, b];
    assert [] + [a] == [a];
  }

  /** The first two pieces start the text, however the rest is split. */
  lemma ConcatStartsWithPair(a: string, b: string, mid: seq<string>, rest: seq<string>)
    ensures a + b <= Concat([a, b] + mid + rest)
  {
    assert [a, b] + mid + rest == [a, b] + (mid + rest);
    ConcatAppend([a, b], mid + rest);
    ConcatPair(a, b);
  }

  /** The last piece ends the text. */
  lemma ConcatEndsWithLast(pieces: seq<string>)
    requires pieces != []
    ensures EndsWith(Concat(pieces), pieces[|pieces| - 1])
  {
    var c := Concat(pieces);
    var x := pieces[|pieces| - 1];
    assert c[|c| - |x|..] == x;
  }

  /** Every piece occurs in the text. */
  lemma ConcatContainsPiece(pieces: seq<string>, i: nat)
    requires i < |pieces|
    ensures Contains(Concat(pieces), pieces[i])
  {
    var before, after := pieces[..i], pieces[i + 1..];
    assert pieces == before + [pieces[i]] + after;
    ConcatAppend(before + [pieces[i]], after);
    ConcatSnoc(before, pieces[i]);
    ContainsMiddle(Concat(before), pieces[i], Concat(after));
  }

  // ---------------------------------------------------------------------------
  // Numbers and lengths

  function Digit(d: nat): char
    requires d < 10
  {
    "0123456789"[d]
  }

  /** The decimal rendering of a natural number, as a template literal shows it. */
  function NatToString(n: nat): (s: string)
    ensures |s| >= 1
    ensures forall c :: c in s ==> '0' <= c <= '9'
    decreases n
  {
    if n < 10 then [Digit(n)] else NatToString(n / 10) + [Digit(n % 10)]
  }

  /** `s.length` in JavaScript: characters outside the Basic Multilingual Plane count twice. */
  function Utf16Length(s: string): (n: nat)
    ensures |s| <= n <= 2 * |s|
    decreases |s|
  {
    if s == [] then 0
    else Utf16Length(s[..|s| - 1]) + (if s[|s| - 1] as int > 0xFFFF then 2 else 1)
  }
}
