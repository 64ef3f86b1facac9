/**
 * The pre-publication quality gate (quality_gate.js): the syllable counter,
 * the empty-input branch of the readability measure, and the six checks whose
 * penalties make up the score, the pass mark and the letter grade.
 */
module QualityGate {
  import opened Wrappers
  import opened Text

  // ---------------------------------------------------------------------------
  // Syllables

  predicate IsVowel(c: char) {
    c == 'a' || c == 'e' || c == 'i' || c == 'o' || c == 'u' || c == 'y'
  }

  predicate IsLowerLetter(c: char) { 'a' <= c <= 'z' }

  /**
   * What `toLowerCase` leaves of `c` for `[a-z]` to keep. Besides the ASCII
   * capitals, two characters lower-case to an ASCII letter: `İ` (U+0130),
   * whose lower case is `i` followed by a combining dot that `[^a-z]` then
   * drops, and the Kelvin sign (U+212A), whose lower case is `k`. Every other
   * character's lower case holds no ASCII letter unless it is one already.
   */
  function LowerForLetters(c: char): (l: char)
    ensures IsUpper(c) ==> l == LowerChar(c)
    ensures c == '\U{0130}' ==> l == 'i'
    ensures c == '\U{212A}' ==> l == 'k'
  {
    if c == '\U{0130}' then 'i' else if c == '\U{212A}' then 'k' else LowerChar(c)
  }

  /** `word.toLowerCase().replace(/[^a-z]/g, '')`: the lower-cased letters, in order. */
  function Letters(word: string): (w: string)
    ensures forall i :: 0 <= i < |w| ==> IsLowerLetter(w[i])
    ensures |w| <= |word|
    decreases |word|
  {
    if word == [] then []
    else
      var c := LowerForLetters(word[0]);
      (if IsLowerLetter(c) then [c] else []) + Letters(word[1..])
  }

  /** A word of ASCII letters is simply lower-cased; `İ` and the Kelvin sign count as `i` and `k`. */
  lemma {:induction false} LettersOfAsciiWord(word: string)
    requires forall i :: 0 <= i < |word| ==> IsAsciiLetter(word[i])
    ensures Letters(word) == ToLower(word)
    decreases |word|
  {
    if word != [] {
      LettersOfAsciiWord(word[1..]);
      assert ToLower(word) == [LowerChar(word[0])] + ToLower(word[1..]);
    }
  }

  /** A word such as `İstanbul` keeps its dotted capital, as `i`. */
  lemma DottedCapitalIKept(rest: string)
    requires forall i :: 0 <= i < |rest| ==> IsAsciiLetter(rest[i])
    ensures Letters(['\U{0130}'] + rest) == ['i'] + ToLower(rest)
  {
    assert (['\U{0130}'] + rest)[1..] == rest;
    LettersOfAsciiWord(rest);
  }

  /** The number of maximal runs of vowels in `w`. */
  function VowelGroups(w: string): (n: nat)
    ensures n <= |w|
    decreases |w|
  {
    if w == [] then 0
    else
      var k := |w| - 1;
      VowelGroups(w[..k]) + (if IsVowel(w[k]) && (k == 0 || !IsVowel(w[k - 1])) then 1 else 0)
  }

  /** The count before the lower bound of 1: vowel groups, less a silent `e`, plus a consonant-`le` ending. */
  function RawSyllables(w: string): int {
    var silentE := if EndsWith(w, "e") then 1 else 0;
    var consonantLe := if EndsWith(w, "le") && |w| > 2 && !IsVowel(w[|w| - 3]) then 1 else 0;
    VowelGroups(w) - silentE + consonantLe
  }

  /** `countSyllables(word)` */
  function Syllables(word: string): (n: nat)
    ensures n >= 1
    ensures |Letters(word)| <= 3 ==> n == 1
    ensures |Letters(word)| > 3 ==> n == if RawSyllables(Letters(word)) < 1 then 1 else RawSyllables(Letters(word))
  {
    var w := Letters(word);
    if |w| <= 3 then 1
    else
      var raw := RawSyllables(w);
      if raw < 1 then 1 else raw
  }

  /** `countSyllables(word)`: the vowel groups of the letters, adjusted for `-e` and `-le` endings, at least 1. */
  method CountSyllables(word: string) returns (n: nat)
    ensures n == Syllables(word)
  {
    var w := Letters(word);
    if |w| <= 3 {
      return 1;
    }
    var count: int := CountVowelGroups(w);
    if EndsWith(w, "e") {
      count := count - 1;
    }
    if EndsWith(w, "le") && |w| > 2 && !IsVowel(w[|w| - 3]) {
      count := count + 1;
    }
    n := if count < 1 then 1 else count;
  }

  /** The loop of `countSyllables`: one pass over the letters, counting each vowel that follows a non-vowel. */
  method CountVowelGroups(w: string) returns (count: nat)
    ensures count == VowelGroups(w)
  {
    count := 0;
    var prevIsVowel := false;
    for i := 0 to |w|
      invariant count == VowelGroups(w[..i])
      invariant prevIsVowel <==> i > 0 && IsVowel(w[i - 1])
    {
      var isVowel := IsVowel(w[i]);
      VowelGroupsStep(w, i);
      if isVowel && !prevIsVowel {
        count := count + 1;
      }
      prevIsVowel := isVowel;
    }
    assert w[..|w|] == w;
  }

  lemma VowelGroupsStep(w: string, i: nat)
    requires i < |w|
    ensures VowelGroups(w[..i + 1])
         == VowelGroups(w[..i]) + (if IsVowel(w[i]) && (i == 0 || !IsVowel(w[i - 1])) then 1 else 0)
  {
    assert w[..i + 1][..i] == w[..i];
  }

  /** A word never has more syllables than one plus its vowel groups (the consonant-`le` bonus). */
  lemma {:induction false} SyllablesAtMostVowelGroupsPlusOne(word: string)
    ensures Syllables(word) <= VowelGroups(Letters(word)) + 1
  {
  }

  // ---------------------------------------------------------------------------
  // Words and sentences

  /** `s.split(c)` at every character for which `isSep` holds. */
  function Pieces(s: string, isSep: char -> bool): (ps: seq<string>)
    ensures |ps| >= 1
    decreases |s|
  {
    if s == [] then [""]
    else if isSep(s[0]) then [""] + Pieces(s[1..], isSep)
    else
      var rest := Pieces(s[1..], isSep);
      [[s[0]] + rest[0]] + rest[1..]
  }

  /** The pieces hold only characters of the string. */
  lemma {:induction false} PiecesChars(s: string, isSep: char -> bool)
    ensures forall p, c :: p in Pieces(s, isSep) && c in p ==> c in s
    decreases |s|
  {
    if s != [] {
      PiecesChars(s[1..], isSep);
      var rest := Pieces(s[1..], isSep);
      assert forall c :: c in s[1..] ==> c in s;
      assert forall p :: p in rest[1..] ==> p in rest;
      assert forall c :: c in [s[0]] + rest[0] ==> c == s[0] || c in rest[0];
    }
  }

  /** Every character that is not a separator lands in some piece. */
  lemma {:induction false} PiecesCover(s: string, isSep: char -> bool, i: nat)
    requires i < |s| && !isSep(s[i])
    ensures exists p :: p in Pieces(s, isSep) && s[i] in p
    decreases |s|
  {
    var ps := Pieces(s, isSep);
    if i == 0 {
      assert s[0] in ps[0];
    } else {
      PiecesCover(s[1..], isSep, i - 1);
      var rest := Pieces(s[1..], isSep);
      var p :| p in rest && s[1..][i - 1] in p;
      if isSep(s[0]) {
        assert p in ps;
      } else if p == rest[0] {
        assert s[i] in ps[0];
      } else {
        var k :| 0 < k < |rest| && rest[k] == p;
        assert ps[k] == p;
      }
    }
  }

  predicate HasLetter(p: string) {
    exists c :: c in p && IsAsciiLetter(c)
  }

  predicate IsSentenceEnd(c: char) { c == '.' || c == '!' || c == '?' }

  /** `list.filter(keep)` */
  function Filter(ps: seq<string>, keep: string -> bool): (r: seq<string>)
    ensures |r| <= |ps|
    decreases |ps|
  {
    if ps == [] then []
    else (if keep(ps[0]) then [ps[0]] else []) + Filter(ps[1..], keep)
  }

  lemma {:induction false} FilterNone(ps: seq<string>, keep: string -> bool)
    requires forall p :: p in ps ==> !keep(p)
    ensures Filter(ps, keep) == []
    decreases |ps|
  {
    if ps != [] {
      assert ps[0] in ps;
      assert forall p :: p in ps[1..] ==> p in ps;
      FilterNone(ps[1..], keep);
    }
  }

  /** The filter keeps exactly the pieces that satisfy `keep`. */
  lemma {:induction false} FilterKeeps(ps: seq<string>, keep: string -> bool)
    ensures forall p :: p in Filter(ps, keep) <==> p in ps && keep(p)
    decreases |ps|
  {
    if ps != [] {
      FilterKeeps(ps[1..], keep);
      assert ps == [ps[0]] + ps[1..];
    }
  }

  /**
   * `text.split(/\s+/).filter(w => w.match(/[a-zA-Z]/))`. Splitting at each
   * white-space character instead of at each run only adds empty pieces,
   * which the filter drops.
   */
  function Words(text: string): seq<string> {
    Filter(Pieces(text, IsWhitespace), HasLetter)
  }

  /** `text.split(/[.!?]+/).filter(s => s.trim().length > 0)`, with the same remark on runs. */
  function Sentences(text: string): seq<string> {
    Filter(Pieces(text, IsSentenceEnd), s => Trim(s) != [])
  }

  /** The readability result: `words` is missing (`undefined`) in the empty-input branch. */
  datatype Readability = Readability(grade: real, words: Option<nat>)

  function SumSyllables(ws: seq<string>): nat
    decreases |ws|
  {
    if ws == [] then 0 else Syllables(ws[0]) + SumSyllables(ws[1..])
  }

  /**
   * The rounded Flesch-Kincaid grade for a count of words, sentences and
   * syllables, all positive but the syllables; its floating-point formula is
   * not modelled.
   */
  type GradeFormula = (nat, nat, nat) -> real

  /** `calculateReadability(text)` */
  function CalculateReadability(text: string, formula: GradeFormula): (r: Readability)
    ensures |Sentences(text)| == 0 || |Words(text)| == 0 <==> r == Readability(0.0, None)
    ensures r.words.Some? ==> r.words.value == |Words(text)| > 0
    ensures r.words.Some? ==> r.grade == formula(|Words(text)|, |Sentences(text)|, SumSyllables(Words(text)))
  {
    var sentences := Sentences(text);
    var words := Words(text);
    if |sentences| == 0 || |words| == 0 then Readability(0.0, None)
    else Readability(formula(|words|, |sentences|, SumSyllables(words)), Some(|words|))
  }

  /** The empty-input branch is taken exactly when the text has no ASCII letter. */
  lemma EmptyReadabilityIffNoLetter(text: string, formula: GradeFormula)
    ensures CalculateReadability(text, formula).words.None? <==> forall i :: 0 <= i < |text| ==> !IsAsciiLetter(text[i])
  {
    if i :| 0 <= i < |text| && IsAsciiLetter(text[i]) {
      PiecesCover(text, IsWhitespace, i);
      var w :| w in Pieces(text, IsWhitespace) && text[i] in w;
      assert HasLetter(w);
      FilterKeeps(Pieces(text, IsWhitespace), HasLetter);
      assert w in Words(text);
      PiecesCover(text, IsSentenceEnd, i);
      var s :| s in Pieces(text, IsSentenceEnd) && text[i] in s;
      var j :| 0 <= j < |s| && s[j] == text[i];
      TrimEmptyIffBlank(s);
      assert Trim(s) != [];
      FilterKeeps(Pieces(text, IsSentenceEnd), s => Trim(s) != []);
      assert s in Sentences(text);
    } else {
      PiecesChars(text, IsWhitespace);
      assert forall w :: w in Pieces(text, IsWhitespace) ==> !HasLetter(w);
      FilterNone(Pieces(text, IsWhitespace), HasLetter);
    }
  }

  // ---------------------------------------------------------------------------
  // The checks

  /** One entry of `report.checks` (its message is not modelled). */
  datatype Check = Check(name: string, passed: bool, penalty: nat)

  /** What `checkQuality` reads from a draft. `hasCover` is the truthiness of `cover_image`. */
  datatype Draft = Draft(title: string, tagCount: nat, content: string, inlineImages: nat, hasCover: bool)

  function TitlePenalty(titleLength: nat): (p: nat)
    ensures titleLength < 30 ==> p == 10
    ensures titleLength > 70 ==> p == 5
    ensures 30 <= titleLength <= 70 ==> p == 0
  {
    if titleLength < 30 then 10 else if titleLength > 70 then 5 else 0
  }

  function TagsPenalty(tagCount: nat): (p: nat)
    ensures p == if 3 <= tagCount <= 5 then 0 else 5
  {
    if tagCount < 3 then 5 else if tagCount > 5 then 5 else 0
  }

  function ReadabilityPenalty(grade: real): (p: nat)
    ensures p == if 6.0 <= grade <= 14.0 then 0 else 10
  {
    if grade < 6.0 then 10 else if grade > 14.0 then 10 else 0
  }

  /**
   * The word-count rule as written: a missing count (`undefined`) fails all
   * three comparisons and so costs nothing.
   */
  function WordCountPenaltyAsWritten(words: Option<nat>): (p: nat)
    ensures words.None? ==> p == 0
    ensures words.Some? ==> p == WordCountPenalty(words.value)
  {
    match words
    case None => 0
    case Some(n) => WordCountPenalty(n)
  }

  /** The word-count rule on a count: under 800 costs 15, under 1500 or over 4000 costs 5. */
  function WordCountPenalty(n: nat): (p: nat)
    ensures n < 800 ==> p == 15
    ensures 800 <= n < 1500 || n > 4000 ==> p == 5
    ensures 1500 <= n <= 4000 ==> p == 0
  {
    if n < 800 then 15 else if n < 1500 then 5 else if n > 4000 then 5 else 0
  }

  /** An article without a single ASCII letter passes the word-count check as written. */
  lemma EmptyArticlePassesWordCount(formula: GradeFormula)
    ensures CalculateReadability("", formula).words.None?
    ensures WordCountPenaltyAsWritten(CalculateReadability("", formula).words) == 0
    ensures WordCountPenalty(|Words("")|) == 15
  {
    assert Pieces("", IsWhitespace) == [""];
    assert !HasLetter("");
    assert Words("") == [];
  }

  /** The count the corrected rule uses: the empty branch counts zero words. */
  function WordCount(r: Readability): (n: nat)
    ensures r.words.Some? ==> n == r.words.value
    ensures r.words.None? ==> n == 0
  {
    r.words.GetOr(0)
  }

  function ImagesPenalty(inlineImages: nat, hasCover: bool): (p: nat)
    ensures inlineImages == 0 && !hasCover ==> p == 15
    ensures inlineImages == 0 && hasCover ==> p == 5
    ensures inlineImages > 0 ==> p == 0
  {
    var total := inlineImages + (if hasCover then 1 else 0);
    if total == 0 then 15 else if total == 1 && hasCover then 5 else 0
  }

  /** The phrases that count as a call to action, matched in the lower-cased content. */
  const CtaPhrases: seq<string> := ["download", "try it", "get started", "app store"]

  predicate HasCallToAction(content: string) {
    exists i :: 0 <= i < |CtaPhrases| && Contains(ToLower(content), CtaPhrases[i])
  }

  function CtaPenalty(content: string): (p: nat)
    ensures p == if HasCallToAction(content) then 0 else 10
  {
    var lower := ToLower(content);
    assert CtaPhrases[0] == "download" && CtaPhrases[1] == "try it";
    assert CtaPhrases[2] == "get started" && CtaPhrases[3] == "app store";
    if Contains(lower, "download") || Contains(lower, "try it") || Contains(lower, "get started")
       || Contains(lower, "app store") then 0 else 10
  }

  const CheckNames: seq<string> := ["Title Length", "Tags", "Readability", "Word Count", "Images", "Call to Action"]

  function SumPenalties(checks: seq<Check>): nat
    decreases |checks|
  {
    if checks == [] then 0 else SumPenalties(checks[..|checks| - 1]) + checks[|checks| - 1].penalty
  }

  lemma SumPenaltiesAppend(checks: seq<Check>, c: Check)
    ensures SumPenalties(checks + [c]) == SumPenalties(checks) + c.penalty
  {
    assert (checks + [c])[..|checks|] == checks;
  }

  /** `report.grade` for a score: bands of ten points from 90 down, F below 60. */
  function GradeOf(score: int): (g: char)
    ensures g == 'A' <==> score >= 90
    ensures g == 'B' <==> 80 <= score < 90
    ensures g == 'C' <==> 70 <= score < 80
    ensures g == 'D' <==> 60 <= score < 70
    ensures g == 'F' <==> score < 60
    ensures g in {'A', 'B', 'C'} <==> score >= 70
  {
    if score >= 90 then 'A' else if score >= 80 then 'B' else if score >= 70 then 'C'
    else if score >= 60 then 'D' else 'F'
  }

  datatype Report = Report(score: int, checks: seq<Check>, passed: bool, grade: char)

  /** The most each check can take off, in the order the gate runs them. */
  const PenaltyCaps: seq<nat> := [10, 5, 10, 15, 15, 10]

  /** The six penalties of a draft, in the order the gate runs the checks. */
  function Penalties(d: Draft, formula: GradeFormula): (ps: seq<nat>)
    ensures |ps| == 6
  {
    var readability := CalculateReadability(d.content, formula);
    [TitlePenalty(Utf16Length(d.title)), TagsPenalty(d.tagCount), ReadabilityPenalty(readability.grade),
     WordCountPenaltyAsWritten(readability.words), ImagesPenalty(d.inlineImages, d.hasCover), CtaPenalty(d.content)]
  }

  /** No check takes off more than its cap. */
  lemma PenaltiesCapped(d: Draft, formula: GradeFormula)
    ensures forall i :: 0 <= i < 6 ==> Penalties(d, formula)[i] <= PenaltyCaps[i]
  {
    var readability := CalculateReadability(d.content, formula);
    var title := TitlePenalty(Utf16Length(d.title));
    var tags := TagsPenalty(d.tagCount);
    var grade := ReadabilityPenalty(readability.grade);
    var words := WordCountPenaltyAsWritten(readability.words);
    var images := ImagesPenalty(d.inlineImages, d.hasCover);
    var cta := CtaPenalty(d.content);
    assert words <= 15;
    SixWithinCaps(Penalties(d, formula), title, tags, grade, words, images, cta);
  }

  lemma SixWithinCaps(ps: seq<nat>, title: nat, tags: nat, grade: nat, words: nat, images: nat, cta: nat)
    requires ps == [title, tags, grade, words, images, cta]
    requires title <= 10 && tags <= 5 && grade <= 10 && words <= 15 && images <= 15 && cta <= 10
    ensures forall i :: 0 <= i < 6 ==> ps[i] <= PenaltyCaps[i]
  {
  }

  /** The checks that six penalties make, each pushed in the order the gate runs them. */
  function ChecksOf(ps: seq<nat>): seq<Check>
    requires |ps| == 6
  {
    [Check("Title Length", ps[0] == 0, ps[0])] + [Check("Tags", ps[1] == 0, ps[1])]
    + [Check("Readability", ps[2] == 0, ps[2])] + [Check("Word Count", ps[3] == 0, ps[3])]
    + [Check("Images", ps[4] == 0, ps[4])] + [Check("Call to Action", ps[5] == 0, ps[5])]
  }

  /** Check `i` carries the `i`-th name and penalty and passes exactly when that penalty is zero. */
  lemma ChecksOfShape(ps: seq<nat>)
    requires |ps| == 6
    ensures |ChecksOf(ps)| == 6
    ensures forall i :: 0 <= i < 6 ==> ChecksOf(ps)[i] == Check(CheckNames[i], ps[i] == 0, ps[i])
  {
  }

  /** The six checks of a draft, in the order the gate runs them. */
  function ChecksFor(d: Draft, formula: GradeFormula): seq<Check>
  {
    ChecksOf(Penalties(d, formula))
  }

  /** Each check of a draft is named as the gate names it, stays within its cap and passes iff it costs nothing. */
  lemma ChecksForShape(d: Draft, formula: GradeFormula)
    ensures |ChecksFor(d, formula)| == 6
    ensures forall i :: 0 <= i < 6 ==> ChecksFor(d, formula)[i].name == CheckNames[i]
    ensures forall i :: 0 <= i < 6 ==> ChecksFor(d, formula)[i].penalty <= PenaltyCaps[i]
    ensures forall i :: 0 <= i < 6 ==> (ChecksFor(d, formula)[i].passed <==> ChecksFor(d, formula)[i].penalty == 0)
  {
    ChecksOfShape(Penalties(d, formula));
    PenaltiesCapped(d, formula);
  }

  /** Subtracting six penalties one after the other subtracts their sum. */
  lemma ScoreIsSum(checks: seq<Check>)
    requires |checks| == 6
    ensures SumPenalties(checks) == checks[0].penalty + checks[1].penalty + checks[2].penalty
                                    + checks[3].penalty + checks[4].penalty + checks[5].penalty
  {
    assert checks[..5][..4] == checks[..4] && checks[..4][..3] == checks[..3];
    assert checks[..3][..2] == checks[..2] && checks[..2][..1] == checks[..1] && checks[..1][..0] == [];
    assert SumPenalties(checks[..1]) == checks[0].penalty;
    assert SumPenalties(checks[..2]) == SumPenalties(checks[..1]) + checks[1].penalty;
    assert SumPenalties(checks[..3]) == SumPenalties(checks[..2]) + checks[2].penalty;
    assert SumPenalties(checks[..4]) == SumPenalties(checks[..3]) + checks[3].penalty;
    assert SumPenalties(checks[..5]) == SumPenalties(checks[..4]) + checks[4].penalty;
  }

  /** Six penalties within their caps add up to at most 65. */
  lemma CappedSum(checks: seq<Check>)
    requires |checks| == 6 && forall i :: 0 <= i < 6 ==> checks[i].penalty <= PenaltyCaps[i]
    ensures SumPenalties(checks) <= 65
  {
    ScoreIsSum(checks);
  }

  /** The penalties can take at most 65 points off. */
  lemma PenaltiesAtMost65(d: Draft, formula: GradeFormula)
    ensures SumPenalties(ChecksFor(d, formula)) <= 65
  {
    ChecksForShape(d, formula);
    CappedSum(ChecksFor(d, formula));
  }

  /**
   * The gate applies the word-count rule only where there is a count: a
   * draft without an ASCII letter passes the Word Count check, where the
   * corrected rule would charge it 15; otherwise the two rules agree.
   */
  lemma WordCountCheckAsWritten(d: Draft, formula: GradeFormula)
    ensures (forall i :: 0 <= i < |d.content| ==> !IsAsciiLetter(d.content[i])) ==>
              ChecksFor(d, formula)[3] == Check("Word Count", true, 0)
              && WordCountPenalty(WordCount(CalculateReadability(d.content, formula))) == 15
    ensures (exists i :: 0 <= i < |d.content| && IsAsciiLetter(d.content[i])) ==>
              ChecksFor(d, formula)[3].penalty == WordCountPenalty(WordCount(CalculateReadability(d.content, formula)))
  {
    EmptyReadabilityIffNoLetter(d.content, formula);
    ChecksOfShape(Penalties(d, formula));
  }

  /** The penalties computed one by one are the penalties of the draft. */
  lemma PenaltiesInOrder(d: Draft, formula: GradeFormula, ps: seq<nat>)
    requires |ps| == 6
    requires ps[0] == TitlePenalty(Utf16Length(d.title)) && ps[1] == TagsPenalty(d.tagCount)
    requires ps[2] == ReadabilityPenalty(CalculateReadability(d.content, formula).grade)
    requires ps[3] == WordCountPenaltyAsWritten(CalculateReadability(d.content, formula).words)
    requires ps[4] == ImagesPenalty(d.inlineImages, d.hasCover) && ps[5] == CtaPenalty(d.content)
    ensures ChecksFor(d, formula) == ChecksOf(ps)
  {
    assert Penalties(d, formula) == ps;
  }

  /**
   * The body of `checkQuality(file)`: six checks in a fixed order, each
   * pushed and subtracting its penalty from a score that starts at 100. An
   * article without ASCII letters has no word count and passes the word-count
   * check.
   */
  method RunChecks(d: Draft, formula: GradeFormula) returns (score: int, checks: seq<Check>)
    ensures checks == ChecksFor(d, formula)
    ensures score == 100 - SumPenalties(checks)
  {
    score := 100;
    checks := [];

    var title := TitlePenalty(Utf16Length(d.title));
    SumPenaltiesAppend(checks, Check("Title Length", title == 0, title));
    checks, score := checks + [Check("Title Length", title == 0, title)], score - title;

    var tags := TagsPenalty(d.tagCount);
    SumPenaltiesAppend(checks, Check("Tags", tags == 0, tags));
    checks, score := checks + [Check("Tags", tags == 0, tags)], score - tags;

    var readability := CalculateReadability(d.content, formula);
    var grade := ReadabilityPenalty(readability.grade);
    SumPenaltiesAppend(checks, Check("Readability", grade == 0, grade));
    checks, score := checks + [Check("Readability", grade == 0, grade)], score - grade;

    var words := WordCountPenaltyAsWritten(readability.words);
    SumPenaltiesAppend(checks, Check("Word Count", words == 0, words));
    checks, score := checks + [Check("Word Count", words == 0, words)], score - words;

    var images := ImagesPenalty(d.inlineImages, d.hasCover);
    SumPenaltiesAppend(checks, Check("Images", images == 0, images));
    checks, score := checks + [Check("Images", images == 0, images)], score - images;

    var cta := CtaPenalty(d.content);
    SumPenaltiesAppend(checks, Check("Call to Action", cta == 0, cta));
    checks, score := checks + [Check("Call to Action", cta == 0, cta)], score - cta;

    assert checks == ChecksOf([title, tags, grade, words, images, cta]);
    PenaltiesInOrder(d, formula, [title, tags, grade, words, images, cta]);
  }

  /** `checkQuality(file)`: the report of the six checks, passing at 70 points or more. */
  method CheckQuality(d: Draft, formula: GradeFormula) returns (report: Report)
    ensures report.checks == ChecksFor(d, formula)
    ensures report.score == 100 - SumPenalties(report.checks)
    ensures 35 <= report.score <= 100
    ensures report.passed <==> report.score >= 70
    ensures report.grade == GradeOf(report.score)
    ensures report.passed <==> report.grade in {'A', 'B', 'C'}
  {
    var score, checks := RunChecks(d, formula);
    PenaltiesAtMost65(d, formula);
    report := Report(score, checks, score >= 70, GradeOf(score));
  }
}
