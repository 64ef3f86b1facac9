/**
 * Topic freshness (lib/trend-validator.js): the record `validateTrend`
 * returns, the rule that rejects a stale topic, and the avoidance text
 * injected into the draft prompt.
 *
 * The model's reply is taken as already parsed: a `Reply`, or the message of
 * whatever the request or `JSON.parse` threw.
 */
module TrendValidator {
  import opened Wrappers
  import opened Text

  datatype Risk = Risk(term: string, risk: string, replacement: string)

  /**
   * A validation record. `suggestedReplacements` holds the object's entries
   * in the order `Object.entries` lists them; a key the reply leaves out is
   * `None`.
   */
  datatype Validation = Validation(
    success: bool,
    isRelevant: bool,
    confidenceScore: int,
    reasoning: string,
    outdatedRisks: Option<seq<Risk>>,
    suggestedReplacements: Option<seq<(string, string)>>,
    recommendations: Option<seq<string>>,
    error: Option<string>)

  /** The parsed reply; it may carry a `success` key of its own. */
  datatype Reply = Reply(
    success: Option<bool>,
    isRelevant: bool,
    confidenceScore: int,
    reasoning: string,
    outdatedRisks: Option<seq<Risk>>,
    suggestedReplacements: Option<seq<(string, string)>>,
    recommendations: Option<seq<string>>)

  // ---------------------------------------------------------------------------
  // validateTrend

  const FallbackConfidence: int := 50
  const FallbackReasoning: string := "Validation failed, proceeding with caution"

  /** The record returned from the `catch` block: accept the topic, with caution. */
  function FailureFallback(message: string): (v: Validation)
    ensures !v.success && v.isRelevant
    ensures v.confidenceScore == 50
    ensures v.outdatedRisks == Some([]) && v.suggestedReplacements == Some([])
    ensures v.recommendations.None?
    ensures v.error == Some(message)
  {
    Validation(false, true, FallbackConfidence, FallbackReasoning, Some([]), Some([]), None, Some(message))
  }

  /**
   * `validateTrend(topic)` once the reply is known: `{ success: true, ...result }`
   * on a parsed reply, where a `success` key in the reply overrides the
   * literal `true`, and the fallback when anything threw.
   */
  function ValidationOf(reply: Result<Reply>): (v: Validation)
    ensures reply.Err? ==> v == FailureFallback(reply.message)
    ensures reply.Ok? ==> v.success == reply.value.success.GetOr(true) && v.error.None?
    ensures reply.Ok? ==> v.isRelevant == reply.value.isRelevant && v.confidenceScore == reply.value.confidenceScore
    ensures reply.Ok? ==> v.reasoning == reply.value.reasoning && v.outdatedRisks == reply.value.outdatedRisks
    ensures reply.Ok? ==> v.suggestedReplacements == reply.value.suggestedReplacements
                          && v.recommendations == reply.value.recommendations
  {
    match reply
    case Err(message) => FailureFallback(message)
    case Ok(r) =>
      Validation(r.success.GetOr(true), r.isRelevant, r.confidenceScore, r.reasoning,
                 r.outdatedRisks, r.suggestedReplacements, r.recommendations, None)
  }

  // ---------------------------------------------------------------------------
  // shouldRejectTopic

  const DefaultThreshold: int := 40

  /** `shouldRejectTopic(validationResult, threshold)`. */
  function ShouldRejectTopic(v: Validation, threshold: int): (reject: bool)
    ensures reject ==> !v.isRelevant
    ensures reject ==> v.confidenceScore < threshold
  {
    !v.isRelevant && v.confidenceScore < threshold
  }

  /**
   * With the default threshold, exactly the topics judged irrelevant with a
   * confidence below 40 are rejected.
   */
  lemma RejectIffUnderDefault(v: Validation)
    ensures ShouldRejectTopic(v, DefaultThreshold) <==> !v.isRelevant && v.confidenceScore < 40
  {
  }

  /** A topic judged relevant is kept whatever its score. */
  lemma RelevantNeverRejected(v: Validation, threshold: int)
    requires v.isRelevant
    ensures !ShouldRejectTopic(v, threshold)
  {
  }

  /** A failed validation never rejects the topic, whatever the threshold. */
  lemma FailureNeverRejects(message: string, threshold: int)
    ensures !ShouldRejectTopic(ValidationOf(Err(message)), threshold)
  {
  }

  /** Raising the threshold rejects at least the topics rejected before. */
  lemma RejectionMonotone(v: Validation, low: int, high: int)
    requires low <= high
    ensures ShouldRejectTopic(v, low) ==> ShouldRejectTopic(v, high)
  {
  }

  // ---------------------------------------------------------------------------
  // buildAvoidanceInstructions

  const TrendHeading: string := "\n## IMPORTANT: Trend Awareness\n"
  const AlternativesIntro: string := "The following terms may be outdated. Use the suggested alternatives:\n\n"
  const RecommendationsHeading: string := "\n### Additional Recommendations:\n"

  /** What `Object.entries(undefined)` throws when the reply has risks but no replacements. */
  const EntriesOfUndefined: string := "Cannot convert undefined or null to object"

  function ReplacementLine(entry: (string, string)): string {
    "- ❌ Do NOT mention \"" + entry.0 + "\" → ✅ Use \"" + entry.1 + "\" instead\n"
  }

  function RecommendationLine(rec: string): string {
    "- " + rec + "\n"
  }

  /** `outdatedRisks?.length` is truthy: the list is present and not empty. */
  predicate HasRisks(v: Validation) {
    v.outdatedRisks.Some? && |v.outdatedRisks.value| > 0
  }

  predicate HasRecommendations(recs: Option<seq<string>>) {
    recs.Some? && |recs.value| > 0
  }

  function ReplacementLines(entries: seq<(string, string)>): (lines: seq<string>)
    ensures |lines| == |entries|
  {
    seq(|entries|, i requires 0 <= i < |entries| => ReplacementLine(entries[i]))
  }

  function RecommendationSection(recs: Option<seq<string>>): (lines: seq<string>)
    ensures |lines| == if HasRecommendations(recs) then |recs.value| + 1 else 0
  {
    if HasRecommendations(recs) then
      [RecommendationsHeading] + seq(|recs.value|, i requires 0 <= i < |recs.value| => RecommendationLine(recs.value[i]))
    else []
  }

  /** The lines of the avoidance text, in the order they are appended. */
  function AvoidanceLines(entries: seq<(string, string)>, recs: Option<seq<string>>): seq<string> {
    [TrendHeading, AlternativesIntro] + ReplacementLines(entries) + RecommendationSection(recs)
  }

  /** The value `buildAvoidanceInstructions` returns, or the error it throws. */
  function AvoidanceInstructions(v: Validation): Result<string> {
    if !v.success || !HasRisks(v) then Ok("")
    else if v.suggestedReplacements.None? then Err(EntriesOfUndefined)
    else Ok(Concat(AvoidanceLines(v.suggestedReplacements.value, v.recommendations)))
  }

  /** `buildAvoidanceInstructions(validationResult)`, appending line by line. */
  method BuildAvoidanceInstructions(v: Validation) returns (r: Result<string>)
    ensures r == AvoidanceInstructions(v)
  {
    if !v.success || v.outdatedRisks.None? || |v.outdatedRisks.value| == 0 {
      return Ok("");
    }
    if v.suggestedReplacements.None? {
      return Err(EntriesOfUndefined);
    }
    var entries := v.suggestedReplacements.value;
    var instructions := TrendHeading;
    instructions := instructions + AlternativesIntro;
    ghost var lines := [TrendHeading, AlternativesIntro];
    ConcatPair(TrendHeading, AlternativesIntro);
    for i := 0 to |entries|
      invariant lines == [TrendHeading, AlternativesIntro] + ReplacementLines(entries[..i])
      invariant instructions == Concat(lines)
    {
      ConcatSnoc(lines, ReplacementLine(entries[i]));
      instructions := instructions + ReplacementLine(entries[i]);
      lines := lines + [ReplacementLine(entries[i])];
      assert ReplacementLines(entries[..i + 1]) == ReplacementLines(entries[..i]) + [ReplacementLine(entries[i])];
    }
    assert entries[..|entries|] == entries;
    var recs := v.recommendations;
    if recs.Some? && |recs.value| > 0 {
      var section := BuildRecommendations(recs.value);
      ConcatAppend(lines, RecommendationSection(recs));
      instructions := instructions + section;
    } else {
      assert lines + RecommendationSection(recs) == lines;
    }
    return Ok(instructions);
  }

  /** The recommendations block: its heading, then one bullet per recommendation. */
  method BuildRecommendations(recs: seq<string>) returns (s: string)
    requires |recs| > 0
    ensures s == Concat(RecommendationSection(Some(recs)))
  {
    s := RecommendationsHeading;
    ghost var lines := [RecommendationsHeading];
    ConcatSnoc([], RecommendationsHeading);
    for i := 0 to |recs|
      invariant lines == [RecommendationsHeading] + seq(i, k requires 0 <= k < i => RecommendationLine(recs[k]))
      invariant s == Concat(lines)
    {
      ConcatSnoc(lines, RecommendationLine(recs[i]));
      s := s + RecommendationLine(recs[i]);
      lines := lines + [RecommendationLine(recs[i])];
    }
  }

  // ---------------------------------------------------------------------------
  // What the avoidance text says

  /** Nothing to avoid, or a failed validation, gives no text at all. */
  lemma NothingToAvoid(v: Validation)
    requires !v.success || v.outdatedRisks.None? || v.outdatedRisks == Some([])
    ensures AvoidanceInstructions(v) == Ok("")
  {
  }

  /** The fallback record never produces avoidance text. */
  lemma FailureGivesNoAvoidance(message: string)
    ensures AvoidanceInstructions(ValidationOf(Err(message))) == Ok("")
  {
  }

  /** Risks without a replacements object make the call throw. */
  lemma RisksWithoutReplacementsThrow(v: Validation)
    requires v.success && HasRisks(v) && v.suggestedReplacements.None?
    ensures AvoidanceInstructions(v) == Err(EntriesOfUndefined)
  {
  }

  /** The text opens with the heading and the introduction. */
  lemma AvoidanceStartsWithHeading(entries: seq<(string, string)>, recs: Option<seq<string>>)
    ensures TrendHeading + AlternativesIntro <= Concat(AvoidanceLines(entries, recs))
  {
    ConcatStartsWithPair(TrendHeading, AlternativesIntro, ReplacementLines(entries), RecommendationSection(recs));
  }

  /** One "Do NOT mention" line per replacement entry, in entry order, right after the heading. */
  lemma ReplacementLinesInEntryOrder(entries: seq<(string, string)>, recs: Option<seq<string>>)
    ensures forall i :: 0 <= i < |entries| ==> AvoidanceLines(entries, recs)[2 + i] == ReplacementLine(entries[i])
    ensures |AvoidanceLines(entries, recs)| == 2 + |entries| + |RecommendationSection(recs)|
  {
  }

  /** Every replacement entry is named in the text. */
  lemma EveryReplacementMentioned(entries: seq<(string, string)>, recs: Option<seq<string>>, i: nat)
    requires i < |entries|
    ensures Contains(Concat(AvoidanceLines(entries, recs)), ReplacementLine(entries[i]))
  {
    ReplacementLinesInEntryOrder(entries, recs);
    ConcatContainsPiece(AvoidanceLines(entries, recs), 2 + i);
  }

  /** The recommendations heading is one of the lines exactly when there are recommendations. */
  lemma RecommendationsOnlyWhenPresent(entries: seq<(string, string)>, recs: Option<seq<string>>)
    ensures RecommendationsHeading in AvoidanceLines(entries, recs) <==> HasRecommendations(recs)
  {
    var lines := AvoidanceLines(entries, recs);
    if HasRecommendations(recs) {
      assert lines[2 + |entries|] == RecommendationsHeading;
    } else {
      assert |TrendHeading| == 31 && |AlternativesIntro| == 70 && |RecommendationsHeading| == 33;
      assert RecommendationsHeading[0] == '\n';
      forall i | 0 <= i < |entries|
        ensures ReplacementLine(entries[i])[0] == '-'
      {
      }
      assert lines == [TrendHeading, AlternativesIntro] + ReplacementLines(entries);
    }
  }
}
