/**
 * Channel tone profiles (lib/tone-profiles.js): the profile table, the lookup
 * of a profile by platform id, the list of ids, and the prompt section that
 * tells the writer how to address a channel.
 */
module ToneProfiles {
  import opened Wrappers
  import opened Text
  import JsObjects

  // ---------------------------------------------------------------------------
  // The table

  datatype Emoji = Emoji(allowed: bool, frequency: string, examples: seq<string>)

  /** A missing `avoidBold` reads as false. */
  datatype Formatting = Formatting(codeBlocks: bool, headers: string, maxParagraphLength: nat,
                                   bulletPoints: bool, avoidBold: bool)

  datatype Voice = Voice(personalStory: bool, firstPerson: bool, conversational: bool, honorifics: Option<string>)

  datatype CallToAction = CallToAction(style: string, placement: string)

  datatype Seo = Seo(titleMaxLength: nat, tagsCount: nat, descriptionLength: nat)

  datatype Profile = Profile(
    id: string,
    language: string,
    style: string,
    emoji: Emoji,
    formatting: Formatting,
    voice: Voice,
    callToAction: CallToAction,
    seo: Seo)

  const DevtoProfile: Profile := Profile(
    "devto", "en", "casual",
    Emoji(true, "moderate", ["\U{1F680}", "\U{1F4A1}", "\U{1F525}", "\U{2728}"]),
    Formatting(true, "h2", 150, true, false),
    Voice(true, true, true, None),
    CallToAction("soft", "end"),
    Seo(60, 4, 160))

  const HashnodeProfile: Profile := Profile(
    "hashnode", "en", "professional",
    Emoji(false, "none", []),
    Formatting(true, "h2", 200, true, false),
    Voice(false, false, false, None),
    CallToAction("minimal", "end"),
    Seo(60, 5, 160))

  const BloggerKrProfile: Profile := Profile(
    "blogger_kr", "ko", "warm",
    Emoji(false, "none", []),
    Formatting(false, "h2", 100, true, true),
    Voice(true, true, true, Some("~습니다")),
    CallToAction("soft", "end"),
    Seo(50, 10, 150))

  /** `toneProfiles`: the profiles by platform id. */
  const Profiles: map<string, Profile> :=
    map["devto" := DevtoProfile, "hashnode" := HashnodeProfile, "blogger_kr" := BloggerKrProfile]

  /** The order in which the table declares its keys, which `Object.keys` keeps. */
  const DeclarationOrder: seq<string> := ["devto", "hashnode", "blogger_kr"]

  /** Every profile is stored under its own id. */
  lemma ProfilesKeyedById()
    ensures forall key :: key in Profiles ==> Profiles[key].id == key
  {
  }

  /** Only the Korean profile asks for honorifics and for avoiding bold text. */
  lemma OnlyKoreanProfileIsFormal()
    ensures forall key :: key in Profiles ==> (HasHonorifics(Profiles[key]) <==> key == "blogger_kr")
    ensures forall key :: key in Profiles ==> (Profiles[key].formatting.avoidBold <==> key == "blogger_kr")
  {
  }

  // ---------------------------------------------------------------------------
  // Lookup

  /** `getAvailableProfiles()`: the table's keys, in declaration order, each once. */
  function GetAvailableProfiles(): (ids: seq<string>)
    ensures forall id :: id in ids <==> id in Profiles
    ensures |ids| == |Profiles.Keys|
    ensures forall i, j :: 0 <= i < j < |ids| ==> ids[i] != ids[j]
  {
    assert Profiles.Keys == {"devto", "hashnode", "blogger_kr"};
    DeclarationOrder
  }

  function UnknownPlatformMessage(platformId: string): string {
    "Unknown platform: " + platformId + ". Available: " + Join(GetAvailableProfiles(), ", ")
  }

  /**
   * `getProfile(platformId)` looking up the table's own keys only: the
   * profile, or the error it throws for any other id.
   */
  function GetProfile(platformId: string): (r: Result<Profile>)
    ensures r.Ok? <==> platformId in GetAvailableProfiles()
    ensures r.Ok? ==> r.value == Profiles[platformId] && r.value.id == platformId
    ensures r.Err? ==> r.message == UnknownPlatformMessage(platformId)
  {
    if platformId in Profiles then Ok(Profiles[platformId]) else Err(UnknownPlatformMessage(platformId))
  }

  /** What `toneProfiles[platformId]` yields on the object literal. */
  datatype PropertyValue = OwnProfile(profile: Profile) | InheritedMember(key: string) | Undefined

  function ProfileProperty(platformId: string): PropertyValue {
    if platformId in Profiles then OwnProfile(Profiles[platformId])
    else if platformId in JsObjects.PrototypeKeys then InheritedMember(platformId)
    else Undefined
  }

  /** `getProfile` as written: `if (!profile) throw`, which an inherited member passes. */
  function GetProfileAsWritten(platformId: string): (r: Result<PropertyValue>)
    ensures r.Ok? <==> platformId in Profiles || platformId in JsObjects.PrototypeKeys
  {
    var v := ProfileProperty(platformId);
    if v.Undefined? then Err(UnknownPlatformMessage(platformId)) else Ok(v)
  }

  /** `getProfile('constructor')` returns the `Object` function instead of throwing. */
  lemma InheritedKeyReturnsNoProfile()
    ensures GetProfileAsWritten("constructor").Ok?
    ensures GetProfileAsWritten("constructor").value.InheritedMember?
    ensures GetProfile("constructor").Err?
  {
    assert "constructor" !in DeclarationOrder;
  }

  /** Apart from the inherited keys, the lookup as written and the own-key lookup agree. */
  lemma LookupsAgreeOffPrototype(platformId: string)
    requires platformId !in JsObjects.PrototypeKeys
    ensures GetProfileAsWritten(platformId).Ok? <==> GetProfile(platformId).Ok?
    ensures GetProfile(platformId).Ok? ==> GetProfileAsWritten(platformId).value == OwnProfile(GetProfile(platformId).value)
    ensures GetProfile(platformId).Err? ==> GetProfileAsWritten(platformId).message == GetProfile(platformId).message
  {
  }

  // ---------------------------------------------------------------------------
  // buildPromptInstructions

  predicate HasHonorifics(p: Profile) {
    p.voice.honorifics.Some? && p.voice.honorifics.value != ""
  }

  const HeaderPrefix: string := "## Tone & Style Guide for "

  function Header(p: Profile): string {
    HeaderPrefix + ToUpper(p.id) + "\n\n"
  }

  function LanguageLine(p: Profile): string {
    "**Language**: " + (if p.language == "ko" then "Korean (한국어)" else "English") + "\n"
  }

  function StyleLine(p: Profile): string {
    "**Style**: " + p.style + "\n"
  }

  function EmojiAllowedLine(e: Emoji): string {
    "**Emoji**: Allowed (" + e.frequency + " frequency). Examples: " + Join(e.examples, " ") + "\n"
  }

  const EmojiForbiddenLine: string := "**Emoji**: NOT allowed. Do not use any emoji.\n"

  function EmojiLine(p: Profile): string {
    if p.emoji.allowed then EmojiAllowedLine(p.emoji) else EmojiForbiddenLine
  }

  const VoiceHeading: string := "**Voice**:\n"

  function PersonalStoryLine(p: Profile): string {
    "  - Personal stories: " + (if p.voice.personalStory then "OK" else "Avoid") + "\n"
  }

  function FirstPersonLine(p: Profile): string {
    "  - First person: " + (if p.voice.firstPerson then "Use \"I/my\"" else "Use \"we\" or passive voice") + "\n"
  }

  const HonorificsPrefix: string := "  - Honorifics: Use "

  function HonorificsLine(h: string): string {
    HonorificsPrefix + h + " (formal Korean)\n"
  }

  const FormattingHeading: string := "**Formatting**:\n"

  function CodeBlocksLine(p: Profile): string {
    "  - Code blocks: " + (if p.formatting.codeBlocks then "Include" else "Avoid") + "\n"
  }

  function MaxParagraphLine(p: Profile): string {
    "  - Max paragraph: ~" + NatToString(p.formatting.maxParagraphLength) + " words\n"
  }

  const AvoidBoldLine: string := "  - Avoid **bold** markdown emphasis\n"

  function CallToActionLine(p: Profile): string {
    "**Call to Action**: " + p.callToAction.style + " style at " + p.callToAction.placement + "\n"
  }

  const SeoHeading: string := "**SEO Constraints**:\n"

  function TitleLine(p: Profile): string {
    "  - Title: max " + NatToString(p.seo.titleMaxLength) + " characters\n"
  }

  function TagsLine(n: nat): string {
    "  - Tags: max " + NatToString(n) + "\n"
  }

  /** Header, language, style, emoji and the voice lines every profile gets. */
  function Opening(p: Profile): seq<string> {
    [Header(p), LanguageLine(p), StyleLine(p), EmojiLine(p), VoiceHeading, PersonalStoryLine(p), FirstPersonLine(p)]
  }

  function HonorificsLines(p: Profile): seq<string> {
    if HasHonorifics(p) then [HonorificsLine(p.voice.honorifics.value)] else []
  }

  function FormattingLines(p: Profile): seq<string> {
    [FormattingHeading, CodeBlocksLine(p), MaxParagraphLine(p)]
  }

  function AvoidBoldLines(p: Profile): seq<string> {
    if p.formatting.avoidBold then [AvoidBoldLine] else []
  }

  function Closing(p: Profile): seq<string> {
    [CallToActionLine(p), SeoHeading, TitleLine(p), TagsLine(p.seo.tagsCount)]
  }

  /** The lines of the prompt section, in the order they are appended. */
  function PromptLines(p: Profile): seq<string> {
    Opening(p) + HonorificsLines(p) + FormattingLines(p) + AvoidBoldLines(p) + Closing(p)
  }

  function PromptInstructions(p: Profile): string {
    Concat(PromptLines(p))
  }

  /**
   * `buildPromptInstructions(platformId)`: the error of `getProfile` for an
   * unknown id, otherwise the section appended line by line.
   */
  method BuildPromptInstructions(platformId: string) returns (r: Result<string>)
    ensures GetProfile(platformId).Err? ==> r == Err(GetProfile(platformId).message)
    ensures GetProfile(platformId).Ok? ==> r == Ok(PromptInstructions(GetProfile(platformId).value))
  {
    var found := GetProfile(platformId);
    if found.Err? {
      return Err(found.message);
    }
    var p := found.value;
    var instructions := BuildOpening(p);
    ghost var lines := Opening(p);
    OptionalConcat(p);
    ConcatAppend(lines, HonorificsLines(p));
    if p.voice.honorifics.Some? && p.voice.honorifics.value != "" {
      instructions := instructions + HonorificsLine(p.voice.honorifics.value);
    } else {
      assert instructions + "" == instructions;
    }
    lines := lines + HonorificsLines(p);
    var formatting := BuildFormatting(p);
    ConcatAppend(lines, FormattingLines(p));
    instructions, lines := instructions + formatting, lines + FormattingLines(p);
    ConcatAppend(lines, AvoidBoldLines(p));
    if p.formatting.avoidBold {
      instructions := instructions + AvoidBoldLine;
    } else {
      assert instructions + "" == instructions;
    }
    lines := lines + AvoidBoldLines(p);
    var closing := BuildClosing(p);
    ConcatAppend(lines, Closing(p));
    instructions, lines := instructions + closing, lines + Closing(p);
    r := Ok(instructions);
  }

  /** Each optional group is its one line when present and nothing otherwise. */
  lemma OptionalConcat(p: Profile)
    ensures Concat(HonorificsLines(p)) == if HasHonorifics(p) then HonorificsLine(p.voice.honorifics.value) else ""
    ensures Concat(AvoidBoldLines(p)) == if p.formatting.avoidBold then AvoidBoldLine else ""
  {
    if HasHonorifics(p) {
      ConcatSnoc([], HonorificsLine(p.voice.honorifics.value));
    }
    if p.formatting.avoidBold {
      ConcatSnoc([], AvoidBoldLine);
    }
  }

  /** The formatting lines, appended one by one. */
  method BuildFormatting(p: Profile) returns (s: string)
    ensures s == Concat(FormattingLines(p))
  {
    ghost var lines: seq<string> := [];
    s := "";
    ConcatSnoc(lines, FormattingHeading);
    s, lines := s + FormattingHeading, lines + [FormattingHeading];
    ConcatSnoc(lines, CodeBlocksLine(p));
    s, lines := s + CodeBlocksLine(p), lines + [CodeBlocksLine(p)];
    ConcatSnoc(lines, MaxParagraphLine(p));
    s, lines := s + MaxParagraphLine(p), lines + [MaxParagraphLine(p)];
    assert lines == FormattingLines(p);
  }

  /** The opening lines, appended one by one. */
  method BuildOpening(p: Profile) returns (s: string)
    ensures s == Concat(Opening(p))
  {
    ghost var lines: seq<string> := [];
    s := "";
    ConcatSnoc(lines, Header(p));
    s, lines := s + Header(p), lines + [Header(p)];
    ConcatSnoc(lines, LanguageLine(p));
    s, lines := s + LanguageLine(p), lines + [LanguageLine(p)];
    ConcatSnoc(lines, StyleLine(p));
    s, lines := s + StyleLine(p), lines + [StyleLine(p)];
    ConcatSnoc(lines, EmojiLine(p));
    if p.emoji.allowed {
      s := s + EmojiAllowedLine(p.emoji);
    } else {
      s := s + EmojiForbiddenLine;
    }
    lines := lines + [EmojiLine(p)];
    ConcatSnoc(lines, VoiceHeading);
    s, lines := s + VoiceHeading, lines + [VoiceHeading];
    ConcatSnoc(lines, PersonalStoryLine(p));
    s, lines := s + PersonalStoryLine(p), lines + [PersonalStoryLine(p)];
    ConcatSnoc(lines, FirstPersonLine(p));
    s, lines := s + FirstPersonLine(p), lines + [FirstPersonLine(p)];
    assert lines == Opening(p);
  }

  /** The call-to-action and SEO lines, appended one by one. */
  method BuildClosing(p: Profile) returns (s: string)
    ensures s == Concat(Closing(p))
  {
    ghost var lines: seq<string> := [];
    s := "";
    ConcatSnoc(lines, CallToActionLine(p));
    s, lines := s + CallToActionLine(p), lines + [CallToActionLine(p)];
    ConcatSnoc(lines, SeoHeading);
    s, lines := s + SeoHeading, lines + [SeoHeading];
    ConcatSnoc(lines, TitleLine(p));
    s, lines := s + TitleLine(p), lines + [TitleLine(p)];
    ConcatSnoc(lines, TagsLine(p.seo.tagsCount));
    s, lines := s + TagsLine(p.seo.tagsCount), lines + [TagsLine(p.seo.tagsCount)];
    assert lines == Closing(p);
  }

  // ---------------------------------------------------------------------------
  // What the section says

  /** The section opens with the header naming the upper-cased id. */
  lemma PromptStartsWithHeader(p: Profile)
    ensures HeaderPrefix + ToUpper(p.id) <= PromptInstructions(p)
  {
    ConcatStartsWithFirst(PromptLines(p));
    assert PromptLines(p)[0] == Header(p);
  }

  /** The section ends with the tag limit of the profile. */
  lemma PromptEndsWithTagLimit(p: Profile)
    ensures EndsWith(PromptInstructions(p), TagsLine(p.seo.tagsCount))
  {
    ConcatEndsWithLast(PromptLines(p));
  }

  /** The emoji line forbids emoji exactly when the profile does not allow them. */
  lemma EmojiForbiddenIffNotAllowed(p: Profile)
    ensures EmojiForbiddenLine in PromptLines(p) <==> !p.emoji.allowed
  {
    assert PromptLines(p)[3] == EmojiLine(p);
    if p.emoji.allowed {
      OnlyEmojiLineIsKeyedE(p);
      EmojiForbiddenKey();
      EmojiAllowedKey(p.emoji);
    }
  }

  /** The honorifics line appears exactly when the profile sets honorifics, and then names them. */
  lemma HonorificsOnlyWhenSet(p: Profile)
    ensures (exists line :: line in PromptLines(p) && HonorificsPrefix <= line) <==> HasHonorifics(p)
    ensures HasHonorifics(p) ==> HonorificsLine(p.voice.honorifics.value) in PromptLines(p)
  {
    assert CharAt(HonorificsPrefix, 4) == 'H';
    forall line | line in PromptLines(p) && HonorificsPrefix <= line
      ensures HasHonorifics(p)
    {
      assert CharAt(line, 4) == 'H';
      OnlyHonorificsLineKeyedH(p);
      assert line in HonorificsLines(p);
    }
    if HasHonorifics(p) {
      var line := HonorificsLine(p.voice.honorifics.value);
      assert line in HonorificsLines(p);
      assert line in PromptLines(p);
      assert HonorificsPrefix <= line;
    }
  }

  /** The avoid-bold line appears exactly when the profile asks to avoid bold text. */
  lemma AvoidBoldOnlyWhenSet(p: Profile)
    ensures AvoidBoldLine in PromptLines(p) <==> p.formatting.avoidBold
  {
    AvoidBoldKey();
    if AvoidBoldLine in PromptLines(p) {
      OnlyAvoidBoldLineKeyedA(p);
    }
    if p.formatting.avoidBold {
      assert AvoidBoldLine in AvoidBoldLines(p);
    }
  }

  // ---------------------------------------------------------------------------
  // Telling the lines apart: the third character is `E` only on the emoji
  // line, and the fifth is `H` only on the honorifics line and `A` only on
  // the avoid-bold line.

  function CharAt(line: string, i: nat): char {
    if i < |line| then line[i] else '\n'
  }

  predicate Keyed(line: string, third: char, fifth: char) {
    CharAt(line, 2) == third && CharAt(line, 4) == fifth
  }

  lemma KeyedAppend(a: string, b: string, third: char, fifth: char)
    requires |a| > 4 && Keyed(a, third, fifth)
    ensures |a + b| > 4 && Keyed(a + b, third, fifth)
  {
  }

  lemma KeyedLiteral(head: string, mid: string, third: char, fifth: char)
    requires |head| > 4 && Keyed(head, third, fifth)
    ensures |head + mid + "\n"| > 4 && Keyed(head + mid + "\n", third, fifth)
  {
    KeyedAppend(head, mid, third, fifth);
    KeyedAppend(head + mid, "\n", third, fifth);
  }

  lemma OnlyEmojiLineIsKeyedE(p: Profile)
    ensures forall line :: line in PromptLines(p) && CharAt(line, 2) == 'E' ==> line == EmojiLine(p)
  {
    HeaderKey(p);
    LanguageKey(p);
    StyleKey(p);
    VoiceKeys(p);
    FormattingKeys(p);
    ClosingKeys(p);
    if HasHonorifics(p) {
      HonorificsKey(p.voice.honorifics.value);
    }
    AvoidBoldKey();
  }

  lemma OnlyHonorificsLineKeyedH(p: Profile)
    ensures forall line :: line in PromptLines(p) && CharAt(line, 4) == 'H' ==> line in HonorificsLines(p)
  {
    OpeningNotKeyed(p, 'H');
    FormattingKeys(p);
    ClosingKeys(p);
    AvoidBoldKey();
  }

  lemma OnlyAvoidBoldLineKeyedA(p: Profile)
    ensures forall line :: line in PromptLines(p) && CharAt(line, 4) == 'A' ==> line in AvoidBoldLines(p)
  {
    OpeningNotKeyed(p, 'A');
    FormattingKeys(p);
    ClosingKeys(p);
    if HasHonorifics(p) {
      HonorificsKey(p.voice.honorifics.value);
    }
  }

  /** No opening line has `H` or `A` as its fifth character. */
  lemma OpeningNotKeyed(p: Profile, fifth: char)
    requires fifth == 'H' || fifth == 'A'
    ensures forall line :: line in Opening(p) ==> CharAt(line, 4) != fifth
  {
    HeaderKey(p);
    LanguageKey(p);
    StyleKey(p);
    if p.emoji.allowed {
      EmojiAllowedKey(p.emoji);
    } else {
      EmojiForbiddenKey();
    }
    VoiceKeys(p);
  }

  lemma HeaderKey(p: Profile)
    ensures Keyed(Header(p), ' ', 'o')
  {
    KeyedLiteral(HeaderPrefix, ToUpper(p.id) + "\n", ' ', 'o');
    StringAssoc(HeaderPrefix + ToUpper(p.id), "\n", "\n");
  }

  lemma LanguageKey(p: Profile)
    ensures Keyed(LanguageLine(p), 'L', 'n')
  {
    KeyedLiteral("**Language**: ", if p.language == "ko" then "Korean (한국어)" else "English", 'L', 'n');
  }

  lemma StyleKey(p: Profile)
    ensures Keyed(StyleLine(p), 'S', 'y')
  {
    KeyedLiteral("**Style**: ", p.style, 'S', 'y');
  }

  lemma VoiceKeys(p: Profile)
    ensures Keyed(VoiceHeading, 'V', 'i')
    ensures Keyed(PersonalStoryLine(p), '-', 'P')
    ensures Keyed(FirstPersonLine(p), '-', 'F')
  {
    KeyedLiteral("  - Personal stories: ", if p.voice.personalStory then "OK" else "Avoid", '-', 'P');
    KeyedLiteral("  - First person: ", if p.voice.firstPerson then "Use \"I/my\"" else "Use \"we\" or passive voice", '-', 'F');
  }

  lemma HonorificsKey(h: string)
    ensures Keyed(HonorificsLine(h), '-', 'H')
  {
    KeyedLiteral(HonorificsPrefix, h + " (formal Korean)", '-', 'H');
    StringAssoc(HonorificsPrefix, h, " (formal Korean)");
    StringAssoc(HonorificsPrefix, h + " (formal Korean)", "\n");
  }

  lemma FormattingKeys(p: Profile)
    ensures Keyed(FormattingHeading, 'F', 'r')
    ensures Keyed(CodeBlocksLine(p), '-', 'C')
    ensures Keyed(MaxParagraphLine(p), '-', 'M')
  {
    KeyedLiteral("  - Code blocks: ", if p.formatting.codeBlocks then "Include" else "Avoid", '-', 'C');
    KeyedAppend("  - Max paragraph: ~", NatToString(p.formatting.maxParagraphLength), '-', 'M');
    KeyedAppend("  - Max paragraph: ~" + NatToString(p.formatting.maxParagraphLength), " words\n", '-', 'M');
  }

  lemma ClosingKeys(p: Profile)
    ensures Keyed(CallToActionLine(p), 'C', 'l')
    ensures Keyed(SeoHeading, 'S', 'O')
    ensures Keyed(TitleLine(p), '-', 'T')
    ensures Keyed(TagsLine(p.seo.tagsCount), '-', 'T')
  {
    KeyedAppend("**Call to Action**: ", p.callToAction.style, 'C', 'l');
    KeyedAppend("**Call to Action**: " + p.callToAction.style, " style at ", 'C', 'l');
    KeyedLiteral("**Call to Action**: " + p.callToAction.style + " style at ", p.callToAction.placement, 'C', 'l');
    KeyedAppend("  - Title: max ", NatToString(p.seo.titleMaxLength), '-', 'T');
    KeyedAppend("  - Title: max " + NatToString(p.seo.titleMaxLength), " characters\n", '-', 'T');
    KeyedLiteral("  - Tags: max ", NatToString(p.seo.tagsCount), '-', 'T');
  }

  lemma EmojiAllowedKey(e: Emoji)
    ensures Keyed(EmojiAllowedLine(e), 'E', 'o') && CharAt(EmojiAllowedLine(e), 11) == 'A'
  {
    var head := "**Emoji**: Allowed (";
    assert |head| > 11 && head[11] == 'A' && Keyed(head, 'E', 'o');
    var a := head + e.frequency;
    var b := a + " frequency). Examples: ";
    var c := b + Join(e.examples, " ");
    assert a[11] == 'A' && b[11] == 'A' && c[11] == 'A' && (c + "\n")[11] == 'A';
    KeyedAppend(head, e.frequency, 'E', 'o');
    KeyedAppend(a, " frequency). Examples: ", 'E', 'o');
    KeyedLiteral(b, Join(e.examples, " "), 'E', 'o');
  }

  lemma EmojiForbiddenKey()
    ensures Keyed(EmojiForbiddenLine, 'E', 'o') && CharAt(EmojiForbiddenLine, 11) == 'N'
  {
    assert EmojiForbiddenLine[2] == 'E' && EmojiForbiddenLine[4] == 'o' && EmojiForbiddenLine[11] == 'N';
  }

  lemma AvoidBoldKey()
    ensures Keyed(AvoidBoldLine, '-', 'A')
  {
  }
}
