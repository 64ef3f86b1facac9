/**
 * Call-to-action blocks (lib/cta-injector.js): per-channel templates with
 * App Store and website slots, detection of an existing call to action, and
 * its injection at the end of a draft body.
 */
module CtaInjector {
  import opened Wrappers
  import opened Text
  import Translator
  import JsObjects

  // ---------------------------------------------------------------------------
  // Links

  const AppleDomain: string := "apps.apple.com"
  const AppleHost: string := "https://" + AppleDomain + "/"
  const AppPath: string := "app/mandaact"
  const AppId: string := "/id6504776417"

  /** `APP_LINKS.appStore.en` */
  const AppStoreEn: string := AppleHost + AppPath + AppId
  /** `APP_LINKS.appStore.ko` */
  const AppStoreKo: string := AppleHost + "kr/" + AppPath + AppId
  /** `APP_LINKS.website` */
  const Website: string := "https://mandaact.vercel.app"

  // ---------------------------------------------------------------------------
  // Templates

  /** A template is text with slots for the App Store link and the website link. */
  datatype Piece = Lit(text: string) | AppStoreSlot | WebsiteSlot

  const AppStorePlaceholder: string := "{{appStoreUrl}}"
  const WebsitePlaceholder: string := "{{websiteUrl}}"

  const DownloadLabel: string := "Download MandaAct"

  const Devto0: string := "\n---\n\n## \U{1F680} Ready to Try It?\n\n"
  const Devto1: string := "MandaAct helps you break down big goals "
  const Devto2: string := "into actionable 9x9 grids. "
  const Devto3: string := "Stop drowning in endless to-do lists.\n\n"
  const Devto4: string := "\U{1F449} **[" + DownloadLabel + " on the App Store]("
  const Devto6: string := ")**\n\n*Available on iOS, iPadOS, and macOS.*\n"

  const DevtoTemplate: seq<Piece> := [
    Lit(Devto0),
    Lit(Devto1),
    Lit(Devto2),
    Lit(Devto3),
    Lit(Devto4),
    AppStoreSlot,
    Lit(Devto6)]

  const Hashnode0: string := "\n---\n\n## Try MandaAct\n\n"
  const Hashnode1: string := "Transform your goals into actionable "
  const Hashnode2: string := "plans with the 9x9 Mandalart framework.\n\n"
  const Hashnode3: string := "[Download on App Store]("
  const Hashnode5: string := ") | [Learn More]("
  const Hashnode7: string := ")\n"

  const HashnodeTemplate: seq<Piece> := [
    Lit(Hashnode0),
    Lit(Hashnode1),
    Lit(Hashnode2),
    Lit(Hashnode3),
    AppStoreSlot,
    Lit(Hashnode5),
    WebsiteSlot,
    Lit(Hashnode7)]

  const Blogger0: string := "\n<hr>\n\n<h2>MandaAct 시작하기</h2>\n\n"
  const Blogger1: string := "<p>목표를 9x9 그리드로 시각화하고, "
  const Blogger2: string := "매일 실천 가능한 액션으로 분해하세요.</p>\n\n"
  const Blogger3: string := "<p>\n  <a href=\""
  const Blogger5: string := "\" target=\"_blank\" style=\""
  const Blogger6: string := "display:inline-block;padding:12px 24px;"
  const Blogger7: string := "background:linear-gradient"
  const Blogger8: string := "(135deg,#667eea,#764ba2);color:#fff;"
  const Blogger9: string := "text-decoration:none;border-radius:8px;"
  const Blogger10: string := "font-weight:bold;\">\n"
  const Blogger11: string := "    App Store에서 다운로드\n  </a>\n</p>\n\n"
  const Blogger12: string := "<p><small>iOS, iPadOS, macOS에서 "
  const Blogger13: string := "사용 가능합니다.</small></p>\n"

  const BloggerTemplate: seq<Piece> := [
    Lit(Blogger0),
    Lit(Blogger1),
    Lit(Blogger2),
    Lit(Blogger3),
    AppStoreSlot,
    Lit(Blogger5),
    Lit(Blogger6),
    Lit(Blogger7),
    Lit(Blogger8),
    Lit(Blogger9),
    Lit(Blogger10),
    Lit(Blogger11),
    Lit(Blogger12),
    Lit(Blogger13)]

  // The literal parts hold no opening brace.
  lemma Devto0BraceFree() ensures '{' !in Devto0 { }
  lemma Devto1BraceFree() ensures '{' !in Devto1 { }
  lemma Devto2BraceFree() ensures '{' !in Devto2 { }
  lemma Devto3BraceFree() ensures '{' !in Devto3 { }
  lemma Devto4BraceFree() ensures '{' !in Devto4 { }
  lemma Devto6BraceFree() ensures '{' !in Devto6 { }
  lemma Hashnode0BraceFree() ensures '{' !in Hashnode0 { }
  lemma Hashnode1BraceFree() ensures '{' !in Hashnode1 { }
  lemma Hashnode2BraceFree() ensures '{' !in Hashnode2 { }
  lemma Hashnode3BraceFree() ensures '{' !in Hashnode3 { }
  lemma Hashnode5BraceFree() ensures '{' !in Hashnode5 { }
  lemma Hashnode7BraceFree() ensures '{' !in Hashnode7 { }
  lemma Blogger0BraceFree() ensures '{' !in Blogger0 { }
  lemma Blogger1BraceFree() ensures '{' !in Blogger1 { }
  lemma Blogger2BraceFree() ensures '{' !in Blogger2 { }
  lemma Blogger3BraceFree() ensures '{' !in Blogger3 { }
  lemma Blogger5BraceFree() ensures '{' !in Blogger5 { }
  lemma Blogger6BraceFree() ensures '{' !in Blogger6 { }
  lemma Blogger7BraceFree() ensures '{' !in Blogger7 { }
  lemma Blogger8BraceFree() ensures '{' !in Blogger8 { }
  lemma Blogger9BraceFree() ensures '{' !in Blogger9 { }
  lemma Blogger10BraceFree() ensures '{' !in Blogger10 { }
  lemma Blogger11BraceFree() ensures '{' !in Blogger11 { }
  lemma Blogger12BraceFree() ensures '{' !in Blogger12 { }
  lemma Blogger13BraceFree() ensures '{' !in Blogger13 { }

  /** `CTA_TEMPLATES[channel]`, for the three channels that have one. */
  function Template(channel: string): seq<Piece> {
    if channel == "devto" then DevtoTemplate
    else if channel == "hashnode" then HashnodeTemplate
    else if channel == "blogger_kr" then BloggerTemplate
    else []
  }

  predicate HasTemplate(channel: string) {
    channel == "devto" || channel == "hashnode" || channel == "blogger_kr"
  }

  /** The template as the source writes it, placeholders included. */
  function TemplateText(ps: seq<Piece>): string
    decreases |ps|
  {
    if ps == [] then ""
    else
      (match ps[0]
       case Lit(t) => t
       case AppStoreSlot => AppStorePlaceholder
       case WebsiteSlot => WebsitePlaceholder) + TemplateText(ps[1..])
  }

  /** The template with its slots filled. */
  function Render(ps: seq<Piece>, appStoreUrl: string, websiteUrl: string): string
    decreases |ps|
  {
    if ps == [] then ""
    else
      (match ps[0]
       case Lit(t) => t
       case AppStoreSlot => appStoreUrl
       case WebsiteSlot => websiteUrl) + Render(ps[1..], appStoreUrl, websiteUrl)
  }

  /** No literal part of the template contains an opening brace. */
  predicate BraceFree(ps: seq<Piece>) {
    forall i :: 0 <= i < |ps| && ps[i].Lit? ==> '{' !in ps[i].text
  }

  lemma TemplatesBraceFree(channel: string)
    ensures BraceFree(Template(channel))
  {
    Devto0BraceFree();
    Devto1BraceFree();
    Devto2BraceFree();
    Devto3BraceFree();
    Devto4BraceFree();
    Devto6BraceFree();
    Hashnode0BraceFree();
    Hashnode1BraceFree();
    Hashnode2BraceFree();
    Hashnode3BraceFree();
    Hashnode5BraceFree();
    Hashnode7BraceFree();
    Blogger0BraceFree();
    Blogger1BraceFree();
    Blogger2BraceFree();
    Blogger3BraceFree();
    Blogger5BraceFree();
    Blogger6BraceFree();
    Blogger7BraceFree();
    Blogger8BraceFree();
    Blogger9BraceFree();
    Blogger10BraceFree();
    Blogger11BraceFree();
    Blogger12BraceFree();
    Blogger13BraceFree();
  }

  /** `lang === 'ko' ? APP_LINKS.appStore.ko : APP_LINKS.appStore.en` */
  function AppStoreUrl(lang: string): (u: string)
    ensures lang == "ko" ==> u == AppStoreKo
    ensures lang != "ko" ==> u == AppStoreEn
  {
    if lang == "ko" then AppStoreKo else AppStoreEn
  }

  /** `getCTA(channel, lang)`: the channel's template with both links filled in, or `''`. */
  function GetCTA(channel: string, lang: string): (cta: string)
    ensures !HasTemplate(channel) ==> cta == ""
    ensures '{' !in cta
    ensures !Contains(cta, AppStorePlaceholder) && !Contains(cta, WebsitePlaceholder)
  {
    TemplatesBraceFree(channel);
    LinksBraceFree(lang);
    RenderedFree(Template(channel), AppStoreUrl(lang), Website);
    Render(Template(channel), AppStoreUrl(lang), Website)
  }

  /** What calling `.replace` on an inherited `Object.prototype` member throws. */
  const ReplaceNotAFunction: string := "template.replace is not a function"

  /**
   * `getCTA` as written: `CTA_TEMPLATES[channel]` also finds the members a
   * plain object inherits. They are truthy, so `if (!template)` lets them
   * through, and none of them has a `replace` method.
   */
  function GetCTAAsWritten(channel: string, lang: string): (r: Result<string>)
    ensures r.Err? <==> channel in JsObjects.PrototypeKeys
    ensures r.Ok? ==> r.value == GetCTA(channel, lang)
  {
    if channel in JsObjects.PrototypeKeys then Err(ReplaceNotAFunction) else Ok(GetCTA(channel, lang))
  }

  /** `getCTA('constructor')` throws, where the evident intent is the empty block of an unknown channel. */
  lemma InheritedChannelThrows(lang: string)
    ensures GetCTAAsWritten("constructor", lang) == Err(ReplaceNotAFunction)
    ensures GetCTA("constructor", lang) == ""
  {
  }

  lemma LinksBraceFree(lang: string)
    ensures '{' !in AppStoreUrl(lang) && '{' !in Website
  {
    HostBraceFree();
    assert '{' !in AppPath && '{' !in AppId && '{' !in "kr/";
  }

  lemma HostBraceFree()
    ensures '{' !in AppleHost && '{' !in Website
  {
    assert '{' !in AppleDomain;
  }

  /** A template whose literal parts and links have no opening brace renders without a placeholder. */
  lemma RenderedFree(ps: seq<Piece>, app: string, web: string)
    requires BraceFree(ps) && '{' !in app && '{' !in web
    ensures '{' !in Render(ps, app, web)
    ensures !Contains(Render(ps, app, web), AppStorePlaceholder)
    ensures !Contains(Render(ps, app, web), WebsitePlaceholder)
  {
    RenderBraceFree(ps, app, web);
    MissingLeadNotContained(Render(ps, app, web), AppStorePlaceholder);
    MissingLeadNotContained(Render(ps, app, web), WebsitePlaceholder);
  }

  lemma {:induction false} RenderBraceFree(ps: seq<Piece>, app: string, web: string)
    requires BraceFree(ps) && '{' !in app && '{' !in web
    ensures '{' !in Render(ps, app, web)
    decreases |ps|
  {
    if ps != [] {
      RenderBraceFree(ps[1..], app, web);
    }
  }

  // ---------------------------------------------------------------------------
  // Filling the placeholders by global replacement, as the source does

  /** A replace pass cannot match inside text that lacks the pattern's first character. */
  lemma {:induction false} ReplaceAllSkipsFree(a: string, b: string, pat: string, rep: string)
    requires pat != [] && pat[0] !in a
    ensures ReplaceAll(a + b, pat, rep) == a + ReplaceAll(b, pat, rep)
    decreases |a|
  {
    if a == [] {
      assert a + b == b;
    } else {
      HeadAppend(a, b, ReplaceAll(b, pat, rep));
      assert a[0] in a;
      assert !(pat <= a + b);
      assert forall c :: c in a[1..] ==> c in a;
      ReplaceAllSkipsFree(a[1..], b, pat, rep);
    }
  }

  lemma ReplaceAllAtMatch(b: string, pat: string, rep: string)
    requires pat != []
    ensures ReplaceAll(pat + b, pat, rep) == rep + ReplaceAll(b, pat, rep)
  {
    assert (pat + b)[..|pat|] == pat;
    assert (pat + b)[|pat|..] == b;
  }

  /** The website placeholder passes the App Store pass untouched. */
  lemma WebsitePlaceholderSurvives(b: string, rep: string)
    ensures ReplaceAll(WebsitePlaceholder + b, AppStorePlaceholder, rep) == WebsitePlaceholder + ReplaceAll(b, AppStorePlaceholder, rep)
  {
    assert WebsitePlaceholder == ['{', '{'] + "websiteUrl}}";
    assert AppStorePlaceholder == ['{', '{'] + "appStoreUrl}}";
    SkipOtherPlaceholder('{', "websiteUrl}}", "appStoreUrl}}", b, rep);
  }

  /** A `cc`-delimited placeholder is not replaced by a pass for a different one. */
  lemma SkipOtherPlaceholder(c: char, u: string, v: string, b: string, rep: string)
    requires u != [] && v != [] && u[0] != v[0] && c !in u
    ensures ReplaceAll([c, c] + u + b, [c, c] + v, rep) == [c, c] + u + ReplaceAll(b, [c, c] + v, rep)
  {
    var p := [c, c] + v;
    var s := [c, c] + u + b;
    assert s[2] == u[0] && p[2] == v[0];
    assert !(p <= s);
    assert s[1..] == [c] + (u + b);
    assert !(p <= s[1..]) by {
      assert s[1..][1] == u[0] && p[1] == c;
    }
    assert s[1..][1..] == u + b;
    ReplaceAllSkipsFree(u, b, p, rep);
    assert [c, c] + u + ReplaceAll(b, p, rep) == [c] + ([c] + (u + ReplaceAll(b, p, rep)));
  }

  /** The website pass leaves an App Store link alone. */
  lemma {:induction false} FirstPass(ps: seq<Piece>, app: string)
    requires BraceFree(ps) && '{' !in app
    ensures ReplaceAll(TemplateText(ps), AppStorePlaceholder, app) == Render(ps, app, WebsitePlaceholder)
    decreases |ps|
  {
    if ps != [] {
      FirstPass(ps[1..], app);
      var rest := TemplateText(ps[1..]);
      match ps[0]
      case Lit(t) =>
        assert BraceFree(ps[1..]) by { assert forall i :: 0 <= i < |ps[1..]| ==> ps[1..][i] == ps[i + 1]; }
        assert '{' !in t by { assert ps[0].Lit?; }
        ReplaceAllSkipsFree(t, rest, AppStorePlaceholder, app);
      case AppStoreSlot =>
        assert BraceFree(ps[1..]) by { assert forall i :: 0 <= i < |ps[1..]| ==> ps[1..][i] == ps[i + 1]; }
        ReplaceAllAtMatch(rest, AppStorePlaceholder, app);
      case WebsiteSlot =>
        assert BraceFree(ps[1..]) by { assert forall i :: 0 <= i < |ps[1..]| ==> ps[1..][i] == ps[i + 1]; }
        WebsitePlaceholderSurvives(rest, app);
    }
  }

  lemma {:induction false} SecondPass(ps: seq<Piece>, app: string, web: string)
    requires BraceFree(ps) && '{' !in app
    ensures ReplaceAll(Render(ps, app, WebsitePlaceholder), WebsitePlaceholder, web) == Render(ps, app, web)
    decreases |ps|
  {
    if ps != [] {
      assert BraceFree(ps[1..]) by { assert forall i :: 0 <= i < |ps[1..]| ==> ps[1..][i] == ps[i + 1]; }
      SecondPass(ps[1..], app, web);
      var rest := Render(ps[1..], app, WebsitePlaceholder);
      match ps[0]
      case Lit(t) =>
        assert '{' !in t by { assert ps[0].Lit?; }
        ReplaceAllSkipsFree(t, rest, WebsitePlaceholder, web);
      case AppStoreSlot =>
        ReplaceAllSkipsFree(app, rest, WebsitePlaceholder, web);
      case WebsiteSlot =>
        ReplaceAllAtMatch(rest, WebsitePlaceholder, web);
    }
  }

  /** `getCTA` equals the two global replacements the source applies to the template text. */
  lemma GetCTAIsReplaceChain(channel: string, lang: string)
    requires HasTemplate(channel)
    ensures GetCTA(channel, lang)
         == ReplaceAll(ReplaceAll(TemplateText(Template(channel)), AppStorePlaceholder, AppStoreUrl(lang)),
                       WebsitePlaceholder, Website)
  {
    TemplatesBraceFree(channel);
    FirstPass(Template(channel), AppStoreUrl(lang));
    SecondPass(Template(channel), AppStoreUrl(lang), Website);
  }

  // ---------------------------------------------------------------------------
  // hasCTA

  /** `s` holds `p` before the end of its first line. */
  predicate OnSameLine(s: string, p: string)
    decreases |s|
  {
    p <= s || (|s| > 0 && !IsLineTerminator(s[0]) && OnSameLine(s[1..], p))
  }

  /** `/download.*mandaact/` on lower-cased text: "download", then "mandaact" later on the same line. */
  predicate DownloadThenMandaact(s: string)
    decreases |s|
  {
    ("download" <= s && OnSameLine(s[8..], "mandaact")) || (|s| > 0 && DownloadThenMandaact(s[1..]))
  }

  /** `hasCTA(content)`; the case-insensitive patterns are matched in the lower-cased text. */
  predicate HasCTA(content: string) {
    var lower := ToLower(content);
    || Contains(lower, "app store")
    || DownloadThenMandaact(lower)
    || Contains(content, "다운로드")
    || Contains(content, "앱스토어")
    || Contains(lower, "apps.apple.com")
  }

  // ---------------------------------------------------------------------------
  // Injection

  /**
   * `injectCTA` on the body of a draft (the front matter is parsed off
   * before and put back after): unless forced, a body that already has a
   * call to action is returned as it is; otherwise the trimmed body, a line
   * break and the channel's block.
   */
  function InjectBody(body: string, channel: string, force: bool, lang: string): (r: string)
    ensures !force && HasCTA(body) ==> r == body
    ensures force || !HasCTA(body) ==> Trim(body) + "\n" <= r && r == Trim(body) + "\n" + GetCTA(channel, lang)
  {
    if !force && HasCTA(body) then body
    else
      var r := Trim(body) + "\n" + GetCTA(channel, lang);
      assert r[..|Trim(body) + "\n"|] == Trim(body) + "\n";
      r
  }

  /** The App Store link is in every rendered block of a channel with a template. */
  lemma {:induction false} RenderHasAppStoreUrl(ps: seq<Piece>, app: string, web: string)
    requires AppStoreSlot in ps
    ensures Contains(Render(ps, app, web), app)
    decreases |ps|
  {
    var head := match ps[0] case Lit(t) => t case AppStoreSlot => app case WebsiteSlot => web;
    if ps[0] == AppStoreSlot {
      assert (head + Render(ps[1..], app, web))[..|app|] == app;
    } else {
      assert AppStoreSlot in ps[1..];
      RenderHasAppStoreUrl(ps[1..], app, web);
      ContainsInRight(head, Render(ps[1..], app, web), app);
    }
  }

  /** Both App Store links hold `apps.apple.com`, in lower case. */
  lemma AppStoreUrlsMentionApple(lang: string)
    ensures Contains(AppStoreUrl(lang), AppleDomain)
    ensures forall c :: c in AppleDomain ==> !IsUpper(c)
  {
    if lang == "ko" {
      ContainsMiddle("https://", AppleDomain, "/" + "kr/" + AppPath + AppId);
      assert AppStoreKo == "https://" + AppleDomain + ("/" + "kr/" + AppPath + AppId);
    } else {
      ContainsMiddle("https://", AppleDomain, "/" + AppPath + AppId);
      assert AppStoreEn == "https://" + AppleDomain + ("/" + AppPath + AppId);
    }
  }

  /** After an injection for a channel with a template, the body has a call to action. */
  lemma InjectedHasCTA(body: string, channel: string, force: bool, lang: string)
    requires HasTemplate(channel)
    ensures HasCTA(InjectBody(body, channel, force, lang))
  {
    var r := InjectBody(body, channel, force, lang);
    if force || !HasCTA(body) {
      var cta := GetCTA(channel, lang);
      RenderHasAppStoreUrl(Template(channel), AppStoreUrl(lang), Website);
      AppStoreUrlsMentionApple(lang);
      ContainsTransitive(cta, AppStoreUrl(lang), AppleDomain);
      ContainsInRight(Trim(body) + "\n", cta, AppleDomain);
      ContainsToLower(r, AppleDomain);
    }
  }

  /** Unforced injection is idempotent for the channels with a template. */
  lemma InjectIdempotent(body: string, channel: string, lang: string, lang2: string)
    requires HasTemplate(channel)
    ensures InjectBody(InjectBody(body, channel, false, lang), channel, false, lang2)
         == InjectBody(body, channel, false, lang)
  {
    InjectedHasCTA(body, channel, false, lang);
  }

  // ---------------------------------------------------------------------------
  // Channel detection

  datatype ChannelChoice = ChannelChoice(channel: string, lang: string)

  /** `detectChannelFromFilename(filename)` */
  function DetectChannelFromFilename(filename: string): (c: ChannelChoice)
    ensures Contains(filename, "-ko.md") ==> c == ChannelChoice("blogger_kr", "ko")
    ensures !Contains(filename, "-ko.md") ==> c == ChannelChoice("devto", "en")
  {
    if Contains(filename, "-ko.md") then ChannelChoice("blogger_kr", "ko") else ChannelChoice("devto", "en")
  }

  /** Channel detection and the translator agree on which drafts are Korean. */
  lemma DetectionAgreesWithTranslator(filename: string)
    ensures DetectChannelFromFilename(filename).lang == "ko" <==> Translator.IsKoreanDraft(filename)
  {
  }

  // ---------------------------------------------------------------------------
  // The unit script's expectations (test_cta.js)

  lemma DevtoCtaHasEnglishLink()
    ensures Contains(GetCTA("devto", "en"), AppleHost + AppPath)
  {
    DevtoCtaHasLink("en");
  }

  /** Outside Korean, the dev.to block links to the English App Store page. */
  lemma DevtoCtaHasLink(lang: string)
    requires lang != "ko"
    ensures Contains(GetCTA("devto", lang), AppleHost + AppPath)
  {
    RenderHasAppStoreUrl(DevtoTemplate, AppStoreEn, Website);
    ContainsMiddle([], AppleHost + AppPath, AppId);
    assert [] + (AppleHost + AppPath) + AppId == AppStoreEn;
    ContainsTransitive(GetCTA("devto", lang), AppStoreEn, AppleHost + AppPath);
  }

  lemma BloggerCtaHasKoreanLink()
    ensures Contains(GetCTA("blogger_kr", "ko"), "kr/" + AppPath)
  {
    RenderHasAppStoreUrl(BloggerTemplate, AppStoreKo, Website);
    ContainsMiddle(AppleHost, "kr/" + AppPath, AppId);
    assert AppleHost + ("kr/" + AppPath) + AppId == AppStoreKo;
    ContainsTransitive(GetCTA("blogger_kr", "ko"), AppStoreKo, "kr/" + AppPath);
  }

  lemma KoreanFileDetected()
    ensures DetectChannelFromFilename("test-ko.md").lang == "ko"
  {
    assert "test-ko.md"[4..] == "-ko.md";
    ContainsAt("test-ko.md", "-ko.md", 4);
  }

  lemma InjectedDevtoHasDownloadLine(body: string)
    requires !HasCTA(body)
    ensures Contains(InjectBody(body, "devto", false, "en"), DownloadLabel)
  {
    DevtoCtaHasDownloadLabel("en");
    ContainsInRight(Trim(body) + "\n", GetCTA("devto", "en"), DownloadLabel);
  }

  /** The dev.to block, in any language, names the download. */
  lemma DevtoCtaHasDownloadLabel(lang: string)
    ensures Contains(GetCTA("devto", lang), DownloadLabel)
  {
    DevtoTailHasLabel(AppStoreUrl(lang), Website);
    RenderSuffix(DevtoTemplate, 4, AppStoreUrl(lang), Website);
    ContainsTransitive(GetCTA("devto", lang), Render(DevtoTemplate[4..], AppStoreUrl(lang), Website), DownloadLabel);
  }

  lemma DevtoTailHasLabel(app: string, web: string)
    ensures Contains(Render(DevtoTemplate[4..], app, web), DownloadLabel)
  {
    var rest := Render(DevtoTemplate[5..], app, web);
    assert DevtoTemplate[4..][1..] == DevtoTemplate[5..];
    assert DevtoTemplate[4..][0] == Lit(Devto4);
    ContainsMiddle("\U{1F449} **[", DownloadLabel, " on the App Store](");
    ContainsInLeft(Devto4, rest, DownloadLabel);
  }

  lemma {:induction false} RenderSuffix(ps: seq<Piece>, k: nat, app: string, web: string)
    requires k <= |ps|
    ensures Contains(Render(ps, app, web), Render(ps[k..], app, web))
    decreases k
  {
    if k == 0 {
      assert ps[0..] == ps;
      ContainsAt(Render(ps, app, web), Render(ps, app, web), 0);
    } else {
      RenderSuffix(ps[1..], k - 1, app, web);
      assert ps[1..][k - 1..] == ps[k..];
      var head := match ps[0] case Lit(t) => t case AppStoreSlot => app case WebsiteSlot => web;
      ContainsInRight(head, Render(ps[1..], app, web), Render(ps[k..], app, web));
    }
  }
}
