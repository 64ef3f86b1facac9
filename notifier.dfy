/**
 * E-mail notifications of pipeline steps (lib/notifier.js): whether sending
 * is enabled, the subject line, the step names, the details section of the
 * message, and the convenience requests `stepComplete`, `stepFailed` and
 * `pipelineComplete`. The SMTP transport is a parameter.
 */
module Notifier {
  import opened Wrappers
  import opened Text

  /** A `details` object: its entries in key order, values already rendered as text. */
  type Details = seq<(string, string)>

  /** One call of `send({type, step, status, details})`. */
  datatype Request = Request(kind: string, step: string, status: string, details: Details)

  /** The credentials the notifier reads from the environment; empty means unset. */
  datatype Credentials = Credentials(user: string, appPassword: string, notifyTo: string)

  /** The mail handed to the transport; the page around the details section is not modelled. */
  datatype Mail = Mail(from: string, to: string, subject: string, details: string, preview: Option<string>)

  /** What the transport does with a mail: delivers it, or throws with a message. */
  datatype Delivery = Delivered(messageId: string) | TransportError(message: string)

  datatype SendResult =
    | Sent(messageId: string)
    | NotSent(reason: string)
    | SendFailed(error: string)

  /** The constructor's `enabled` flag: both the user and the app password are set. */
  predicate Enabled(c: Credentials) {
    c.user != "" && c.appPassword != ""
  }

  // ---------------------------------------------------------------------------
  // Step names and subject

  const StepNames: map<string, string> := map[
    "topic_selection" := "주제 선정",
    "draft_generation" := "초안 생성",
    "pr_creation" := "PR 생성",
    "publish_devto" := "Dev.to 발행",
    "publish_hashnode" := "Hashnode 발행",
    "publish_blogger" := "Blogger 발행",
    "naver_export" := "네이버 준비"]

  /** `_formatStepName(step)`: the display name of a known step, otherwise the step itself. */
  function FormatStepName(step: string): (name: string)
    ensures step in StepNames ==> name == StepNames[step]
    ensures step !in StepNames ==> name == step
    ensures name != "" || step == ""
  {
    if step in StepNames && StepNames[step] != "" then StepNames[step] else step
  }

  /** The seven known steps each have their own non-empty display name. */
  lemma KnownStepNames()
    ensures StepNames.Keys == {"topic_selection", "draft_generation", "pr_creation", "publish_devto",
                               "publish_hashnode", "publish_blogger", "naver_export"}
    ensures forall s :: s in StepNames ==> FormatStepName(s) != "" && FormatStepName(s) != s
  {
    forall s | s in StepNames
      ensures FormatStepName(s) != "" && FormatStepName(s) != s
    {
      StepNameDiffers(s);
    }
  }

  lemma StepNameDiffers(s: string)
    requires s in StepNames
    ensures StepNames[s] != "" && StepNames[s] != s
  {
  }

  const SuccessEmoji: string := "\U{2705}"
  const FailedEmoji: string := "\U{274C}"
  const WarningEmoji: string := "\U{26A0}\U{FE0F}"
  const Brand: string := "[Content Publisher]"
  const PipelineSubject: string := "\U{1F389} " + Brand + " 전체 파이프라인 완료"

  function StatusEmoji(status: string): (e: string)
    ensures status == "success" ==> e == SuccessEmoji
    ensures status == "failed" ==> e == FailedEmoji
    ensures status != "success" && status != "failed" ==> e == WarningEmoji
  {
    if status == "success" then SuccessEmoji else if status == "failed" then FailedEmoji else WarningEmoji
  }

  /** `_buildSubject(type, step, status)` */
  function BuildSubject(kind: string, step: string, status: string): (s: string)
    ensures kind == "step_complete" ==> StatusEmoji(status) <= s && EndsWith(s, " 완료")
    ensures kind == "step_failed" ==> StatusEmoji(status) <= s && EndsWith(s, " 실패")
    ensures kind in {"step_complete", "step_failed"} ==>
      StatusEmoji(status) + " " + Brand + " " + FormatStepName(step) <= s
      && |s| == |StatusEmoji(status) + " " + Brand + " " + FormatStepName(step)| + 3
    ensures kind == "pipeline_complete" ==> s == PipelineSubject
    ensures kind !in {"step_complete", "step_failed", "pipeline_complete"} ==> s == Brand + " " + FormatStepName(step)
  {
    var emoji := StatusEmoji(status);
    var prefix := emoji + " " + Brand + " " + FormatStepName(step);
    if kind == "step_complete" then
      assert (prefix + " 완료")[..|emoji|] == emoji;
      assert (prefix + " 완료")[..|prefix|] == prefix;
      prefix + " 완료"
    else if kind == "step_failed" then
      assert (prefix + " 실패")[..|emoji|] == emoji;
      assert (prefix + " 실패")[..|prefix|] == prefix;
      prefix + " 실패"
    else if kind == "pipeline_complete" then PipelineSubject
    else Brand + " " + FormatStepName(step)
  }

  // ---------------------------------------------------------------------------
  // Details section of `_buildHtml`

  /** Keys the details list leaves out: the preview HTML and the error. */
  predicate Skipped(key: string) {
    key == "previewHtml" || key == "error"
  }

  /** The value of `details[key]`, if the key is present. */
  function Lookup(details: Details, key: string): (v: Option<string>)
    ensures v.Some? ==> (key, v.value) in details
    ensures v.None? ==> forall e :: e in details ==> e.0 != key
  {
    if details == [] then None
    else if details[0].0 == key then Some(details[0].1)
    else Lookup(details[1..], key)
  }

  predicate Truthy(v: Option<string>) {
    v.Some? && v.value != ""
  }

  function Item(key: string, value: string): string {
    "<li><strong>" + key + ":</strong> " + value + "</li>"
  }

  /** The list items of the entries, in order, skipping the preview and the error. */
  function Items(details: Details): string
    decreases |details|
  {
    if details == [] then ""
    else
      var last := details[|details| - 1];
      Items(details[..|details| - 1]) + (if Skipped(last.0) then "" else Item(last.0, last.1))
  }

  lemma ItemsStep(details: Details, i: nat)
    requires i < |details|
    ensures Items(details[..i + 1])
         == Items(details[..i]) + (if Skipped(details[i].0) then "" else Item(details[i].0, details[i].1))
  {
    assert details[..i + 1][..i] == details[..i];
  }

  /** The entries the list shows, in their original order. */
  function Kept(details: Details): (kept: Details)
    ensures forall e :: e in kept ==> e in details && !Skipped(e.0)
    ensures forall e :: e in details && !Skipped(e.0) ==> e in kept
    ensures |kept| <= |details|
    decreases |details|
  {
    if details == [] then []
    else
      var last := details[|details| - 1];
      assert details == details[..|details| - 1] + [last];
      Kept(details[..|details| - 1]) + (if Skipped(last.0) then [] else [last])
  }

  /** One list item per entry, with nothing skipped. */
  function RenderAll(entries: Details): string
    decreases |entries|
  {
    if entries == [] then ""
    else RenderAll(entries[..|entries| - 1]) + Item(entries[|entries| - 1].0, entries[|entries| - 1].1)
  }

  lemma {:induction false} RenderAllAppend(a: Details, b: Details)
    ensures RenderAll(a + b) == RenderAll(a) + RenderAll(b)
    decreases |b|
  {
    if b == [] {
      assert a + b == a;
    } else {
      var b' := b[..|b| - 1];
      var last := b[|b| - 1];
      var ab := a + b;
      assert ab != [];
      assert ab[..|ab| - 1] == a + b';
      assert ab[|ab| - 1] == last;
      assert RenderAll(ab) == RenderAll(a + b') + Item(last.0, last.1);
      RenderAllAppend(a, b');
      assert RenderAll(b) == RenderAll(b') + Item(last.0, last.1);
    }
  }

  /** The items are exactly the rendering of the kept entries: the skipped keys produce nothing. */
  lemma {:induction false} ItemsAreKeptEntries(details: Details)
    ensures Items(details) == RenderAll(Kept(details))
    decreases |details|
  {
    if details != [] {
      var init := details[..|details| - 1];
      var last := details[|details| - 1];
      ItemsAreKeptEntries(init);
      RenderAllAppend(Kept(init), if Skipped(last.0) then [] else [last]);
      assert RenderAll([]) == "";
      assert [last][..0] == [];
    }
  }

  const DetailsHeader: string := "<h3>상세 정보</h3><ul>"

  const ErrorBlockOpen: string :=
    "<div style=\"color: red; margin-top: 10px; padding: 10px; "
    + "background: #ffe6e6; border-radius: 5px;\">"
    + "<strong>Stack Trace:</strong><pre style=\"white-space: pre-wrap;\">"

  const ErrorBlockClose: string := "</pre></div>"

  function ErrorBlock(error: string): string {
    ErrorBlockOpen + error + ErrorBlockClose
  }

  /** The error block is shown for a failed step that carries a non-empty error. */
  predicate ShowsError(status: string, details: Details) {
    status == "failed" && Truthy(Lookup(details, "error"))
  }

  /** The list of entries: the header, the items and the closing tag; nothing without entries. */
  function DetailsList(details: Details): string {
    if details != [] then DetailsHeader + Items(details) + "</ul>" else ""
  }

  /** The error block of a failed step, or nothing. */
  function ErrorSection(status: string, details: Details): string {
    if ShowsError(status, details) then ErrorBlock(Lookup(details, "error").value) else ""
  }

  /** `detailsHtml` as `_buildHtml` assembles it. */
  function DetailsHtml(status: string, details: Details): (html: string)
    ensures details != [] ==> DetailsHeader + RenderAll(Kept(details)) + "</ul>" <= html
    ensures ShowsError(status, details) ==> EndsWith(html, ErrorBlock(Lookup(details, "error").value))
    ensures !ShowsError(status, details) ==>
      html == if details != [] then DetailsHeader + RenderAll(Kept(details)) + "</ul>" else ""
  {
    ItemsAreKeptEntries(details);
    var list := DetailsList(details);
    var block := ErrorSection(status, details);
    assert (list + block)[..|list|] == list;
    assert (list + block)[|list + block| - |block|..] == block;
    list + block
  }

  /** The same section built the way the source does: the list, then the error block. */
  method BuildDetailsHtml(status: string, details: Details) returns (html: string)
    ensures html == DetailsHtml(status, details)
  {
    html := BuildDetailsList(details);
    if status == "failed" {
      var error := Lookup(details, "error");
      if error.Some? && error.value != "" {
        html := html + ErrorBlock(error.value);
      }
    }
    assert html == DetailsList(details) + ErrorSection(status, details);
  }

  /** The list of entries, one item at a time, skipping the preview and the error. */
  method BuildDetailsList(details: Details) returns (html: string)
    ensures html == DetailsList(details)
  {
    html := "";
    if |details| > 0 {
      html := DetailsHeader;
      for i := 0 to |details|
        invariant html == DetailsHeader + Items(details[..i])
      {
        var (key, value) := details[i];
        ItemsStep(details, i);
        if Skipped(key) {
          assert Items(details[..i]) + "" == Items(details[..i]);
          continue;
        }
        StringAssoc(DetailsHeader, Items(details[..i]), Item(key, value));
        html := html + Item(key, value);
      }
      assert details[..|details|] == details;
      html := html + "</ul>";
    }
  }

  // ---------------------------------------------------------------------------
  // Sending

  /** The mail `send` hands to the transport for a request. */
  function MailFor(c: Credentials, r: Request): Mail {
    var preview := Lookup(r.details, "previewHtml");
    Mail("\"MandaAct Bot\" <" + c.user + ">",
         if c.notifyTo != "" then c.notifyTo else c.user,
         BuildSubject(r.kind, r.step, r.status),
         DetailsHtml(r.status, r.details),
         if Truthy(preview) then preview else None)
  }

  /**
   * `send(request)`. Returns the result and the mail given to the transport,
   * if any; a transport error is caught and reported, never thrown.
   */
  method Send(c: Credentials, r: Request, transport: Mail -> Delivery) returns (result: SendResult, mail: Option<Mail>)
    ensures !Enabled(c) ==> result == NotSent("disabled") && mail == None
    ensures Enabled(c) ==> mail == Some(MailFor(c, r))
    ensures Enabled(c) ==> match transport(MailFor(c, r))
                           case Delivered(id) => result == Sent(id)
                           case TransportError(m) => result == SendFailed(m)
  {
    if !(c.user != "" && c.appPassword != "") {
      return NotSent("disabled"), None;
    }
    var subject := BuildSubject(r.kind, r.step, r.status);
    var details := BuildDetailsHtml(r.status, r.details);
    var preview := Lookup(r.details, "previewHtml");
    var m := Mail("\"MandaAct Bot\" <" + c.user + ">",
                  if c.notifyTo != "" then c.notifyTo else c.user,
                  subject, details,
                  if preview.Some? && preview.value != "" then preview else None);
    mail := Some(m);
    match transport(m)
    case Delivered(id) => result := Sent(id);
    case TransportError(msg) => result := SendFailed(msg);
  }

  // ---------------------------------------------------------------------------
  // Convenience requests

  /**
   * A thrown value: an `Error` object with its `name` (`Error`, `TypeError`,
   * ...) and message, or any other value rendered as text.
   */
  datatype Thrown = ErrorObject(name: string, message: string) | Value(text: string)

  /**
   * `error.message || error`, as the text that ends up in the mail. An error
   * with an empty message is the object itself, which renders as its name.
   */
  function ErrorDetail(e: Thrown): (d: string)
    ensures e.ErrorObject? && e.message != "" ==> d == e.message
    ensures e.ErrorObject? && e.message == "" ==> d == e.name
    ensures e.Value? ==> d == e.text
  {
    match e
    case ErrorObject(name, m) => if m != "" then m else name
    case Value(t) => t
  }

  function StepComplete(step: string, details: Details): (r: Request)
    ensures r.kind == "step_complete" && r.status == "success" && r.step == step && r.details == details
  {
    Request("step_complete", step, "success", details)
  }

  /** `stepFailed(step, error)`: a failed request whose only detail is the error. */
  function StepFailed(step: string, e: Thrown): (r: Request)
    ensures r.kind == "step_failed" && r.status == "failed" && r.step == step
    ensures Lookup(r.details, "error") == Some(ErrorDetail(e))
    ensures Kept(r.details) == []
  {
    Request("step_failed", step, "failed", [("error", ErrorDetail(e))])
  }

  /** `pipelineComplete({published, failed, urls})` */
  function PipelineComplete(published: nat, failed: nat, urls: string): (r: Request)
    ensures r.kind == "pipeline_complete" && r.status == "success" && r.step == "all"
    ensures Lookup(r.details, "published") == Some(NatToString(published))
    ensures Lookup(r.details, "failed") == Some(NatToString(failed))
    ensures Lookup(r.details, "urls") == Some(urls)
  {
    Request("pipeline_complete", "all", "success",
            [("published", NatToString(published)), ("failed", NatToString(failed)), ("urls", urls)])
  }

  /** A failed step with a non-empty error always shows the error block and never lists the error. */
  lemma StepFailedShowsError(step: string, e: Thrown)
    requires ErrorDetail(e) != ""
    ensures ShowsError("failed", StepFailed(step, e).details)
    ensures EndsWith(DetailsHtml("failed", StepFailed(step, e).details), ErrorBlock(ErrorDetail(e)))
    ensures RenderAll(Kept(StepFailed(step, e).details)) == ""
  {
  }
}
