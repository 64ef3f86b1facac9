/**
 * The multi-platform publishing router (lib/publisher.js): reading a draft
 * into an article, the upsert-by-title action and its verification against a
 * platform, one platform's publish step with its notifications, and the
 * loop over all requested platforms.
 *
 * A platform is modelled as a store of posts. The retry manager is not
 * modelled: what it answers for a request is the parameter `execute`.
 */
module Publisher {
  import opened Wrappers
  import opened Text
  import opened Config
  import opened Articles
  import Translator
  import N = Notifier
  import AV = AssetVerifier
  import JsObjects

  // ---------------------------------------------------------------------------
  // parseDraft

  const AssetDir: string := "../assets/"

  /**
   * `parseDraft` on a draft whose front matter is `fm` and whose body is
   * `body`: every `../assets/` of the body becomes the asset base URL, a cover
   * starting with `../assets` gets its first `../assets/` rewritten, and
   * missing tags become the empty list.
   */
  function ParseDraft(fm: Frontmatter, body: string): (a: Article)
    ensures a.content == Join(SplitOn(body, AssetDir), AssetBaseUrl())
    ensures Join(SplitOn(body, AssetDir), AssetDir) == body
    ensures forall i :: 0 <= i < |SplitOn(body, AssetDir)| ==> !Contains(SplitOn(body, AssetDir)[i], AssetDir)
    ensures a.title == fm.title && a.series == fm.series
    ensures a.tags == Some(fm.tags.GetOr([]))
    ensures Truthy(fm.coverImage) && AssetDir <= fm.coverImage.value ==>
              a.coverImage == Some(AssetBaseUrl() + fm.coverImage.value[|AssetDir|..])
    ensures !(Truthy(fm.coverImage) && "../assets" <= fm.coverImage.value) ==> a.coverImage == fm.coverImage
  {
    ReplaceAllIsSplitJoin(body, AssetDir, AssetBaseUrl());
    JoinSplit(body, AssetDir);
    SplitPartsExcludeSeparator(body, AssetDir);
    var cover :=
      if fm.coverImage.Some? && fm.coverImage.value != "" && "../assets" <= fm.coverImage.value
      then Some(ReplaceFirst(fm.coverImage.value, AssetDir, AssetBaseUrl()))
      else fm.coverImage;
    Article(fm.title, ReplaceAll(body, AssetDir, AssetBaseUrl()), Some(fm.tags.GetOr([])), cover, fm.series)
  }

  /** A body without `../assets/` is published as written. */
  lemma BodyWithoutAssetsUnchanged(fm: Frontmatter, body: string)
    requires !Contains(body, AssetDir)
    ensures ParseDraft(fm, body).content == body
  {
    SplitWithoutSeparator(body, AssetDir);
  }

  lemma {:induction false} SplitWithoutSeparator(s: string, sep: string)
    requires sep != [] && !Contains(s, sep)
    ensures SplitOn(s, sep) == [s]
    decreases |s|
  {
    if s != [] {
      SplitWithoutSeparator(s[1..], sep);
      assert s == [s[0]] + s[1..];
    }
  }

  // ---------------------------------------------------------------------------
  // The platform: a store of posts

  /** A post on a platform; `listed` says whether a title lookup can see it yet. */
  datatype Post = Post(id: nat, title: string, url: string, content: string, listed: bool)

  /** Posts are kept in creation order and a post's id is its position. */
  datatype Store = Store(posts: seq<Post>)

  predicate ValidStore(s: Store) {
    forall i :: 0 <= i < |s.posts| ==> s.posts[i].id == i
  }

  /** What an adapter's `publish` or `update` returns. */
  datatype Posted = Posted(platform: string, url: string, id: nat)

  /** Which adapter call the action made. */
  datatype AdapterCall = CallUpdate(id: nat) | CallPublish

  /** `adapter.checkExists(title)`: the first listed post with this title. */
  function CheckExists(s: Store, title: string): (r: Option<Post>)
    ensures r.Some? ==> exists i :: 0 <= i < |s.posts| && s.posts[i] == r.value
    ensures r.Some? ==> r.value.listed && r.value.title == title
    ensures r.None? ==> forall i :: 0 <= i < |s.posts| ==> !(s.posts[i].listed && s.posts[i].title == title)
    decreases |s.posts|
  {
    if s.posts == [] then None
    else if s.posts[0].listed && s.posts[0].title == title then Some(s.posts[0])
    else
      var r := CheckExists(Store(s.posts[1..]), title);
      assert forall j :: 0 <= j < |s.posts| - 1 ==> s.posts[1..][j] == s.posts[j + 1];
      r
  }

  /** How many posts carry this title, listed or not. */
  function CountTitle(posts: seq<Post>, title: string): nat
    decreases |posts|
  {
    if posts == [] then 0
    else CountTitle(posts[..|posts| - 1], title) + (if posts[|posts| - 1].title == title then 1 else 0)
  }

  /** The outcome of one run of the action: the new store, the call made and its result. */
  datatype Attempt = Attempt(store: Store, call: AdapterCall, result: Posted)

  /**
   * The retried action: look the title up, then `update(existing.id, adapted)`
   * if a post is found, otherwise `publish(adapted)`. The platform assigns the
   * URL `url` to a new post and lists it for lookups at once when `listed`.
   */
  function UpsertAction(s: Store, platform: string, adapted: Article, url: string, listed: bool): (r: Attempt)
    requires ValidStore(s)
    ensures ValidStore(r.store)
    ensures r.call.CallUpdate? <==> CheckExists(s, adapted.title).Some?
    ensures r.call.CallUpdate? ==> r.call.id == CheckExists(s, adapted.title).value.id
    ensures r.call.CallUpdate? ==>
      && |r.store.posts| == |s.posts|
      && (forall i :: 0 <= i < |s.posts| && i != r.call.id ==> r.store.posts[i] == s.posts[i])
      && r.store.posts[r.call.id].content == adapted.content
      && r.result.id == r.call.id
    ensures r.call.CallPublish? ==>
      && r.store.posts == s.posts + [Post(|s.posts|, adapted.title, url, adapted.content, listed)]
      && r.result == Posted(platform, url, |s.posts|)
  {
    match CheckExists(s, adapted.title)
    case Some(p) =>
      var updated := p.(title := adapted.title, content := adapted.content);
      Attempt(Store(s.posts[p.id := updated]), CallUpdate(p.id), Posted(platform, p.url, p.id))
    case None =>
      var id := |s.posts|;
      Attempt(Store(s.posts + [Post(id, adapted.title, url, adapted.content, listed)]), CallPublish,
              Posted(platform, url, id))
  }

  /** `verify(result)`: a result with a URL, and a fresh lookup finds the title. */
  function Verify(s: Store, result: Option<Posted>, title: string): (ok: bool)
    ensures ok ==> result.Some? && result.value.url != ""
    ensures result.Some? && result.value.url != "" ==> (ok <==> CheckExists(s, title).Some?)
  {
    result.Some? && result.value.url != "" && CheckExists(s, title).Some?
  }

  lemma {:induction false} CountTitleAppend(posts: seq<Post>, p: Post, title: string)
    ensures CountTitle(posts + [p], title) == CountTitle(posts, title) + (if p.title == title then 1 else 0)
  {
    assert (posts + [p])[..|posts|] == posts;
  }

  lemma {:induction false} CountTitleUpdate(posts: seq<Post>, i: nat, p: Post, title: string)
    requires i < |posts| && posts[i].title == p.title
    ensures CountTitle(posts[i := p], title) == CountTitle(posts, title)
    decreases |posts|
  {
    if i < |posts| - 1 {
      assert posts[i := p][..|posts| - 1] == posts[..|posts| - 1][i := p];
      CountTitleUpdate(posts[..|posts| - 1], i, p, title);
    } else {
      assert posts[i := p][..|posts| - 1] == posts[..|posts| - 1];
    }
  }

  /**
   * Upsert is idempotent when the platform lists a new post at once: running
   * the action again for the same title (a second run, or a retry after the
   * first response was lost) updates the post the first run created, and the
   * platform ends up with exactly one post of that title.
   */
  lemma UpsertTwiceLeavesOne(s: Store, platform: string, adapted: Article, url1: string, url2: string)
    requires ValidStore(s)
    requires CountTitle(s.posts, adapted.title) == 0
    ensures var first := UpsertAction(s, platform, adapted, url1, true);
            var second := UpsertAction(first.store, platform, adapted, url2, true);
            && first.call == CallPublish
            && second.call == CallUpdate(first.result.id)
            && second.result.url == url1
            && CountTitle(second.store.posts, adapted.title) == 1
  {
    var first := UpsertAction(s, platform, adapted, url1, true);
    NoTitleNotFound(s.posts, adapted.title);
    assert first.call == CallPublish;
    CountTitleAppend(s.posts, first.store.posts[|s.posts|], adapted.title);
    var found := CheckExists(first.store, adapted.title);
    OnlyMatchIsFound(first.store, |s.posts|, adapted.title);
    var second := UpsertAction(first.store, platform, adapted, url2, true);
    CountTitleUpdate(first.store.posts, |s.posts|, first.store.posts[|s.posts|].(content := adapted.content), adapted.title);
  }

  lemma {:induction false} NoTitleNotFound(posts: seq<Post>, title: string)
    requires CountTitle(posts, title) == 0
    ensures forall i :: 0 <= i < |posts| ==> posts[i].title != title
    decreases |posts|
  {
    if posts != [] {
      NoTitleNotFound(posts[..|posts| - 1], title);
    }
  }

  /** With a single post of the title, listed, the lookup finds that post. */
  lemma OnlyMatchIsFound(s: Store, k: nat, title: string)
    requires k < |s.posts| && s.posts[k].listed && s.posts[k].title == title
    requires forall i :: 0 <= i < |s.posts| && i != k ==> s.posts[i].title != title
    ensures CheckExists(s, title) == Some(s.posts[k])
  {
  }

  /** When the platform lists a post at once, the action's own result passes verification. */
  lemma UpsertThenVerify(s: Store, platform: string, adapted: Article, url: string)
    requires ValidStore(s)
    requires url != ""
    requires CheckExists(s, adapted.title).Some? ==> CheckExists(s, adapted.title).value.url != ""
    ensures var r := UpsertAction(s, platform, adapted, url, true);
            Verify(r.store, Some(r.result), adapted.title)
  {
    var r := UpsertAction(s, platform, adapted, url, true);
    if r.call.CallPublish? {
      ListedPostFound(r.store, |s.posts|, adapted.title);
    } else {
      var p := CheckExists(s, adapted.title).value;
      ListedPostFound(r.store, p.id, adapted.title);
    }
  }

  lemma {:induction false} ListedPostFound(s: Store, k: nat, title: string)
    requires k < |s.posts| && s.posts[k].listed && s.posts[k].title == title
    ensures CheckExists(s, title).Some?
    decreases |s.posts|
  {
    if k > 0 && !(s.posts[0].listed && s.posts[0].title == title) {
      ListedPostFound(Store(s.posts[1..]), k - 1, title);
    }
  }

  /**
   * Why verification needs a fresh lookup: if the platform does not list a
   * new post at once, verification fails and a second run of the action
   * publishes the same title again.
   */
  lemma UnlistedPostIsPublishedTwice(s: Store, platform: string, adapted: Article, url1: string, url2: string)
    requires ValidStore(s)
    requires CountTitle(s.posts, adapted.title) == 0
    ensures var first := UpsertAction(s, platform, adapted, url1, false);
            var second := UpsertAction(first.store, platform, adapted, url2, false);
            && !Verify(first.store, Some(first.result), adapted.title)
            && second.call == CallPublish
            && CountTitle(second.store.posts, adapted.title) == 2
  {
    var first := UpsertAction(s, platform, adapted, url1, false);
    NoTitleNotFound(s.posts, adapted.title);
    CountTitleAppend(s.posts, first.store.posts[|s.posts|], adapted.title);
    var second := UpsertAction(first.store, platform, adapted, url2, false);
    CountTitleAppend(first.store.posts, second.store.posts[|first.store.posts|], adapted.title);
  }

  // ---------------------------------------------------------------------------
  // publishToPlatform

  /** The platforms with an adapter. */
  predicate IsKnownPlatform(platform: string) {
    platform == "devto" || platform == "hashnode" || platform == "blogger"
  }

  /** The guard `if (!adapter)` as written: it passes for own and inherited keys. */
  predicate AdapterFoundAsWritten(platform: string) {
    IsKnownPlatform(platform) || platform in JsObjects.PrototypeKeys
  }

  /** The guard as written lets `constructor` through although no adapter serves it. */
  lemma InheritedKeyPassesGuard()
    ensures AdapterFoundAsWritten("constructor") && !IsKnownPlatform("constructor")
  {
  }

  datatype Backoff = Exponential

  datatype RetryOptions = RetryOptions(name: string, maxRetries: nat, timeoutMs: nat, backoff: Backoff)

  /** What `publishToPlatform` hands the retry manager: its options and the adapted article. */
  datatype RetryRequest = RetryRequest(options: RetryOptions, adapted: Article)

  /** What the retry manager answers. */
  datatype RetryOutcome =
    | Succeeded(result: Posted, attempts: nat)
    | Failed(error: string, attempts: nat)

  /** One platform's publish step: the retry request made (if any), the notifications sent, the value or error. */
  datatype PlatformStep = PlatformStep(request: Option<RetryRequest>, notices: seq<N.Request>, value: Result<Posted>)

  function StepName(platform: string): string {
    "publish_" + platform
  }

  function RetryOptionsFor(platform: string): (o: RetryOptions)
    ensures o.name == StepName(platform) && o.maxRetries == 3 && o.timeoutMs == 60000 && o.backoff == Exponential
  {
    RetryOptions(StepName(platform), 3, 60000, Exponential)
  }

  /**
   * `publishToPlatform(article, platform)`. An unknown platform fails before
   * any retry request or notification; otherwise a failure is notified with
   * `stepFailed` and thrown, a success is notified with `stepComplete` carrying
   * the URL and the attempt count, and returned.
   */
  function PublishToPlatform(article: Article, platform: string, toHtml: string -> string,
                             execute: RetryRequest -> RetryOutcome): (step: PlatformStep)
    ensures !IsKnownPlatform(platform) ==>
      step.request.None? && step.notices == [] && step.value == Err("Unknown platform: " + platform)
    ensures IsKnownPlatform(platform) ==>
      step.request == Some(RetryRequest(RetryOptionsFor(platform), Translator.AdaptForPlatform(article, platform, toHtml)))
    ensures IsKnownPlatform(platform) && step.value.Err? ==>
      execute(step.request.value).Failed? &&
      step.notices == [N.StepFailed(StepName(platform), N.Value(step.value.message))]
    ensures IsKnownPlatform(platform) && step.value.Ok? ==>
      execute(step.request.value) == Succeeded(step.value.value, execute(step.request.value).attempts) &&
      step.notices == [N.StepComplete(StepName(platform),
        [("url", step.value.value.url), ("attempts", NatToString(execute(step.request.value).attempts))])]
    ensures |step.notices| <= 1
  {
    if !IsKnownPlatform(platform) then
      PlatformStep(None, [], Err("Unknown platform: " + platform))
    else
      var request := RetryRequest(RetryOptionsFor(platform), Translator.AdaptForPlatform(article, platform, toHtml));
      match execute(request)
      case Failed(e, _) =>
        PlatformStep(Some(request), [N.StepFailed(StepName(platform), N.Value(e))], Err(e))
      case Succeeded(r, n) =>
        PlatformStep(Some(request), [N.StepComplete(StepName(platform), [("url", r.url), ("attempts", NatToString(n))])], Ok(r))
  }

  /** A platform step never sends the pipeline-complete notification. */
  lemma PlatformStepNoticesAreStepNotices(article: Article, platform: string, toHtml: string -> string,
                                          execute: RetryRequest -> RetryOutcome)
    ensures forall r :: r in PublishToPlatform(article, platform, toHtml, execute).notices ==>
              r.kind != "pipeline_complete"
  {
  }

  // ---------------------------------------------------------------------------
  // publishToAll

  /** The per-platform steps, in the order of the platform list. */
  function Steps(article: Article, platforms: seq<string>, toHtml: string -> string,
                 execute: RetryRequest -> RetryOutcome): (steps: seq<PlatformStep>)
    ensures |steps| == |platforms|
    ensures forall i :: 0 <= i < |platforms| ==> steps[i] == PublishToPlatform(article, platforms[i], toHtml, execute)
  {
    seq(|platforms|, i requires 0 <= i < |platforms| => PublishToPlatform(article, platforms[i], toHtml, execute))
  }

  /** The successful results, in order. */
  function Successes(steps: seq<PlatformStep>): seq<Posted>
    decreases |steps|
  {
    if steps == [] then []
    else
      var last := steps[|steps| - 1];
      Successes(steps[..|steps| - 1]) + (if last.value.Ok? then [last.value.value] else [])
  }

  /** The failures with their platforms, in order. */
  function Failures(platforms: seq<string>, steps: seq<PlatformStep>): seq<(string, string)>
    requires |platforms| == |steps|
    decreases |steps|
  {
    if steps == [] then []
    else
      var n := |steps| - 1;
      Failures(platforms[..n], steps[..n]) + (if steps[n].value.Err? then [(platforms[n], steps[n].value.message)] else [])
  }

  /** The notifications of the steps, in order. */
  function StepNotices(steps: seq<PlatformStep>): seq<N.Request>
    decreases |steps|
  {
    if steps == [] then [] else StepNotices(steps[..|steps| - 1]) + steps[|steps| - 1].notices
  }

  /** Every step lands in exactly one of the two lists. */
  lemma {:induction false} PartitionCounts(platforms: seq<string>, steps: seq<PlatformStep>)
    requires |platforms| == |steps|
    ensures |Successes(steps)| + |Failures(platforms, steps)| == |steps|
    decreases |steps|
  {
    if steps != [] {
      PartitionCounts(platforms[..|steps| - 1], steps[..|steps| - 1]);
    }
  }

  /**
   * Each failed step is recorded with its own platform and message, each
   * successful one among the results, and the error list holds nothing else.
   */
  lemma OutcomesRecorded(platforms: seq<string>, steps: seq<PlatformStep>)
    requires |platforms| == |steps|
    ensures forall i :: 0 <= i < |steps| && steps[i].value.Err? ==>
              (platforms[i], steps[i].value.message) in Failures(platforms, steps)
    ensures forall i :: 0 <= i < |steps| && steps[i].value.Ok? ==> steps[i].value.value in Successes(steps)
    ensures forall f :: f in Failures(platforms, steps) ==>
              exists i :: 0 <= i < |steps| && steps[i].value.Err? && f == (platforms[i], steps[i].value.message)
  {
    FailuresRecorded(platforms, steps);
    SuccessesRecorded(steps);
    FailuresFromSteps(platforms, steps);
  }

  lemma {:induction false} FailuresRecorded(platforms: seq<string>, steps: seq<PlatformStep>)
    requires |platforms| == |steps|
    ensures forall i :: 0 <= i < |steps| && steps[i].value.Err? ==>
              (platforms[i], steps[i].value.message) in Failures(platforms, steps)
    decreases |steps|
  {
    if steps != [] {
      var n := |steps| - 1;
      FailuresRecorded(platforms[..n], steps[..n]);
      var prev := Failures(platforms[..n], steps[..n]);
      assert prev <= Failures(platforms, steps);
      forall i | 0 <= i < |steps| && steps[i].value.Err?
        ensures (platforms[i], steps[i].value.message) in Failures(platforms, steps)
      {
        if i < n {
          assert platforms[..n][i] == platforms[i] && steps[..n][i] == steps[i];
          assert (platforms[i], steps[i].value.message) in prev;
        }
      }
    }
  }

  lemma {:induction false} SuccessesRecorded(steps: seq<PlatformStep>)
    ensures forall i :: 0 <= i < |steps| && steps[i].value.Ok? ==> steps[i].value.value in Successes(steps)
    decreases |steps|
  {
    if steps != [] {
      var n := |steps| - 1;
      SuccessesRecorded(steps[..n]);
      var prev := Successes(steps[..n]);
      assert prev <= Successes(steps);
      forall i | 0 <= i < |steps| && steps[i].value.Ok?
        ensures steps[i].value.value in Successes(steps)
      {
        if i < n {
          assert steps[..n][i] == steps[i];
          assert steps[i].value.value in prev;
        }
      }
    }
  }

  lemma {:induction false} FailuresFromSteps(platforms: seq<string>, steps: seq<PlatformStep>)
    requires |platforms| == |steps|
    ensures forall f :: f in Failures(platforms, steps) ==>
              exists i :: 0 <= i < |steps| && steps[i].value.Err? && f == (platforms[i], steps[i].value.message)
    decreases |steps|
  {
    if steps != [] {
      var n := |steps| - 1;
      FailuresFromSteps(platforms[..n], steps[..n]);
      var prev := Failures(platforms[..n], steps[..n]);
      forall f | f in Failures(platforms, steps)
        ensures exists i :: 0 <= i < |steps| && steps[i].value.Err? && f == (platforms[i], steps[i].value.message)
      {
        if f in prev {
          var i :| 0 <= i < n && steps[..n][i].value.Err? && f == (platforms[..n][i], steps[..n][i].value.message);
          assert platforms[..n][i] == platforms[i] && steps[..n][i] == steps[i];
        } else {
          assert steps[n].value.Err? && f == (platforms[n], steps[n].value.message);
        }
      }
    }
  }


  /** `results.map(r => `${r.platform}: ${r.url}`).join('\n')` */
  function UrlSummary(results: seq<Posted>): string {
    Join(seq(|results|, i requires 0 <= i < |results| => results[i].platform + ": " + results[i].url), "\n")
  }

  /** What `publishToAll` returns and the notifications it sends. */
  datatype Summary = Summary(results: seq<Posted>, errors: seq<(string, string)>, notices: seq<N.Request>)

  /** `publishToAll` without the cover wait, as a specification. */
  function PublishSummary(article: Article, platforms: seq<string>, toHtml: string -> string,
                          execute: RetryRequest -> RetryOutcome): Summary
  {
    var steps := Steps(article, platforms, toHtml, execute);
    var results := Successes(steps);
    var errors := Failures(platforms, steps);
    Summary(results, errors,
            StepNotices(steps)
            + (if |results| > 0 then [N.PipelineComplete(|results|, |errors|, UrlSummary(results))] else []))
  }

  /** Steps' notifications are step notifications only. */
  lemma {:induction false} StepNoticesNotPipeline(article: Article, platforms: seq<string>, toHtml: string -> string,
                                                  execute: RetryRequest -> RetryOutcome, n: nat)
    requires n <= |platforms|
    ensures forall r :: r in StepNotices(Steps(article, platforms, toHtml, execute)[..n]) ==> r.kind != "pipeline_complete"
    decreases n
  {
    var steps := Steps(article, platforms, toHtml, execute);
    if n > 0 {
      StepNoticesNotPipeline(article, platforms, toHtml, execute, n - 1);
      assert steps[..n][..n - 1] == steps[..n - 1];
      PlatformStepNoticesAreStepNotices(article, platforms[n - 1], toHtml, execute);
    }
  }

  /**
   * The pipeline-complete notification is sent, once and last, exactly when
   * some platform succeeded; every platform is either a result or an error.
   */
  lemma PipelineCompleteIffSomeSuccess(article: Article, platforms: seq<string>, toHtml: string -> string,
                                       execute: RetryRequest -> RetryOutcome)
    ensures var sum := PublishSummary(article, platforms, toHtml, execute);
            && |sum.results| + |sum.errors| == |platforms|
            && ((exists r :: r in sum.notices && r.kind == "pipeline_complete") <==> |sum.results| > 0)
            && (|sum.results| > 0 ==> sum.notices[|sum.notices| - 1].kind == "pipeline_complete")
  {
    var steps := Steps(article, platforms, toHtml, execute);
    PartitionCounts(platforms, steps);
    StepNoticesNotPipeline(article, platforms, toHtml, execute, |platforms|);
    assert steps[..|platforms|] == steps;
  }

  /**
   * `publishToAll(draft, platforms)`: parse the draft, wait for a remote
   * cover to become reachable, then publish to each platform in turn; one
   * platform's failure never stops the others. `coverProbe` and
   * `coverLatency` are what the cover URL answers while it is polled.
   */
  method PublishToAll(fm: Frontmatter, body: string, platforms: seq<string>, toHtml: string -> string,
                      execute: RetryRequest -> RetryOutcome,
                      coverProbe: nat -> AV.Probe, coverLatency: nat -> nat)
    returns (results: seq<Posted>, errors: seq<(string, string)>, notices: seq<N.Request>, coverPolled: bool)
    ensures var article := ParseDraft(fm, body);
            Summary(results, errors, notices) == PublishSummary(article, platforms, toHtml, execute)
    ensures coverPolled <==> Truthy(ParseDraft(fm, body).coverImage) && "http" <= ParseDraft(fm, body).coverImage.value
  {
    var article := ParseDraft(fm, body);
    coverPolled := false;
    if article.coverImage.Some? && article.coverImage.value != "" {
      // Pushing the cover to the repository is not modelled.
      if "http" <= article.coverImage.value {
        var options := AV.ResolveOptions(Some(60000), None, None);
        var available, attempts, elapsed := AV.WaitForUrl(article.coverImage.value, options, coverProbe, coverLatency);
        coverPolled := true;
      }
    }
    results, errors, notices := PublishEach(article, platforms, toHtml, execute);
    if |results| > 0 {
      notices := notices + [N.PipelineComplete(|results|, |errors|, UrlSummary(results))];
    }
  }

  /** What one more step adds to each of the three lists. */
  lemma CollectStep(platforms: seq<string>, steps: seq<PlatformStep>, i: nat)
    requires |platforms| == |steps| && i < |steps|
    ensures Successes(steps[..i + 1])
         == Successes(steps[..i]) + (if steps[i].value.Ok? then [steps[i].value.value] else [])
    ensures Failures(platforms[..i + 1], steps[..i + 1])
         == Failures(platforms[..i], steps[..i]) + (if steps[i].value.Err? then [(platforms[i], steps[i].value.message)] else [])
    ensures StepNotices(steps[..i + 1]) == StepNotices(steps[..i]) + steps[i].notices
  {
    assert steps[..i + 1][..i] == steps[..i];
    assert platforms[..i + 1][..i] == platforms[..i];
  }

  /** The loop of `publishToAll`: each platform in turn, collecting results, errors and notices. */
  method PublishEach(article: Article, platforms: seq<string>, toHtml: string -> string,
                     execute: RetryRequest -> RetryOutcome)
    returns (results: seq<Posted>, errors: seq<(string, string)>, notices: seq<N.Request>)
    ensures var steps := Steps(article, platforms, toHtml, execute);
            results == Successes(steps) && errors == Failures(platforms, steps) && notices == StepNotices(steps)
  {
    ghost var steps := Steps(article, platforms, toHtml, execute);
    results, errors, notices := [], [], [];
    for i := 0 to |platforms|
      invariant results == Successes(steps[..i])
      invariant errors == Failures(platforms[..i], steps[..i])
      invariant notices == StepNotices(steps[..i])
    {
      var step := PublishToPlatform(article, platforms[i], toHtml, execute);
      assert step == steps[i];
      CollectStep(platforms, steps, i);
      notices := notices + step.notices;
      match step.value
      case Ok(r) => results := results + [r];
      case Err(e) => errors := errors + [(platforms[i], e)];
    }
    assert steps[..|platforms|] == steps;
    assert platforms[..|platforms|] == platforms;
  }
}
