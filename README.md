# devto-publisher core, modelled in Dafny

devto-publisher turns a markdown draft into articles on Dev.to, Hashnode and
Blogger, and prepares a copy for Naver Blog. This project models the logic at
the centre of that pipeline and proves what the code promises about it:

- the publish step (`lib/publisher.js`). A draft is parsed and its asset paths
  rewritten. Each platform then gets an upsert by title (look the title up,
  then update or publish, never both), checked by a fresh lookup. The
  multi-platform loop puts every platform into exactly one of the results or
  the errors.
- the older single-platform script `publish.js`: its title match, its
  create-or-update choice, and the collection of image URLs it probes.
- the asset poll (`lib/asset-verifier.js`) on a logical clock.
- the quality gate (`quality_gate.js`): the syllable counter, the six
  penalties, and the score and grade.
- the call-to-action blocks (`lib/cta-injector.js`): template filling,
  detection and injection.
- per-platform adaptation and draft selection (`lib/translator.js`).
- the Naver export (`scripts/export-naver.js`): the inline rewrites and their
  order, the line-wrapping loop, image extraction and the slug.
- mail notifications (`lib/notifier.js`): when they are sent, their subject,
  step names and details section.
- tone profiles and the prompt built from them (`lib/tone-profiles.js`).
- the trend-rejection rule and the avoidance text (`lib/trend-validator.js`).

The remote platform is a store of posts kept in creation order. A post's id
is its position, and a `listed` flag says whether a title lookup can see it
yet. Everything the code reaches over the network, the file system, a
browser, an AI model or the clock enters the model as a parameter: HTTP
answers, the retry manager, the markdown-to-HTML converter, the mail
transport, the model's parsed reply, file existence and request latency.

Modules (one file each): `Wrappers`, `Text` (string functions with their
laws), `JsObjects`, `Config`, `Articles`, `AssetVerifier`, `Publisher`,
`LegacyPublish`, `QualityGate`, `CtaInjector`, `Translator`, `NaverExport`,
`Notifier`, `ToneProfiles`, `TrendValidator`.

## Model

| member | source | states |
|---|---|---|
| Config.RawBaseUrl | config.js:13-15 | the raw-content base URL starts with the `raw.githubusercontent.com` host and ends with the branch `/main` |
| Config.AssetBaseUrl | config.js:16-18 | the asset base URL is an `https://` URL that extends the raw base URL and ends with `/assets/` |
| Publisher.ParseDraft | lib/publisher.js:35-58 | the body splits at every `../assets/` into pieces without it, and the content is those pieces rejoined with the asset base URL (rejoining with `../assets/` gives the body back). Title and series are copied. Missing tags become `[]`. A truthy cover starting with `../assets/` gets the base URL in place of that prefix; a cover that is falsy or does not start with `../assets` is kept |
| Publisher.BodyWithoutAssetsUnchanged | lib/publisher.js:42 | a body with no `../assets/` passes through unchanged |
| Publisher.CheckExists | lib/publisher.js:79 | a lookup returns a listed post that has exactly the title asked for, or nothing when no listed post has it |
| Publisher.UpsertAction | lib/publisher.js:77-87 | the action calls update, with the found post's id, exactly when the lookup finds the title; otherwise it calls publish; never both. An update rewrites that post's content and leaves every other post as it was. A publish appends one post with the next id and the new URL. The store's ids stay equal to positions |
| Publisher.Verify | lib/publisher.js:88-93 | verification fails when the result or its URL is missing; otherwise it succeeds exactly when a fresh lookup finds the title |
| Publisher.UpsertTwiceLeavesOne | lib/publisher.js:79-86 | for a title not yet on a platform that lists new posts at once: the first run publishes; the second updates that same post and keeps its URL; exactly one post with the title remains |
| Publisher.UpsertThenVerify | lib/publisher.js:77-93 | on a platform that lists new posts at once, verification accepts the result of the action, whether it updated or published |
| Publisher.UnlistedPostIsPublishedTwice | lib/publisher.js:79-93 | when a new post is not yet listed, verification rejects the first run and a retry publishes a second post with the same title |
| Publisher.InheritedKeyPassesGuard | lib/publisher.js:64-67 | the unknown-platform guard as written lets `constructor` through although no adapter serves it (see Findings) |
| Publisher.RetryOptionsFor | lib/publisher.js:75-97 | the retried step is named `publish_<platform>`, with 3 retries, 60000 ms per attempt and exponential backoff |
| Publisher.PublishToPlatform | lib/publisher.js:63-113 | an unknown platform fails with `Unknown platform: <name>` before any retry request or notification. A known platform hands the retry manager the platform-adapted article. A failed retry sends exactly one `stepFailed` notice and fails with its error. A success sends exactly one `stepComplete` notice with the URL and attempt count, and returns the result |
| Publisher.PlatformStepNoticesAreStepNotices | lib/publisher.js:99-109 | a single platform's step never sends the pipeline-complete notice |
| Publisher.PartitionCounts | lib/publisher.js:145-156 | the number of results plus the number of errors equals the number of platforms |
| Publisher.OutcomesRecorded | lib/publisher.js:148-155 | every failed platform appears in the errors with its own name and message, and the errors hold nothing else; every success appears among the results |
| Publisher.StepNoticesNotPipeline | lib/publisher.js:148-156 | the notices sent by the loop over platforms are never the pipeline-complete notice |
| Publisher.PipelineCompleteIffSomeSuccess | lib/publisher.js:166-174 | the pipeline-complete notice is sent exactly when some platform succeeded, and then it is the last notice; results and errors together cover every platform |
| Publisher.PublishToAll | lib/publisher.js:118-177 | returns exactly the results, errors and notices of the summary specification for the parsed draft. The cover is polled exactly when it is truthy and starts with `http` |
| Publisher.PublishEach | lib/publisher.js:145-156 | the loop collects, in platform order, exactly the successes, the failures paired with their platforms, and the notices of the steps |
| LegacyPublish.BaseAssetUrl | publish.js:45-48 | the script's inline asset base URL is the configured asset base URL |
| LegacyPublish.BuildArticle | publish.js:42-69 | the whole file, front matter included, has every `../assets/` replaced by the base URL. The article is published, and its title, series and tags are taken as given (tags not defaulted). The cover rule is the same as in `parseDraft` |
| LegacyPublish.RewriteAgreesWithParseDraft | publish.js:51-57 | the script's body and cover rewrite agree with `parseDraft` on the same text; the two differ only in defaulting missing tags |
| LegacyPublish.FindExisting | publish.js:81 | returns the index of the first listed article whose trimmed title equals the new article's trimmed title, and nothing when no title matches |
| LegacyPublish.FindFromFirstMatch | publish.js:81 | the search over the trimmed listing titles from any position stops at the first equal title, and comes back empty only when no title from there on is equal |
| LegacyPublish.ArticleId | publish.js:73-88 | a failed listing gives no id. Otherwise the id is that of the first article with the same trimmed title, if any |
| LegacyPublish.ChooseRequest | publish.js:90-110 | a PUT on the id is made exactly when the id is present and truthy (not 0); otherwise a POST. Either way the request carries the article |
| LegacyPublish.ListingFailureCreates | publish.js:86-88 | when listing existing articles fails, the article is created |
| LegacyPublish.UpdateIffTitleListed | publish.js:81-110 | with a listing, the script updates exactly when some listed title matches after trimming and that article's id is not 0, and it updates the first such article |
| LegacyPublish.UrlRun | publish.js:133 | the URL tail the pattern takes is the longest run of characters other than `)`, `"` and whitespace |
| LegacyPublish.NextMatch | publish.js:137 | finds the leftmost match at or after the search position, or reports that none is left |
| LegacyPublish.MatchesAreImageUrls | publish.js:133-139 | every collected match starts with the raw-content host, has at least one more character, and that tail holds only URL characters |
| LegacyPublish.DedupIsSet | publish.js:135-139 | the set of URLs holds exactly the matched URLs, each once, in first-seen order |
| LegacyPublish.HostWithPathIsFound | publish.js:133-139 | a raw-content URL followed by a URL character anywhere in the text is found |
| LegacyPublish.CollectImageUrls | publish.js:133-139 | the `exec` loop yields the distinct matches in first-seen order |
| LegacyPublish.ProbeAll | publish.js:148-162 | every URL is probed once, in order, and `allValid` holds exactly when every probe answered 200 |
| LegacyPublish.VerifyImagesFromContent | publish.js:131-173 | with no match, nothing is probed. Otherwise the distinct matches are probed, each once, and `allValid` is false exactly when some probe is not 200 or throws |
| AssetVerifier.ResolveOptions | lib/asset-verifier.js:15-19 | a missing timeout is 60000, a missing interval 2000, a missing `silent` false; a given value is kept |
| AssetVerifier.WaitForUrl | lib/asset-verifier.js:14-54 | a URL not starting with `http` is available at once, with zero requests. Otherwise it reports available only right after a request that answered 200, made before the deadline. Every earlier request answered something else or threw, and each was made before the deadline. It reports unavailable only once the clock has reached the timeout and no request, the last included, answered 200 |
| AssetVerifier.ClockAtLeast | lib/asset-verifier.js:31-45 | after n unsuccessful rounds, the clock has advanced by at least n intervals |
| AssetVerifier.AttemptsBounded | lib/asset-verifier.js:27-45 | requests made before the deadline are fewer than `timeout / interval + 1`, so polling ends |
| QualityGate.LowerForLetters | quality_gate.js:19 | what lower-casing leaves for `[a-z]`: ASCII capitals lowered, `İ` (U+0130) giving `i` and the Kelvin sign (U+212A) giving `k`, as full Unicode lower-casing does |
| QualityGate.Letters | quality_gate.js:19 | the cleaned word holds only lower-case ASCII letters and is no longer than the word |
| QualityGate.LettersOfAsciiWord | quality_gate.js:19 | a word made of ASCII letters is cleaned to its lower-case form, nothing dropped |
| QualityGate.DottedCapitalIKept | quality_gate.js:19 | a word starting with `İ`, such as `İstanbul`, keeps it as `i`, so its vowel groups are counted as the program counts them |
| QualityGate.Syllables | quality_gate.js:18-39 | a word has at least one syllable, and exactly one when its cleaned form has at most 3 letters |
| QualityGate.CountVowelGroups | quality_gate.js:22-31 | the loop over characters counts the maximal runs of `aeiouy` |
| QualityGate.CountSyllables | quality_gate.js:18-39 | the imperative counter returns the syllable count of the specification |
| QualityGate.SyllablesAtMostVowelGroupsPlusOne | quality_gate.js:33-38 | the trailing-`e` and consonant-`le` adjustments add at most one to the vowel-group count |
| QualityGate.CalculateReadability | quality_gate.js:41-67 | grade 0 with no word count exactly when there are no sentences or no words. Otherwise the word count is the number of words holding a letter, and the grade is the formula applied to the word, sentence and syllable counts |
| QualityGate.EmptyReadabilityIffNoLetter | quality_gate.js:42-47 | the empty-input branch is taken exactly when the text has no ASCII letter |
| QualityGate.TitlePenalty | quality_gate.js:87-95 | a title shorter than 30 costs 10, one longer than 70 costs 5, otherwise 0 |
| QualityGate.TagsPenalty | quality_gate.js:99-107 | fewer than 3 or more than 5 tags cost 5, otherwise 0 |
| QualityGate.ReadabilityPenalty | quality_gate.js:111-119 | a grade below 6 or above 14 costs 10, otherwise 0 |
| QualityGate.WordCountPenaltyAsWritten | quality_gate.js:122-134 | the word-count penalty as written: no count at all costs nothing (see Findings) |
| QualityGate.WordCountPenalty | quality_gate.js:123-134 | fewer than 800 words cost 15; 800-1499 or more than 4000 cost 5; 1500-4000 cost 0 |
| QualityGate.EmptyArticlePassesWordCount | quality_gate.js:45-47 | an empty article has no word count, so it passes the word-count check as written; the corrected rule charges it 15 |
| QualityGate.WordCount | quality_gate.js:122 | the count the corrected rule uses: the readability result's word count, and 0 where the result has none (see Findings) |
| QualityGate.WordCountCheckAsWritten | quality_gate.js:45-47 | a draft without an ASCII letter passes the gate's Word Count check with penalty 0, where the corrected rule would charge 15; a draft with a letter is charged what the corrected rule charges |
| QualityGate.ImagesPenalty | quality_gate.js:137-149 | no images at all cost 15, only a cover costs 5, any inline image costs 0 |
| QualityGate.CtaPenalty | quality_gate.js:152-161 | a body without a call-to-action phrase costs 10, otherwise 0 |
| QualityGate.GradeOf | quality_gate.js:165 | the grade is A from 90, B from 80, C from 70, D from 60 and F below 60, each band exactly; so it is A, B or C exactly when the score is at least 70 |
| QualityGate.PenaltiesCapped | quality_gate.js:84-161 | the six penalties never exceed 10, 5, 10, 15, 15 and 10 |
| QualityGate.ChecksForShape | quality_gate.js:84-161 | exactly six checks, in the order Title Length, Tags, Readability, Word Count, Images, Call to Action; each passes exactly when its penalty is 0 |
| QualityGate.PenaltiesAtMost65 | quality_gate.js:78-161 | the penalties of any draft add up to at most 65 |
| QualityGate.RunChecks | quality_gate.js:78-161 | the checks pushed are those of the specification, in order, and the score is 100 minus the sum of their penalties. The Word Count check applies the rule as the program writes it, so a draft without a word count passes it |
| QualityGate.CheckQuality | quality_gate.js:74-168 | the report's score is 100 minus the penalties and lies in [35, 100]. `passed` holds exactly when the score is at least 70, which is exactly when the grade is A, B or C; the grade is the ten-point band of the score |
| CtaInjector.TemplatesBraceFree | lib/cta-injector.js:24-62 | outside their two kinds of slot, the templates contain no `{` |
| CtaInjector.AppStoreUrl | lib/cta-injector.js:77 | `ko` selects the Korean App Store URL; any other language selects the English one |
| CtaInjector.AppStoreUrlsMentionApple | lib/cta-injector.js:12-18 | both App Store URLs contain `apps.apple.com`, written in lower case |
| CtaInjector.GetCTA | lib/cta-injector.js:70-82 | a channel without a template gives `''`. No block contains `{`, `{{appStoreUrl}}` or `{{websiteUrl}}` |
| CtaInjector.GetCTAAsWritten | lib/cta-injector.js:70-82 | the lookup as written fails with `template.replace is not a function` exactly for the keys a plain object inherits; for every other channel it gives the block of the own-key lookup (see Findings) |
| CtaInjector.InheritedChannelThrows | lib/cta-injector.js:71-75 | for `constructor` the lookup as written throws, where the own-key lookup gives the empty block of an unknown channel |
| CtaInjector.FirstPass | lib/cta-injector.js:80 | the first global replace fills every App Store slot and leaves the website slots |
| CtaInjector.SecondPass | lib/cta-injector.js:81 | the second global replace fills every website slot |
| CtaInjector.GetCTAIsReplaceChain | lib/cta-injector.js:79-81 | the two replaces give the template with each slot filled by its link |
| CtaInjector.InjectBody | lib/cta-injector.js:108-129 | unless forced, a body that already has a call to action is returned unchanged. Otherwise the result is the trimmed body, a line break and the channel's block, so the trimmed body is a prefix |
| CtaInjector.InjectedHasCTA | lib/cta-injector.js:89-99 | after injection for a known channel, the body has a call to action |
| CtaInjector.InjectIdempotent | lib/cta-injector.js:108-122 | for a known channel, a second unforced injection changes nothing |
| CtaInjector.DetectChannelFromFilename | lib/cta-injector.js:149-155 | a name containing `-ko.md` gives `blogger_kr`/`ko`; any other gives `devto`/`en` |
| CtaInjector.DetectionAgreesWithTranslator | lib/cta-injector.js:150 | channel detection picks Korean exactly when the translator calls the file a Korean draft |
| CtaInjector.DevtoCtaHasEnglishLink | test_cta.js:5-7 | the Dev.to block in English contains the English App Store link |
| CtaInjector.DevtoCtaHasLink | lib/cta-injector.js:77-80 | for every language but `ko`, the Dev.to block contains the English App Store link |
| CtaInjector.BloggerCtaHasKoreanLink | test_cta.js:9-11 | the Korean Blogger block contains the `kr/app/mandaact` link |
| CtaInjector.KoreanFileDetected | test_cta.js:13-16 | `test-ko.md` is detected as Korean |
| CtaInjector.InjectedDevtoHasDownloadLine | test_cta.js:18-21 | injecting the Dev.to block into a body without a call to action adds the `Download MandaAct` line |
| CtaInjector.DevtoCtaHasDownloadLabel | lib/cta-injector.js:32 | the Dev.to block, in any language, holds the `Download MandaAct` label |
| Translator.RemoveWhitespace | lib/translator.js:78 | the result holds exactly the non-whitespace characters of the input and is no longer |
| Translator.DevtoTag | lib/translator.js:78 | a normalised tag holds exactly the characters of the lower-cased tag that are not white space; a tag without white space is only lower-cased. It has no upper-case letter and is no longer than the tag |
| Translator.DevtoTagIdempotent | lib/translator.js:78 | normalising a normalised tag changes nothing |
| Translator.HashnodeTags | lib/translator.js:72 | absent tags stay absent; otherwise the result is the first tags, in order, at most 5 of them |
| Translator.DevtoTags | lib/translator.js:78 | absent tags stay absent; otherwise each tag is normalised in place and the count is unchanged |
| Translator.CoverTag | lib/translator.js:64 | the cover element starts with `<img src="<cover>"` and ends with `>` and a blank line |
| Translator.AdaptForPlatform | lib/translator.js:40-87 | title, cover and series never change. Blogger's content ends with the converted HTML and starts with the cover's `<img>` when there is a cover. Hashnode and Dev.to keep the content and adapt only the tags. An unknown platform returns the article unchanged |
| Translator.AdaptTagsIdempotent | lib/translator.js:70-80 | adapting for Dev.to or Hashnode twice gives the same as adapting once |
| Translator.IsKoreanDraft | lib/translator.js:94-96 | true exactly when the name contains `-ko.md` |
| Translator.GetDraftPathForPlatform | lib/translator.js:104-119 | non-Blogger platforms get the base path. Blogger gets the `-ko.md` path when that file exists, else the base path |
| Translator.KoreanPathOfMarkdown | lib/translator.js:107 | for `<stem>.md` with no other `.md`, the Korean path is `<stem>-ko.md`, which is recognised as a Korean draft |
| NaverExport.MatchImage | scripts/export-naver.js:24 | an image match has an alt text without `]` and a non-empty URL without `)` |
| NaverExport.MatchedImageShape | scripts/export-naver.js:24 | a match is exactly `![alt](url)` at the front of the text |
| NaverExport.ImageMarkupMatches | scripts/export-naver.js:24 | every `![alt](url)` with such an alt and URL is matched, with those two groups |
| NaverExport.MatchBold | scripts/export-naver.js:27 | a bold match has non-empty text without `*` |
| NaverExport.MatchedBoldShape | scripts/export-naver.js:27 | a bold match is exactly `**text**` at the front of the text |
| NaverExport.MatchLink | scripts/export-naver.js:30 | a link match has non-empty text without `]` and a URL without `)` |
| NaverExport.MatchedLinkScheme | scripts/export-naver.js:30 | a matched link URL starts with `http://` or `https://` and has more after the scheme |
| NaverExport.MatchedLinkShape | scripts/export-naver.js:30 | a link match is exactly `[text](url)` at the front of the text |
| NaverExport.LinkMarkupMatches | scripts/export-naver.js:30 | every `[text](http…)` link of that form is matched, with those two groups |
| NaverExport.ImagePassPlaces | scripts/export-naver.js:24 | the image pass replaces every image of a draft by its placeholder and leaves the rest of the text |
| NaverExport.PreprocessAfterImages | scripts/export-naver.js:21-33 | once images are placeholders and no `*` or `[` remains, the bold and link passes change nothing |
| NaverExport.LinksFirstWouldAnchorImages | scripts/export-naver.js:22-30 | run before the image pass, the link pass would turn `![alt](url)` into `!` and an anchor; this is why images go first |
| NaverExport.HeadingLine | scripts/export-naver.js:42-44 | a `###`/`##` line at a line start becomes the styled h3/h2 element, and a `# ` line becomes empty |
| NaverExport.RuleLine | scripts/export-naver.js:47 | a `---` line becomes the styled rule |
| NaverExport.WrapLineStart | scripts/export-naver.js:57-70 | a line becomes empty exactly when it is blank after trimming; otherwise it starts with `<` or `•` |
| NaverExport.WrapLineKeepsText | scripts/export-naver.js:57-70 | the wrapped line contains the trimmed line |
| NaverExport.WrapLineTrimmed | scripts/export-naver.js:57-70 | a wrapped line has nothing left to trim |
| NaverExport.WrapLineSingle | scripts/export-naver.js:57-70 | wrapping a line without a line break never adds one |
| NaverExport.WrapLineIdempotent | scripts/export-naver.js:63-64 | a wrapped line passes through the wrapping unchanged |
| NaverExport.NaverLines | scripts/export-naver.js:53 | the rewritten text splits into at least one line, none holding a line break |
| NaverExport.JoinLines | scripts/export-naver.js:73 | joining lines without line breaks by `\n` and splitting again gives the lines back |
| NaverExport.ToNaverHtml | scripts/export-naver.js:38-74 | the output has exactly one line per line of the rewritten text, each the wrapping of that line |
| NaverExport.ExtractImages | scripts/export-naver.js:79-90 | the `exec` loop returns the images of the specification |
| NaverExport.ImagesOfDraft | scripts/export-naver.js:79-90 | one `{alt, path}` per `![alt](path)` of a draft, in order of appearance |
| NaverExport.DashRuns | scripts/export-naver.js:134 | after the first replace only slug characters and `-` remain, never two `-` in a row |
| NaverExport.Slugify | scripts/export-naver.js:134 | a slug holds only lower-case slug characters and single dashes, and is at most 50 UTF-16 units long |
| NaverExport.SlugLowerChar | scripts/export-naver.js:134 | `toLowerCase` of one character as far as the slug can tell: ASCII capitals are lowered, `İ` becomes `i` and a combining dot, and the Kelvin sign becomes `k` |
| NaverExport.SlugLowerIsToLower | scripts/export-naver.js:134 | without `İ` or the Kelvin sign, lower-casing is character by character |
| NaverExport.DottedCapitalISlug | scripts/export-naver.js:134 | `İ` before slug characters gives `i-`, because the combining dot is not a slug character (`İstanbul` becomes `i-stanbul`) |
| NaverExport.KelvinSignSlug | scripts/export-naver.js:134 | the Kelvin sign before slug characters becomes `k` |
| NaverExport.SlugifyIdempotent | scripts/export-naver.js:134 | slugifying a slug changes nothing |
| NaverExport.SlugOfPlainTitle | scripts/export-naver.js:134 | a title of at most 50 characters that lower-case to slug characters slugifies to its lower-case form |
| Notifier.FormatStepName | lib/notifier.js:137-148 | a known step id maps to its display name; any other step is returned unchanged |
| Notifier.KnownStepNames | lib/notifier.js:138-146 | there are exactly seven known step ids, and each has a non-empty display name different from the id |
| Notifier.StatusEmoji | lib/notifier.js:60 | ✅ for success, ❌ for failed, ⚠️ for anything else |
| Notifier.BuildSubject | lib/notifier.js:59-73 | step subjects are the status emoji, the `[Content Publisher]` brand and the step's display name, separated by spaces, followed by ` 완료` or ` 실패`. The pipeline subject is fixed, whatever the step. Any other type gives the brand and the step name |
| Notifier.Lookup | lib/notifier.js:91 | a details key yields a value stored under it, or nothing when no entry has that key |
| Notifier.Kept | lib/notifier.js:83-85 | the listed entries are exactly the details entries whose key is neither `previewHtml` nor `error` |
| Notifier.ItemsAreKeptEntries | lib/notifier.js:83-86 | the items loop renders exactly the kept entries, in order |
| Notifier.DetailsHtml | lib/notifier.js:80-103 | non-empty details give the heading and the kept entries. The error block closes the section exactly when the status is `failed` and an error is present |
| Notifier.BuildDetailsList | lib/notifier.js:80-88 | the `+=` loop builds the details list of the specification |
| Notifier.BuildDetailsHtml | lib/notifier.js:80-103 | the details section built step by step is that of the specification |
| Notifier.Send | lib/notifier.js:33-57 | when disabled, nothing is handed to the transport and the result is `disabled`. Otherwise the mail goes to the transport once; a delivery returns its message id and a transport error comes back as a result, never thrown |
| Notifier.ErrorDetail | lib/notifier.js:158 | an error object with a message gives that message, one with an empty message gives its name (`TypeError`, ...); any other thrown value gives the value itself |
| Notifier.StepComplete | lib/notifier.js:153-155 | a step-complete request has status success and carries the step and details as given |
| Notifier.StepFailed | lib/notifier.js:157-159 | a step-failed request has status failed and an `error` detail holding the error's text, and lists no other detail |
| Notifier.PipelineComplete | lib/notifier.js:161-168 | the pipeline request is for step `all` with status success, and carries the published and failed counts and the URL summary |
| Notifier.StepFailedShowsError | lib/notifier.js:101-103 | a failure notice with a non-empty error shows the error block and lists no entries |
| ToneProfiles.ProfilesKeyedById | lib/tone-profiles.js:8-113 | each profile is stored under its own id |
| ToneProfiles.OnlyKoreanProfileIsFormal | lib/tone-profiles.js:8-113 | only `blogger_kr` sets honorifics and asks to avoid bold |
| ToneProfiles.GetAvailableProfiles | lib/tone-profiles.js:132-134 | exactly the table's keys, each once |
| ToneProfiles.GetProfile | lib/tone-profiles.js:120-126 | a profile is returned exactly for the three table ids, and it is the one stored under that id; any other id fails with the message listing the available ids |
| ToneProfiles.InheritedKeyReturnsNoProfile | lib/tone-profiles.js:120-126 | the lookup as written returns a member of `Object.prototype` for `constructor` instead of throwing (see Findings) |
| ToneProfiles.LookupsAgreeOffPrototype | lib/tone-profiles.js:120-126 | for every id that is not an `Object.prototype` member, the lookup as written and the corrected one agree |
| ToneProfiles.BuildPromptInstructions | lib/tone-profiles.js:141-184 | an id the corrected lookup rejects fails with its error (see "## Left out" for inherited ids); a known one gives the instructions of the specification, built by appending line by line |
| ToneProfiles.PromptStartsWithHeader | lib/tone-profiles.js:144 | the instructions start with the guide header naming the upper-cased id |
| ToneProfiles.PromptEndsWithTagLimit | lib/tone-profiles.js:181 | the instructions end with the `Tags: max N` line for the profile's tag count |
| ToneProfiles.EmojiForbiddenIffNotAllowed | lib/tone-profiles.js:153-157 | the emoji line reads "NOT allowed" exactly when emoji are not allowed |
| ToneProfiles.HonorificsOnlyWhenSet | lib/tone-profiles.js:163-165 | an honorifics line appears exactly when the profile sets honorifics, and then it names them |
| ToneProfiles.AvoidBoldOnlyWhenSet | lib/tone-profiles.js:171-173 | the avoid-bold line appears exactly when the profile sets `avoidBold` |
| TrendValidator.FailureFallback | lib/trend-validator.js:86-96 | on failure the record says unsuccessful but relevant, with confidence 50, no risks or replacements, and the error message |
| TrendValidator.ValidationOf | lib/trend-validator.js:81-96 | a parsed reply yields `success: true` unless the reply carries its own `success`, with its relevance, score, reasoning, risks, replacements and recommendations kept and no error; a failure yields the fallback |
| TrendValidator.ShouldRejectTopic | lib/trend-validator.js:133-135 | a rejected topic is irrelevant and scored below the threshold |
| TrendValidator.RejectIffUnderDefault | lib/trend-validator.js:133-135 | with the default threshold, a topic is rejected exactly when it is irrelevant and scored below 40 |
| TrendValidator.RelevantNeverRejected | lib/trend-validator.js:134 | a relevant topic is never rejected, whatever its score or the threshold |
| TrendValidator.FailureNeverRejects | lib/trend-validator.js:89-96 | the failure fallback is never rejected, whatever the threshold |
| TrendValidator.RejectionMonotone | lib/trend-validator.js:133-135 | raising the threshold rejects at least the topics rejected before |
| TrendValidator.BuildAvoidanceInstructions | lib/trend-validator.js:105-125 | the text built by appending is that of the specification: empty, the error `Object.entries` throws, or the heading, one line per replacement and the recommendations |
| TrendValidator.BuildRecommendations | lib/trend-validator.js:117-122 | the recommendations block is its heading and one bullet per recommendation, in order |
| TrendValidator.NothingToAvoid | lib/trend-validator.js:106-108 | an unsuccessful validation, or one with no risks, gives `''` |
| TrendValidator.FailureGivesNoAvoidance | lib/trend-validator.js:86-108 | the failure fallback gives `''` |
| TrendValidator.RisksWithoutReplacementsThrow | lib/trend-validator.js:113 | risks without a replacements object make the call throw |
| TrendValidator.AvoidanceStartsWithHeading | lib/trend-validator.js:110-111 | the text starts with the trend heading and the introduction |
| TrendValidator.ReplacementLinesInEntryOrder | lib/trend-validator.js:113-115 | right after the heading come one "Do NOT mention" line per replacement entry, in entry order |
| TrendValidator.EveryReplacementMentioned | lib/trend-validator.js:113-115 | every replacement entry's line occurs in the text |
| TrendValidator.RecommendationsOnlyWhenPresent | lib/trend-validator.js:117-122 | the recommendations heading is a line of the text exactly when there are recommendations |

## Left out

- Network, mail, browser and AI calls. Dev.to, Hashnode and Blogger requests, nodemailer and Puppeteer (`verifyWithBrowser`) are out, and so is the OpenAI call in `validateTrend`. Their answers enter as parameters: a title-keyed store, the retry manager's outcome, a transport, HEAD probe results and the parsed reply.
- The retry manager (`lib/retry-manager.js`) is not part of this model. Its backoff, timeouts and attempt counting are one opaque `execute` parameter; only the options `publishToPlatform` passes to it are modelled. Being a function of the request, it gives a platform listed twice the same outcome both times, and the second publish does not see the store change of the first.
- Adapters, git push and the Blogger helpers are not part of this model: `adapters/*`, `pushCoversToMain`, the sanitiser and the Blogger content validation. The markdown-to-HTML step with its sanitiser is one `toHtml` parameter; the validation only logs.
- File and front-matter I/O is out. This covers gray-matter parse and stringify, `fs` reads, writes and existence checks (existence is a parameter), `injectCTAToFile`, and the Naver export's output files, plain-text copy, translation cache, clipboard and cover generation. Drafts enter as front matter plus body; injection works on the body.
- The floating-point Flesch-Kincaid and reading-ease formulas, and their rounding, are out. The grade is a `formula` parameter over the word, sentence and syllable counts.
- QualityGate.CheckQuality: the inline image count is an input. The count of `![...](...)` matches and the checks' message and status texts are not modelled.
- Wall-clock time is a logical clock that advances by each request's latency plus the interval.
- AssetVerifier.WaitForUrl: the interval must be positive. With interval 0 the source relies on wall-clock time passing during each request, which the logical clock does not guarantee. The `silent` logging and the progress dots are not modelled.
- Notifier: the class's `enabled` and `transporter` fields are set once, in the constructor. They are a credentials value and a transport parameter. The HTML page around the details section, its colours and timestamp, the preview section and attachments are not modelled.
- Notifier.FormatStepName: ids that name `Object.prototype` members are not modelled. The source would render such a member's function text.
- CtaInjector.GetCTA: returns `''` for every channel without an own template, the evident intent. The program throws a TypeError for a key inherited from `Object.prototype`; CtaInjector.GetCTAAsWritten models that, and CtaInjector.InjectBody, built on GetCTA, does not throw for such a key as `injectCTA` does.
- ToneProfiles.BuildPromptInstructions: built on the corrected lookup ToneProfiles.GetProfile, so an id inherited from `Object.prototype` (such as `constructor`) gives the `Unknown platform` error. The program instead finds the inherited member and throws a TypeError at `profile.id.toUpperCase()`, because that member has no `id`.
- Translator.DevtoTag: lower-casing is ASCII only. JavaScript's `toLowerCase` maps every Unicode capital (`É` becomes `é`; `İ` becomes two code units), so a tag with non-ASCII capitals keeps them in the model, and the bound `|r| <= |t|` holds for the model but not for the program.
- Translator.DevtoTags: maps Translator.DevtoTag over the tags, so it inherits the same ASCII-only lower-casing.
- NaverExport: regular expressions are anchored matchers applied left to right, not a regex engine. The plain-text export at scripts/export-naver.js:254-259 is not modelled.
- TrendValidator: the reply's JSON is taken as well-typed. `suggestedReplacements` is given as the entry list `Object.entries` produces, so its ordering of integer-like keys is not modelled.
- ToneProfiles.GetAvailableProfiles: the contract states membership and distinctness, not the order. The order is the table's declaration order, which `Object.keys` keeps for these keys.
- Publisher.ParseDraft: the contract says nothing about a cover that starts with `../assets` but not `../assets/`. The model, like the source, replaces the first `../assets/` found elsewhere in it.
- Publisher and LegacyPublish: a draft or listed article without a title (`undefined.trim()` throwing inside the lookup) is not modelled; titles are strings. `rawFrontmatter` and `publish.js`'s manual verification steps and logging are not modelled either.
- `config.js` paths and `parseMarkdownContent`/`markdownToHtml` in `lib/translator.js` are out (they are file layout and library calls).

## Findings

| source | as written | input that shows it | evidently intended | confidence | as-written member | corrected member |
|---|---|---|---|---|---|---|
| quality_gate.js:122-134 | with no sentence or no word, `calculateReadability` returns no `words`. `undefined` fails all three comparisons, so the Word Count check passes with penalty 0 (`QualityGate.EmptyArticlePassesWordCount`, and for the whole gate `QualityGate.WordCountCheckAsWritten`). The gate is modelled as written; the corrected rule is stated beside it | an empty body, or a body with no ASCII letter such as an all-Korean draft | a text with no words is too short and costs 15 | high; not executed | QualityGate.WordCountPenaltyAsWritten | QualityGate.WordCountPenalty |
| lib/publisher.js:64-67 | `adapters[platform]` also finds keys inherited from `Object.prototype`, so the unknown-platform guard passes them (`Publisher.AdapterFoundAsWritten`) | platform `constructor` | only `devto`, `hashnode` and `blogger` pass; anything else throws `Unknown platform` | high; not executed | Publisher.InheritedKeyPassesGuard | Publisher.PublishToPlatform |
| lib/tone-profiles.js:120-126 | `toneProfiles[platformId]` also finds inherited keys, so `getProfile` returns `Object` for `constructor` instead of throwing (`ToneProfiles.InheritedKeyReturnsNoProfile`) | platform id `constructor` | any id outside the table throws the `Unknown platform` error | high; not executed | ToneProfiles.GetProfileAsWritten | ToneProfiles.GetProfile |
| lib/cta-injector.js:71-81 | `CTA_TEMPLATES[channel]` also finds inherited keys; they are truthy, so `if (!template)` passes them and `template.replace` throws a TypeError (`CtaInjector.InheritedChannelThrows`) | channel `constructor` | a channel without a template gives `''` with a warning | high; not executed | CtaInjector.GetCTAAsWritten | CtaInjector.GetCTA |
