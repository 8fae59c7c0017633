# A verified model of the jobber feed aggregator

jobber is a static web page (`docs/fetch.js`) that fetches job postings from
several RSS/Atom feeds, through a CORS proxy or a local snapshot when the
network fails. It normalises the entries, filters them by keyword, removes
duplicates, sorts them newest first, and extracts an overview, the
responsibilities, the requirements and an apply link from each posting's
HTML. The page also keeps a status per job (new, applied or irrelevant) and
the user's settings.

This project models that core in Dafny and proves what the code promises.
It has one module per concern:

- `Text` holds the JavaScript string built-ins the code relies on: `trim`
  with ECMAScript's white-space set, ASCII `toLowerCase`, `includes`,
  `split`/`join` on one character, and decimal rendering.
- `Seqs` holds `filter`, the "first occurrence of each key wins" selection
  with a reference definition by index, and subsequences.
- `Transport` models `buildFeedUrl`, `fetchWithRetry` (a loop), `fetchFeedXml`,
  `fetchLocalCache` and the hex encoding of the SHA-1 digest.
- `Feeds` models `normalizeFeed` with its RSS and Atom field fallbacks.
- `Extractor` models `parseJobHtml`, `findOverview`, `findListAfterKeywords`
  (loops over the keywords and over the siblings) and `dedupeStrings`.
- `Aggregator` models:
  - `mapWithConcurrency`, as an array filled by workers that share a cursor;
  - `collectJobs`, which gathers warnings and entries in loops;
  - `dedupe`, a loop with a set of seen keys;
  - `matchKeywords`, the stable sort, `deriveAggregateSource` and the per-feed summaries.
- `Statuses` models `jobKey`, `getJobStatus`, `setJobStatus`,
  `cycleStatusByClick` and `collectStatusTotals`. They live in a class whose
  fields are the job list and the status map the code replaces in place.
- `UserSettings` models the defaults, `loadSettings`, the submit handler's
  form parsing and `hydrateSettingsForm`.
- `Labels` models `escapeHtml`, `statusLabel`, `formatSourceLabel`,
  `buildFilterOptionLabel` and `deriveTags` (a loop).

Everything the code reaches through the browser is a parameter:

- the network, the SHA-1 digest and the snapshot server are fields of
  `Transport.Net`;
- the XML, HTML, date and JSON parsers are function-typed parameters;
- the clock is a timestamp `now`;
- the scheduler of the worker pool is a function `turn`;
- the URL parser of `deriveTags` is a function `hostOf`.

Two behaviours of the code worth knowing:

- `findListAfterKeywords` moves on to the next keyword when the first node
  matching a keyword has no following list, or the list has no non-empty
  item; a keyword that matches a node can still yield nothing.
- When no trimmed paragraph is long, the overview is the first *non-empty*
  trimmed paragraph; blank paragraphs before it are skipped.

## Model

| member | source | states |
|---|---|---|
| Transport.BuildFeedUrl | docs/fetch.js:560-566 | Without the proxy option, or with a blank trimmed prefix, the request URL is the feed URL itself. Otherwise it starts with the trimmed prefix, ends with `/?` and the feed URL, and a slash is added only when the prefix lacks one. |
| Transport.FirstSuccess | docs/fetch.js:1010-1027 | The index found is an allowed attempt that succeeds, and every attempt before it fails. No index means every one of the `RETRIES + 1` attempts fails. |
| Transport.FinalMessage | docs/fetch.js:1035 | The rejection message is never empty: the last error's message, else "Unable to fetch feeds.". |
| Transport.FetchWithRetry | docs/fetch.js:1008-1036 | The loop returns what the retry specification returns. It makes 1 to 3 attempts and stops at the first success. It makes all 3 when it fails. It waits `600 * (k + 1)` ms after the k-th failure. |
| Transport.NoSuccessBefore | docs/fetch.js:1010-1034 | Skipping failed attempts does not change which attempt succeeds first. |
| Transport.RecoversOnLastAttempt | docs/fetch.js:1010-1034 | Two failures followed by a success still deliver the third response's body. |
| Transport.FailsWithLastMessage | docs/fetch.js:1025-1035 | When all attempts fail, the error carries the last attempt's message, or `HTTP <status> for <url>` for a non-ok response. |
| Transport.HexDigit | docs/fetch.js:605 | The digit written for a value below 16 reads back as that value. |
| Transport.HexEncode | docs/fetch.js:605 | Two hex digits per digest byte. |
| Transport.HexRoundTrip | docs/fetch.js:598-606 | Decoding the hex text gives the digest bytes back, so different digests name different snapshot files. |
| Transport.FetchLocalCache | docs/fetch.js:584-596 | A snapshot text comes back only from a non-empty digest, read at `cache/<hex>.xml`, and only from a response that succeeded. Conversely, a non-empty digest whose snapshot response succeeds gives that response's body. |
| Transport.FetchFeedXml | docs/fetch.js:568-582 | The fetch succeeds exactly when the network succeeds, or the network fails, the option is on and the snapshot text is non-empty. A network success is labelled `proxy` exactly when the proxy option is on, else `network`. A `local-cache` result happens exactly in the snapshot case. Any other failure is the network's own error, rethrown. |
| Transport.ProxyLabelWithoutPrefix | docs/fetch.js:560-572 | With the proxy option on and a blank prefix, the request goes to the feed URL itself, yet the result is labelled `proxy`. |
| Transport.LocalCacheOnlyAfterFailure | docs/fetch.js:568-582 | A `local-cache` result implies that every attempt at the request URL failed and that the option was on. |
| Feeds.TextOf | docs/fetch.js:1092-1095 | A missing element gives `""`. A present element gives its trimmed text, which is always trimmed. |
| Feeds.TextOfPadded | docs/fetch.js:1092-1095 | Text padded with white space on either side is read back as the text. |
| Feeds.IsoDate | docs/fetch.js:1085-1090 | A non-empty value that parses gives its timestamp. An empty or unparsable value gives the fetch time. Nothing else is ever returned. |
| Feeds.NormalizeFeed | docs/fetch.js:1042-1083 | A parse error gives no entries. RSS items, when there are any, map one to one in order. Otherwise Atom entries map one to one in order. |
| Feeds.RssEntryFields | docs/fetch.js:1048-1061 | `FromRss`: the title and link are the elements' trimmed texts. The guid is the guid element's text, or the link when that is empty, and is empty only when both are. The summary is the description, or `content:encoded` when that is empty. A `pubDate` that parses gives the date; an empty `pubDate` defers to `dc:date`. Every text field is trimmed. |
| Feeds.UnparsablePubDateIgnoresDcDate | docs/fetch.js:1054-1057 | A non-empty `pubDate` that does not parse gives the fetch time; `dc:date` is not consulted. |
| Feeds.AtomLinkFallback | docs/fetch.js:1063-1080 | `FromAtom`: the title is the title element's text. The link is the first link's `href`, else the entry id. The guid is the id, else the link element's text. The date is `published`, else `updated`. The summary is `summary`, else `content`. |
| Extractor.OverviewChoice | docs/fetch.js:1148-1154 | `FindOverview`: the overview is the first long (over 120 characters) trimmed paragraph, else the first non-empty one. It is absent exactly when every paragraph trims to `""`. |
| Extractor.FindOverview | docs/fetch.js:1148-1154 | An overview is a non-empty trimmed paragraph text. When any paragraph is long, the overview is long. |
| Extractor.OverviewTexts | docs/fetch.js:1149-1150 | The candidate texts are non-empty trimmed paragraphs, and every long trimmed paragraph is among them. |
| Extractor.CleanItems | docs/fetch.js:1168-1170 | A string is kept exactly when it is non-empty and the trim of some list item. The kept strings are trimmed and keep the items' order (a subsequence of the trimmed items). |
| Extractor.DedupeStrings | docs/fetch.js:1177-1179 | Same members as the input, with no duplicates. |
| Extractor.DedupeStringsFirstSeen | docs/fetch.js:1177-1179 | The result equals the first-occurrence selection: first-seen order, nothing else kept. |
| Extractor.NextListSibling | docs/fetch.js:1163-1166 | The sibling walk stops at the first UL/OL sibling, or past the end when there is none. |
| Extractor.ListForKeyword | docs/fetch.js:1159-1172 | One round of the keyword loop yields the reference list for that keyword. |
| Extractor.FindListAfterKeywords | docs/fetch.js:1156-1175 | The loop returns the reference result: keywords are tried in order, and one yielding nothing falls through. |
| Extractor.KeywordStep | docs/fetch.js:1158-1173 | A keyword whose list is non-empty decides the result. Otherwise the remaining keywords do. |
| Extractor.KeywordPrecedence | docs/fetch.js:1156-1175 | The result is the list of the first keyword whose list is non-empty, else `[]`. |
| Extractor.ListUnderIsClean | docs/fetch.js:1159-1172 | A keyword's list has no duplicates and only non-empty trimmed items. A non-empty list comes from the first UL/OL sibling of the first matching node. Conversely, when that sibling exists, the list holds exactly its non-blank trimmed items, so one non-blank item makes the list non-empty. |
| Extractor.ListAfterKeywordsIsClean | docs/fetch.js:1156-1179 | The extracted list has no duplicates and only non-empty trimmed items. |
| Extractor.ApplyUrl | docs/fetch.js:1135-1144 | An apply URL is the non-empty `href` of the first qualifying anchor. When the first qualifying anchor has a non-empty `href`, that is the URL. With no qualifying anchor there is none. |
| Extractor.UnescapedHasNoEscape | docs/fetch.js:1123 | `UnescapeNewlines`: no backslash-n pair survives the newline replacement. A leading backslash survives only when it does not start such a pair. |
| Extractor.UnescapeNewlines | docs/fetch.js:1123 | Replacing each backslash-n pair by a newline never lengthens the text. |
| Extractor.ParseJobHtml | docs/fetch.js:1113-1146 | Empty HTML gives the empty record. Otherwise the HTML, with its escaped newlines restored, is parsed once. The overview is `FindOverview` of its paragraphs, the responsibilities and requirements are the keyword lists for the responsibility and requirement keywords, and the apply URL is `ApplyUrl` of its anchors. Both lists are free of duplicates and hold only non-empty trimmed items. |
| Aggregator.MapWithConcurrency | docs/fetch.js:989-1006 | Results have the input's length, whatever the scheduler does. With at least one worker, slot `i` holds `fn(list[i])`. With a limit of 0 every slot is a hole. Claim `i` is made by the worker the scheduler picks, one of the `min(limit, n)` workers. |
| Aggregator.FetchFeed | docs/fetch.js:508-519 | A feed warns exactly when its fetch fails. A warning carries the feed URL and the fetch's error message, or "Unable to fetch." when that is empty. The failed feed gives no items and `error`. Otherwise the feed gives its normalised entries and the fetch's source. |
| Aggregator.StepsOf | docs/fetch.js:505-521 | One outcome per configured feed, in configuration order. |
| Aggregator.WarningCount | docs/fetch.js:516-523 | There are at most as many warnings as feeds. There are as many exactly when every feed warned. |
| Aggregator.WarningsOfFailures | docs/fetch.js:516-518 | The warnings are exactly those of the failed feeds. |
| Aggregator.FlattenEmpty | docs/fetch.js:522 | Feeds without items flatten to no entries. |
| Aggregator.FilterByKeywords | docs/fetch.js:530-532 | An entry is kept exactly when it matches a keyword, or there are no keywords. The kept entries are a subsequence of the input. |
| Aggregator.KeywordInTitleOrSummary | docs/fetch.js:1107-1111 | `MatchKeywords`: a keyword found in the lower-cased title or summary makes the entry match. |
| Aggregator.Dedupe | docs/fetch.js:1097-1105 | The loop with its set of seen keys yields the first-occurrence selection by the key guid, else link, else title, trimmed; entries with an empty key are dropped. |
| Aggregator.KeepIfUnseen | docs/fetch.js:1099-1104 | The filter callback keeps an entry exactly when its key is non-empty and unseen, and the seen set grows by that key exactly when it is non-empty. |
| Seqs.FirstsKeysDistinct | docs/fetch.js:1097-1105 | No two survivors share a key. |
| Seqs.FirstsMembers | docs/fetch.js:1097-1105 | An entry survives exactly when it is the first with its non-empty key. |
| Seqs.FirstsCovers | docs/fetch.js:1097-1105 | Every non-empty key of the input is represented among the survivors. |
| Seqs.FirstsIsSubsequence | docs/fetch.js:1097-1105 | The survivors are a subsequence of the input. |
| Aggregator.InsertPermutes | docs/fetch.js:533-535 | One insertion step adds exactly the inserted entry and keeps every other one, as a multiset. |
| Aggregator.InsertMembers | docs/fetch.js:533-535 | After one insertion step, an entry is present exactly when it is the inserted one or was present before. |
| Aggregator.SortMembers | docs/fetch.js:533-535 | An entry is in the sorted sequence exactly when it is in the input. |
| Aggregator.SortSorted | docs/fetch.js:533-535 | `SortByPublished`: the sorted entries are non-increasing by `published` and are a permutation of the input. |
| Aggregator.SortByPublished | docs/fetch.js:533-535 | The sort keeps the number of entries. |
| Aggregator.SortStable | docs/fetch.js:533-535 | Entries with equal timestamps keep their input order. |
| Aggregator.DeriveAggregateSource | docs/fetch.js:608-613 | No feeds give `cache`. All `local-cache` gives `local-cache`. Otherwise any `proxy` gives `proxy`. The result is never `error`. |
| Aggregator.AggregateSourceBySet | docs/fetch.js:608-613 | The aggregate depends only on which sources occur. |
| Aggregator.SnapshotAndFailureIsNetwork | docs/fetch.js:608-613 | Any run with a snapshot feed, no proxy feed and some feed not from a snapshot (a failed one, say) is labelled `network`, whether or not anything came from the network. |
| Aggregator.Summaries | docs/fetch.js:549-554 | One summary per feed, in configuration order, with the shared timestamp, the feed's source and its item count. |
| Aggregator.CountsAddUp | docs/fetch.js:549-554 | The per-feed counts add up to the number of merged entries. |
| Aggregator.Enrich | docs/fetch.js:536-542 | An enriched job keeps the entry's title, link (as url), date and summary. Its overview, responsibilities, requirements and apply URL are those extracted from the summary HTML. |
| Aggregator.CollectJobs | docs/fetch.js:497-558 | The pool-and-loops method yields exactly the aggregation specification. |
| Aggregator.GatherFeeds | docs/fetch.js:516-522 | The loop over the per-feed results yields the warnings of the failed feeds, in feed order, and all fetched entries concatenated in feed order. |
| Aggregator.FailedStepsWarn | docs/fetch.js:509-520 | A feed warns exactly when its fetch fails. The warning names that feed, has a message, and the feed contributes no entries. |
| Aggregator.CollectFailure | docs/fetch.js:522-529 | The run rejects exactly when nothing was gathered and there is one warning per feed. The rejection carries exactly those warnings. |
| Aggregator.AllFailedIff | docs/fetch.js:509-529 | Nothing gathered with one warning per feed happens exactly when every feed's fetch failed. |
| Aggregator.WarningsNameFeeds | docs/fetch.js:516-518 | Every warning names one of the configured feeds and carries a non-empty message. |
| Aggregator.TotalFailureIff | docs/fetch.js:523-529 | Collection fails exactly when every feed's fetch fails. The error then holds one warning per feed, in feed order: warning `i` names feed `i` and carries its fetch error, or "Unable to fetch.". |
| Aggregator.FailedWarningsInOrder | docs/fetch.js:509-529 | When every fetch fails, the warnings are one per feed, in feed order, each with that feed's URL and message. |
| Aggregator.AllWarnedInOrder | docs/fetch.js:516-518 | When every step warned, the gathered warnings are exactly the steps' warnings, in order. |
| Aggregator.UniqueSpec | docs/fetch.js:530-533 | Before sorting, every kept entry matches the keywords and has a non-empty key, and every such key of the merged entries is kept. |
| Aggregator.SurvivorsSpec | docs/fetch.js:530-535 | Survivors are sorted and come from the merged entries. They match the keywords, have distinct non-empty keys, and cover every matching key. |
| Aggregator.CollectedJobs | docs/fetch.js:536-557 | On success the items are the enriched survivors, counted. The summaries keep feed order and count each feed's items. The source is derived from the feed sources. |
| Statuses.JobKey | docs/fetch.js:644-646 | The key is trimmed. It is the trimmed url when that is non-empty, the trimmed title when there is no url, and `""` for a blank url. |
| Statuses.StatusOf | docs/fetch.js:648-650 | A missing or empty entry reads as `new`. Otherwise the entry is returned. |
| Statuses.ClickTransitions | docs/fetch.js:658-669 | `NextOnClick`: a click gives `applied` exactly from `new`, and `new` from anything else. It never gives `irrelevant`. Two clicks restore `new`/`applied`. |
| Statuses.NextOnClick | docs/fetch.js:658-669 | A click always changes the status, to `applied` or to `new`. |
| Statuses.TallyCountsEveryJob | docs/fetch.js:908-917 | The three totals add up to the number of jobs. |
| Statuses.TallyIgnoresOtherKeys | docs/fetch.js:908-917 | A status stored under a key no job has leaves the totals unchanged. |
| Statuses.StatusBoard.GetJobStatus | docs/fetch.js:648-650 | Reads the board's map as `StatusOf` does. |
| Statuses.StatusBoard.SetJobStatus | docs/fetch.js:652-656 | Replaces one map entry. That key reads back the new non-empty status, every other key reads as before, and the jobs are unchanged. |
| Statuses.StatusBoard.CycleStatusByClick | docs/fetch.js:658-669 | Stores the click transition of the current status. |
| Statuses.StatusBoard.CollectStatusTotals | docs/fetch.js:908-917 | The counting loop equals the per-job tally, and its totals add up to the job count. |
| UserSettings.FromStored | docs/fetch.js:458-470 | The settings built from any stored record name a feed and a proxy. |
| UserSettings.StoredRoundTrip | docs/fetch.js:458-470 | A record with every field present keeps settings that name a feed and a proxy unchanged. |
| UserSettings.NoFieldsStored | docs/fetch.js:457-470 | A parsed value without the fields (an array, a number, a string) gives the defaults but empty keywords, which differs from the defaults. |
| UserSettings.LoadSettings | docs/fetch.js:451-474 | Loaded settings always name a feed and a proxy. Nothing stored, an empty text or unparsable JSON gives the defaults. |
| UserSettings.LoadSaved | docs/fetch.js:451-478 | Saved settings that name a feed and a proxy load back unchanged. |
| UserSettings.Entries | docs/fetch.js:121-128 | A string is an entry exactly when it is non-empty and the trim of a piece of the split. The entries keep the pieces' order, and each is trimmed and free of the separator. |
| UserSettings.EntriesOfLines | docs/fetch.js:121-128 | For any lines joined by the separator, the entries are the non-blank trimmed lines, in order. Blank lines and a trailing separator are dropped. |
| UserSettings.CleanPieces | docs/fetch.js:121-128 | Trimming the pieces and dropping the blank ones keeps exactly the non-empty trimmed pieces, in order and free of the separator. |
| UserSettings.ParseSettingsForm | docs/fetch.js:115-135 | Non-empty feed lines become the feeds, otherwise the default feeds are used. The keywords are the comma entries. A non-blank prefix is kept trimmed; a blank one becomes the default proxy. A flag is on exactly when its checkbox sent `on`. |
| UserSettings.FeedsRoundTrip | docs/fetch.js:192 | Expressible feeds joined one per line parse back unchanged. |
| UserSettings.KeywordsRoundTrip | docs/fetch.js:193-195 | Expressible keywords joined by `, ` parse back unchanged. |
| UserSettings.FormRoundTrip | docs/fetch.js:190-207 | `HydrateSettingsForm`: hydrating the form from expressible settings and submitting it unchanged gives the same settings. |
| UserSettings.SubmitIdempotent | docs/fetch.js:115-207 | Submitting, re-hydrating and submitting again changes nothing further. |
| Labels.EscapeHtmlPerChar | docs/fetch.js:441-449 | `EscapeHtml`: the chain of replacements equals escaping each character on its own, so no entity is escaped twice. |
| Labels.EscapedIsInert | docs/fetch.js:441-449 | The escaped text contains no `<`, `>`, `"` or `'`. |
| Labels.UnescapeEscapeHtml | docs/fetch.js:441-449 | Reading the entities back gives the original text. |
| Labels.StatusLabelsDistinct | docs/fetch.js:947-958 | `StatusLabel`: two statuses share a label exactly when they are equal or neither is applied, irrelevant or all. A new job shows `+`. |
| Labels.StatusLabel | docs/fetch.js:947-958 | A status label is never empty. It is `+` exactly for a status without a label of its own. |
| Labels.SourceLabelsDistinct | docs/fetch.js:396-408 | `FormatSourceLabel`: every provenance gets its own non-empty label. |
| Labels.FormatSourceLabel | docs/fetch.js:396-408 | The provenance label is never empty, whatever the source text. |
| Labels.BuildFilterOptionLabel | docs/fetch.js:930-934 | The label is the option's name, ` (`, the count in decimal and `)`. The digits have no leading zero, and they read back as the count: the total for `all`, the status total for a status, else 0. |
| Text.NatToString | docs/fetch.js:930-934 | `String(n)` of a count: decimal digits, no leading zero, and `"0"` exactly for zero. |
| Text.DecimalUnique | docs/fetch.js:930-934 | A decimal text is determined by its value: it is the one `NatToString` writes. |
| Text.LeadingDigitPositive | docs/fetch.js:930-934 | Decimal digits with a non-zero leading digit have a positive value. |
| Labels.FilterCountsAddUp | docs/fetch.js:919-934 | With the menu's total, the three status counts add up to the count on `all`, which equals the number of jobs. |
| Labels.StripWww | docs/fetch.js:817 | A leading `www.` is removed, and nothing else. |
| Labels.MatchingKeywords | docs/fetch.js:810-816 | The keyword loop pushes exactly the keywords found, lower-cased, in the lower-cased title and summary, in keyword order. |
| Labels.DeriveTags | docs/fetch.js:808-824 | The push loop yields the tag specification: the matching keywords in order, then the host, de-duplicated and cut to three. |
| Labels.TagsAreMatchesOrHost | docs/fetch.js:808-824 | There are at most three tags, all distinct. Each is a keyword found in the job's text, or the job's host. |
| Labels.TagsComplete | docs/fetch.js:808-824 | With at most three distinct candidates, every matching keyword and the host are shown. |

## Left out

- Rendering, event wiring and the UI state are not modelled: `renderJobs`, `jobCard`, `jobDetailsMarkup`, `htmlToText`, the `update*` and `toggle*` helpers, `applyFilters`, `setStatusFilter`, `handleJobClick`, `findJobByKey`, `init` and `refreshFeeds`. They are templating and DOM plumbing.
- Storage is not modelled. `readStorage`, `writeStorage`, `deferIO`, `loadCache`, `saveCache`, `loadStatuses`, `saveStatuses` and `restoreFromCache` are foreign I/O. `loadSettings` receives the stored text as a parameter.
- JSON is an oracle. `null` and text that does not parse are its `None`, which gives the defaults. A stored object whose `feeds`, `keywords` or `proxyPrefix` is a truthy value of another type (a string for `feeds`, say) is outside the `Stored` record.
- `fetch`, `AbortController`, the 15-second timeout and `delay` are not modelled. Each attempt is an abstract outcome, and the backoff values are recorded rather than waited for.
- Aggregator.MapWithConcurrency: it is a sequential model of the asynchronous pool. The scheduler chooses the claiming worker, but a `fn` that throws, which the pool would propagate, is not modelled. `collectJobs`'s worker function never throws.
- Aggregator.CollectJobs: warnings are gathered in feed order. The code pushes them in completion order, which depends on timing.
- `DOMParser` is not modelled. XML and HTML documents are the abstract records `Feeds.FeedDoc` and `Extractor.HtmlDoc`.
- SHA-1 is not modelled: the digest is an oracle. Only the hex encoding is modelled.
- One timestamp `now` stands for every `new Date()` of a run: the fallback of `isoDate` (docs/fetch.js:1086 and 1088) and `savedAt` (docs/fetch.js:543). In the code, undated entries of later feeds get slightly later times and so sort as newer; in the model they tie and keep feed order.
- Dates are not modelled as text. `published` is an integer timestamp, `isoDate` uses a date-parser oracle and the clock `now`, and the sort compares timestamps. `formatDate` and `formatRelativeTime` are left out.
- `new URL(...).host` in `deriveTags` is an oracle (`hostOf`, `None` where it throws).
- Lower-casing is ASCII-only.
- String length counts code points, not UTF-16 units. This matters only for the 120-character overview threshold.
- Statuses.StatusOf: a key that names an `Object.prototype` member (e.g. `constructor`) reads as that member in the code. The model treats it like any missing key.
- Labels.BuildFilterOptionLabel: the same prototype-key lookups in `FILTER_DISPLAY_LABELS` and `totals` are not modelled. Unknown filters get "All jobs" and a count of 0.
- UserSettings.ParseSettingsForm: it states `Expressible` of the result only when the form has a feed line. The default feed URLs are not proved free of newlines, because the solver cannot inspect every character of those long literals.
- UserSettings.SubmitIdempotent: for the same reason, it requires a form with at least one feed line.
- Statuses.JobKey: it follows the url with the title. An enriched job record carries no `guid`, so the code's `job.guid` is always empty.
- Settings fields that might be `null` (`settings.feeds || []` in `hydrateSettingsForm`) are not modelled. A `Settings` value always holds sequences and strings.
