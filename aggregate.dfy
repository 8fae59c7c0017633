/** Aggregation: every configured feed is fetched through a bounded pool of
    workers, failures become warnings, the entries of all feeds are
    filtered by keyword, de-duplicated, ordered newest first and enriched
    with the fields extracted from their description, and each feed is
    summarised with its provenance. */
module Aggregator {
  import opened Basics
  import opened Text
  import opened Seqs
  import opened Transport
  import opened Feeds
  import opened Extractor

  /** Number of feeds fetched at the same time. */
  const CONCURRENCY: nat := 4
  const FEED_FAILED_MESSAGE := "Unable to fetch."
  const ALL_FAILED_MESSAGE := "All feeds failed to load. Check URLs or CORS access."

  /** Everything outside the program that an aggregation consults: the
      network side, the XML, date and HTML parsers, and the clock (one
      reading serves as both the fallback entry date and `savedAt`). */
  datatype Environment = Environment(
    net: Net,
    parseXml: string -> FeedDoc,
    parseDate: string -> Option<int>,
    parseHtml: string -> HtmlDoc,
    now: int)

  datatype Config = Config(feeds: seq<string>, keywords: seq<string>, options: Options)

  datatype FeedOutcome = FeedOutcome(url: string, items: seq<RawEntry>, source: Source)

  datatype Warning = Warning(url: string, message: string)

  /** What the per-feed callback returns, with the warning it pushes. */
  datatype FeedStep = FeedStep(outcome: FeedOutcome, warning: Option<Warning>)

  datatype FeedSummary = FeedSummary(url: string, fetchedAt: int, source: Source, count: nat)

  /** An enriched job. The entry's guid is not carried over. */
  datatype JobRecord = JobRecord(
    title: string, url: string, published: int, summary: string,
    overview: Option<string>, responsibilities: seq<string>,
    requirements: seq<string>, applyUrl: Option<string>)

  datatype AggregationResult = AggregationResult(
    savedAt: int, count: nat, items: seq<JobRecord>,
    feeds: seq<FeedSummary>, warnings: seq<Warning>, source: Source)

  /** The error thrown when no feed produced anything, with the warnings as
      its details. */
  datatype TotalFailure = TotalFailure(message: string, details: seq<Warning>)

  function Min(a: nat, b: nat): nat {
    if a <= b then a else b
  }

  // ---- the worker pool ----

  /** `mapWithConcurrency(list, limit, fn)`. The `min(limit, |list|)` workers
      share one cursor; each claims the next index and stores `fn` of that
      element at it. Which worker claims the claim number `n` is up to the
      scheduler, `turn(n)` modulo the number of workers; `claimedBy` records
      it. With no workers (a limit of 0) every slot stays a hole. */
  method MapWithConcurrency<A, B>(list: seq<A>, limit: nat, fn: A -> B, turn: nat -> nat)
    returns (results: seq<Option<B>>, claimedBy: seq<nat>)
    ensures |results| == |list|
    ensures limit > 0 ==> forall i :: 0 <= i < |list| ==> results[i] == Some(fn(list[i]))
    ensures limit == 0 ==> forall i :: 0 <= i < |list| ==> results[i] == None
    ensures |claimedBy| == (if limit > 0 then |list| else 0)
    ensures forall i :: 0 <= i < |claimedBy| ==> claimedBy[i] < Min(limit, |list|)
    ensures forall i :: 0 <= i < |claimedBy| ==> claimedBy[i] == turn(i) % Min(limit, |list|)
  {
    if |list| == 0 {
      return [], [];
    }
    var slots := new Option<B>[|list|](_ => None);
    var workerCount := Min(limit, |list|);
    var index := 0;
    claimedBy := [];
    if workerCount > 0 {
      while index < |list|
        invariant 0 <= index <= |list|
        invariant forall i :: 0 <= i < index ==> slots[i] == Some(fn(list[i]))
        invariant forall i :: index <= i < |list| ==> slots[i] == None
        invariant |claimedBy| == index
        invariant forall i :: 0 <= i < index ==> claimedBy[i] == turn(i) % workerCount < workerCount
      {
        var worker := turn(index) % workerCount;
        var current := index;
        index := index + 1;
        slots[current] := Some(fn(list[current]));
        claimedBy := claimedBy + [worker];
      }
    }
    results := slots[..];
  }

  // ---- one feed ----

  /** The per-feed callback of `collectJobs`: the normalised entries with
      their provenance, or, when the fetch fails, no entries, the `error`
      label and a warning carrying the failure's message. */
  function FetchFeed(url: string, options: Options, env: Environment): (s: FeedStep)
    ensures s.outcome.url == url
    ensures s.warning.Some? <==> FetchFeedXml(url, options, env.net).Failure?
    ensures s.warning.Some? ==>
      && s.outcome.items == [] && s.outcome.source == Error
      && s.warning.value.url == url && s.warning.value.message != ""
      && s.warning.value.message == Or(FetchFeedXml(url, options, env.net).error, FEED_FAILED_MESSAGE)
    ensures s.warning.None? ==>
      var f := FetchFeedXml(url, options, env.net).value;
      s.outcome == FeedOutcome(url, NormalizeFeed(env.parseXml(f.xml), env.parseDate, env.now), f.source)
  {
    match FetchFeedXml(url, options, env.net)
    case Success(f) =>
      FeedStep(FeedOutcome(url, NormalizeFeed(env.parseXml(f.xml), env.parseDate, env.now), f.source), None)
    case Failure(message) =>
      FeedStep(FeedOutcome(url, [], Error), Some(Warning(url, Or(message, FEED_FAILED_MESSAGE))))
  }

  function StepsOf(feeds: seq<string>, options: Options, env: Environment): (r: seq<FeedStep>)
    ensures |r| == |feeds|
    ensures forall i :: 0 <= i < |r| ==> r[i] == FetchFeed(feeds[i], options, env)
  {
    seq(|feeds|, i requires 0 <= i < |feeds| => FetchFeed(feeds[i], options, env))
  }

  function Outcomes(steps: seq<FeedStep>): (r: seq<FeedOutcome>)
    ensures |r| == |steps|
    ensures forall i :: 0 <= i < |r| ==> r[i] == steps[i].outcome
  {
    seq(|steps|, i requires 0 <= i < |steps| => steps[i].outcome)
  }

  /** The pushed warnings, in feed order. */
  function Warnings(steps: seq<FeedStep>): seq<Warning> {
    if steps == [] then []
    else
      var last := steps[|steps| - 1];
      Warnings(steps[..|steps| - 1]) + (if last.warning.Some? then [last.warning.value] else [])
  }

  /** `feedsResult.flatMap(entry => entry.items)`. */
  function Flatten(outcomes: seq<FeedOutcome>): seq<RawEntry> {
    if outcomes == [] then []
    else Flatten(outcomes[..|outcomes| - 1]) + outcomes[|outcomes| - 1].items
  }

  /** There are as many warnings as steps exactly when every step warned. */
  lemma {:induction false} WarningCount(steps: seq<FeedStep>)
    ensures |Warnings(steps)| <= |steps|
    ensures |Warnings(steps)| == |steps| <==> forall i :: 0 <= i < |steps| ==> steps[i].warning.Some?
    decreases |steps|
  {
    if steps != [] {
      var n := |steps| - 1;
      WarningCount(steps[..n]);
      assert forall i :: 0 <= i < n ==> steps[..n][i] == steps[i];
    }
  }

  /** The warnings are those of the failed feeds, in feed order. */
  lemma {:induction false} WarningsOfFailures(steps: seq<FeedStep>)
    ensures forall w :: w in Warnings(steps) <==> exists i :: 0 <= i < |steps| && steps[i].warning == Some(w)
    decreases |steps|
  {
    if steps != [] {
      var n := |steps| - 1;
      WarningsOfFailures(steps[..n]);
      forall w ensures w in Warnings(steps) <==> exists i :: 0 <= i < |steps| && steps[i].warning == Some(w) {
        if exists i :: 0 <= i < n && steps[..n][i].warning == Some(w) {
          var i :| 0 <= i < n && steps[..n][i].warning == Some(w);
          assert steps[i].warning == Some(w);
        }
        if exists i :: 0 <= i < |steps| && steps[i].warning == Some(w) {
          var i :| 0 <= i < |steps| && steps[i].warning == Some(w);
          if i < n {
            assert steps[..n][i].warning == Some(w);
          }
        }
      }
    }
  }

  /** Outcomes without entries flatten to nothing. */
  lemma {:induction false} FlattenEmpty(outcomes: seq<FeedOutcome>)
    requires forall i :: 0 <= i < |outcomes| ==> outcomes[i].items == []
    ensures Flatten(outcomes) == []
    decreases |outcomes|
  {
    if outcomes != [] {
      FlattenEmpty(outcomes[..|outcomes| - 1]);
    }
  }

  // ---- keyword filter ----

  function Haystack(item: RawEntry): string {
    Lower(item.title + " " + item.summary)
  }

  /** `matchKeywords`: no keywords match everything; otherwise some keyword,
      lower-cased, occurs in the lower-cased title, a space and the summary. */
  predicate MatchKeywords(item: RawEntry, keywords: seq<string>) {
    |keywords| == 0 || exists i :: 0 <= i < |keywords| && Contains(Haystack(item), Lower(keywords[i]))
  }

  /** The keyword filter of `collectJobs`, skipped when there are no keywords. */
  function FilterByKeywords(items: seq<RawEntry>, keywords: seq<string>): (r: seq<RawEntry>)
    ensures forall x :: x in r <==> x in items && MatchKeywords(x, keywords)
    ensures IsSubsequence(r, items)
  {
    if |keywords| == 0 then
      SubsequenceOfItself(items);
      items
    else
      FilterIsSubsequence(items, (x: RawEntry) => MatchKeywords(x, keywords));
      FilterMembers(items, (x: RawEntry) => MatchKeywords(x, keywords));
      Filter(items, (x: RawEntry) => MatchKeywords(x, keywords))
  }

  lemma LowerAppend(a: string, b: string)
    ensures Lower(a + b) == Lower(a) + Lower(b)
  {
  }

  lemma {:induction false} ContainsInPrefix(a: string, b: string, needle: string)
    requires Contains(a, needle)
    ensures Contains(a + b, needle) && Contains(b + a, needle)
  {
    var i :| 0 <= i <= |a| && needle <= a[i..];
    assert (a + b)[i..] == a[i..] + b;
    assert (b + a)[|b| + i..] == a[i..];
  }

  /** Matching ignores ASCII case: a keyword occurring in the title or in the
      summary, in any mix of cases, selects the entry. */
  lemma KeywordInTitleOrSummary(item: RawEntry, keywords: seq<string>, k: nat)
    requires k < |keywords|
    requires Contains(Lower(item.title), Lower(keywords[k])) || Contains(Lower(item.summary), Lower(keywords[k]))
    ensures MatchKeywords(item, keywords)
  {
    LowerAppend(item.title, " " + item.summary);
    LowerAppend(" ", item.summary);
    assert item.title + " " + item.summary == item.title + (" " + item.summary);
    var needle := Lower(keywords[k]);
    if Contains(Lower(item.title), needle) {
      ContainsInPrefix(Lower(item.title), Lower(" " + item.summary), needle);
    } else {
      ContainsInPrefix(Lower(item.summary), Lower(" "), needle);
      ContainsInPrefix(Lower(" ") + Lower(item.summary), Lower(item.title), needle);
      assert Lower(item.title) + (Lower(" ") + Lower(item.summary)) == Lower(" " + item.summary) + Lower(item.title) ||
        Haystack(item) == Lower(item.title) + (Lower(" ") + Lower(item.summary));
    }
  }

  // ---- dedupe ----

  /** `(item.guid || item.link || item.title || "").trim()`. */
  function DedupeKey(item: RawEntry): string {
    Trim(Or(Or(item.guid, item.link), item.title))
  }

  /** The callback `dedupe` passes to `filter`: keep an entry whose key is
      not empty and not yet seen, and remember that key. */
  method KeepIfUnseen(item: RawEntry, seen: set<string>) returns (keep: bool, seen': set<string>)
    ensures keep <==> DedupeKey(item) != "" && DedupeKey(item) !in seen
    ensures seen' == seen + (if DedupeKey(item) != "" then {DedupeKey(item)} else {})
  {
    var key := DedupeKey(item);
    if key == "" || key in seen {
      keep, seen' := false, seen;
    } else {
      keep, seen' := true, seen + {key};
    }
  }

  /** `dedupe`: one pass with a set of the keys seen so far; an entry is kept
      when its key is not empty and not yet seen. */
  method Dedupe(items: seq<RawEntry>) returns (unique: seq<RawEntry>)
    ensures unique == Firsts(items, DedupeKey, IsNonEmpty)
  {
    var seen: set<string> := {};
    unique := [];
    var i := 0;
    while i < |items|
      invariant 0 <= i <= |items|
      invariant unique == Firsts(items[..i], DedupeKey, IsNonEmpty)
      invariant seen == KeySet(items[..i], DedupeKey, IsNonEmpty)
    {
      ghost var done := items[..i];
      var item := items[i];
      FirstsStep(done, item, DedupeKey, IsNonEmpty);
      assert IsNonEmpty(DedupeKey(item)) <==> DedupeKey(item) != "";
      var keep;
      keep, seen := KeepIfUnseen(item, seen);
      if keep {
        unique := unique + [item];
      }
      assert items[..i + 1] == done + [item];
      i := i + 1;
    }
    assert items[..|items|] == items;
  }

  // ---- newest first ----

  predicate SortedNewestFirst(s: seq<RawEntry>) {
    forall i, j :: 0 <= i < j < |s| ==> s[i].published >= s[j].published
  }

  /** Inserts `x` before the first entry that is not newer than it. */
  function InsertByPublished(x: RawEntry, s: seq<RawEntry>): (r: seq<RawEntry>)
    ensures |r| == |s| + 1
  {
    if s == [] || x.published >= s[0].published then [x] + s
    else [s[0]] + InsertByPublished(x, s[1..])
  }

  /** The stable sort by `published`, newest first. */
  function SortByPublished(s: seq<RawEntry>): (r: seq<RawEntry>)
    ensures |r| == |s|
  {
    if s == [] then []
    else InsertByPublished(s[0], SortByPublished(s[1..]))
  }

  /** The inserted sequence holds `x` and the entries of `s`, nothing else. */
  lemma {:induction false} InsertMembers(x: RawEntry, s: seq<RawEntry>)
    ensures forall e :: e in InsertByPublished(x, s) <==> e == x || e in s
    decreases |s|
  {
    if s != [] && x.published < s[0].published {
      InsertMembers(x, s[1..]);
      assert s == [s[0]] + s[1..];
    }
  }

  /** Sorting neither adds nor drops an entry. */
  lemma {:induction false} SortMembers(s: seq<RawEntry>)
    ensures forall e :: e in SortByPublished(s) <==> e in s
    decreases |s|
  {
    if s != [] {
      SortMembers(s[1..]);
      InsertMembers(s[0], SortByPublished(s[1..]));
      assert s == [s[0]] + s[1..];
    }
  }

  /** Inserting adds `x` and keeps every other entry. */
  lemma {:induction false} InsertPermutes(x: RawEntry, s: seq<RawEntry>)
    ensures multiset(InsertByPublished(x, s)) == multiset(s) + multiset{x}
    decreases |s|
  {
    if s != [] && x.published < s[0].published {
      InsertPermutes(x, s[1..]);
      assert s == [s[0]] + s[1..];
    }
  }

  lemma {:induction false} InsertSorted(x: RawEntry, s: seq<RawEntry>)
    requires SortedNewestFirst(s)
    ensures SortedNewestFirst(InsertByPublished(x, s))
    decreases |s|
  {
    if s == [] || x.published >= s[0].published {
      forall e | e in s ensures x.published >= e.published {
        var k :| 0 <= k < |s| && s[k] == e;
        assert s[0].published >= s[k].published || k == 0;
      }
      SortedCons(x, s);
    } else {
      var tail := s[1..];
      assert SortedNewestFirst(tail) by {
        assert forall k :: 0 <= k < |tail| ==> tail[k] == s[k + 1];
      }
      InsertSorted(x, tail);
      InsertMembers(x, tail);
      var rest := InsertByPublished(x, tail);
      forall e | e in rest ensures s[0].published >= e.published {
        if e != x {
          var k :| 0 <= k < |tail| && tail[k] == e;
          assert s[k + 1] == e;
        }
      }
      SortedCons(s[0], rest);
    }
  }

  /** An entry at least as new as every entry of a sorted sequence can go
      in front of it. */
  lemma SortedCons(y: RawEntry, t: seq<RawEntry>)
    requires SortedNewestFirst(t)
    requires forall e :: e in t ==> y.published >= e.published
    ensures SortedNewestFirst([y] + t)
  {
    var r := [y] + t;
    forall i, j | 0 <= i < j < |r| ensures r[i].published >= r[j].published {
      assert r[j] == t[j - 1];
      if i > 0 {
        assert r[i] == t[i - 1];
      }
    }
  }

  /** The entries are in newest-first order and are the input entries. */
  lemma {:induction false} SortSorted(s: seq<RawEntry>)
    ensures SortedNewestFirst(SortByPublished(s))
    ensures multiset(SortByPublished(s)) == multiset(s)
    decreases |s|
  {
    if s != [] {
      SortSorted(s[1..]);
      InsertSorted(s[0], SortByPublished(s[1..]));
      InsertPermutes(s[0], SortByPublished(s[1..]));
      assert s == [s[0]] + s[1..];
    }
  }

  /** The entries of `s` with the date `t`, in order. */
  function WithPublished(s: seq<RawEntry>, t: int): seq<RawEntry> {
    if s == [] then []
    else (if s[0].published == t then [s[0]] else []) + WithPublished(s[1..], t)
  }

  /** Inserting `x` puts it ahead of every entry with its own date. */
  lemma {:induction false} InsertStable(x: RawEntry, s: seq<RawEntry>, t: int)
    ensures WithPublished(InsertByPublished(x, s), t)
         == (if x.published == t then [x] else []) + WithPublished(s, t)
    decreases |s|
  {
    if s == [] || x.published >= s[0].published {
      assert InsertByPublished(x, s) == [x] + s;
      WithPublishedCons(x, s, t);
    } else {
      var tail := s[1..];
      var rest := InsertByPublished(x, tail);
      assert InsertByPublished(x, s) == [s[0]] + rest;
      InsertStable(x, tail, t);
      WithPublishedCons(s[0], rest, t);
      WithPublishedCons(s[0], tail, t);
      assert [s[0]] + tail == s;
    }
  }

  lemma WithPublishedCons(y: RawEntry, s: seq<RawEntry>, t: int)
    ensures WithPublished([y] + s, t) == (if y.published == t then [y] else []) + WithPublished(s, t)
  {
    assert ([y] + s)[1..] == s;
  }

  /** Stability: entries with equal dates keep their relative order. */
  lemma {:induction false} SortStable(s: seq<RawEntry>, t: int)
    ensures WithPublished(SortByPublished(s), t) == WithPublished(s, t)
    decreases |s|
  {
    if s != [] {
      SortStable(s[1..], t);
      InsertStable(s[0], SortByPublished(s[1..]), t);
    }
  }

  // ---- provenance of the whole run ----

  /** `deriveAggregateSource`. */
  function DeriveAggregateSource(sources: seq<Source>): (r: Source)
    ensures r == Cache <==> sources == []
    ensures r == LocalCache <==> sources != [] && forall i :: 0 <= i < |sources| ==> sources[i] == LocalCache
    ensures r == Proxy <==> Proxy in sources
    ensures r != Error
  {
    if sources == [] then Cache
    else if forall i :: 0 <= i < |sources| ==> sources[i] == LocalCache then LocalCache
    else if Proxy in sources then Proxy
    else Network
  }

  /** The label depends on which labels occur, not on feed order or count. */
  lemma AggregateSourceBySet(a: seq<Source>, b: seq<Source>)
    requires forall x :: x in a <==> x in b
    ensures DeriveAggregateSource(a) == DeriveAggregateSource(b)
  {
    if a != [] && forall i :: 0 <= i < |a| ==> a[i] == LocalCache {
      assert a[0] in b;
      forall i | 0 <= i < |b| ensures b[i] == LocalCache {
        assert b[i] in a;
      }
    }
    if b != [] && forall i :: 0 <= i < |b| ==> b[i] == LocalCache {
      assert b[0] in a;
      forall i | 0 <= i < |a| ensures a[i] == LocalCache {
        assert a[i] in b;
      }
    }
    if a != [] {
      assert a[0] in b;
    }
    if b != [] {
      assert b[0] in a;
    }
  }

  /** A run where some feed came from a snapshot, none through the proxy,
      and some other feed did not come from a snapshot (it failed, say) is
      labelled `network`, though nothing need have come from the network. */
  lemma SnapshotAndFailureIsNetwork(sources: seq<Source>)
    requires LocalCache in sources && Proxy !in sources
    requires exists i :: 0 <= i < |sources| && sources[i] != LocalCache
    ensures DeriveAggregateSource(sources) == Network
  {
  }

  function SourcesOf(outcomes: seq<FeedOutcome>): (r: seq<Source>)
    ensures |r| == |outcomes|
    ensures forall i :: 0 <= i < |r| ==> r[i] == outcomes[i].source
  {
    seq(|outcomes|, i requires 0 <= i < |outcomes| => outcomes[i].source)
  }

  /** The per-feed summaries, in feed order. */
  function Summaries(outcomes: seq<FeedOutcome>, savedAt: int): (r: seq<FeedSummary>)
    ensures |r| == |outcomes|
    ensures forall i :: 0 <= i < |r| ==>
      r[i] == FeedSummary(outcomes[i].url, savedAt, outcomes[i].source, |outcomes[i].items|)
  {
    seq(|outcomes|, i requires 0 <= i < |outcomes| =>
      FeedSummary(outcomes[i].url, savedAt, outcomes[i].source, |outcomes[i].items|))
  }

  function TotalCount(summaries: seq<FeedSummary>): nat {
    if summaries == [] then 0
    else TotalCount(summaries[..|summaries| - 1]) + summaries[|summaries| - 1].count
  }

  /** The per-feed counts add up to the number of entries before filtering. */
  lemma {:induction false} CountsAddUp(outcomes: seq<FeedOutcome>, savedAt: int)
    ensures TotalCount(Summaries(outcomes, savedAt)) == |Flatten(outcomes)|
    decreases |outcomes|
  {
    if outcomes != [] {
      var n := |outcomes| - 1;
      CountsAddUp(outcomes[..n], savedAt);
      assert Summaries(outcomes, savedAt)[..n] == Summaries(outcomes[..n], savedAt);
    }
  }

  // ---- the whole collection ----

  /** `{ title, url: link, published, summary, ...parseJobHtml(summary) }`. */
  function Enrich(item: RawEntry, parseHtml: string -> HtmlDoc): (r: JobRecord)
    ensures r.title == item.title && r.url == item.link
    ensures r.published == item.published && r.summary == item.summary
    ensures var x := ParseJobHtml(item.summary, parseHtml);
      && r.overview == x.overview && r.responsibilities == x.responsibilities
      && r.requirements == x.requirements && r.applyUrl == x.applyUrl
  {
    var x := ParseJobHtml(item.summary, parseHtml);
    JobRecord(item.title, item.link, item.published, item.summary,
      x.overview, x.responsibilities, x.requirements, x.applyUrl)
  }

  function EnrichAll(items: seq<RawEntry>, parseHtml: string -> HtmlDoc): (r: seq<JobRecord>)
    ensures |r| == |items|
    ensures forall i :: 0 <= i < |r| ==> r[i] == Enrich(items[i], parseHtml)
  {
    seq(|items|, i requires 0 <= i < |items| => Enrich(items[i], parseHtml))
  }

  /** The entries that survive filtering and de-duplication, newest first. */
  function Survivors(flat: seq<RawEntry>, keywords: seq<string>): seq<RawEntry> {
    SortByPublished(Firsts(FilterByKeywords(flat, keywords), DedupeKey, IsNonEmpty))
  }

  /** What `collectJobs(config)` resolves to or rejects with. */
  function Collect(cfg: Config, env: Environment): Result<AggregationResult, TotalFailure> {
    var steps := StepsOf(cfg.feeds, cfg.options, env);
    var outcomes := Outcomes(steps);
    var warnings := Warnings(steps);
    var flat := Flatten(outcomes);
    if |flat| == 0 && |warnings| == |cfg.feeds| then
      Failure(TotalFailure(ALL_FAILED_MESSAGE, warnings))
    else
      var items := EnrichAll(Survivors(flat, cfg.keywords), env.parseHtml);
      Success(AggregationResult(env.now, |items|, items, Summaries(outcomes, env.now), warnings,
        DeriveAggregateSource(SourcesOf(outcomes))))
  }

  /** `collectJobs`: the feeds through the worker pool, then the warnings and
      the entries gathered feed by feed, then filter, dedupe, sort and
      enrich. */
  method CollectJobs(cfg: Config, env: Environment, turn: nat -> nat)
    returns (r: Result<AggregationResult, TotalFailure>)
    ensures r == Collect(cfg, env)
  {
    var results, _ := MapWithConcurrency(cfg.feeds, CONCURRENCY,
      (url: string) => FetchFeed(url, cfg.options, env), turn);
    var steps := seq(|results|, i requires 0 <= i < |results| && results[i].Some? => results[i].value);
    assert steps == StepsOf(cfg.feeds, cfg.options, env);
    var outcomes := Outcomes(steps);
    var warnings, flat := GatherFeeds(steps);
    if |flat| == 0 && |warnings| == |cfg.feeds| {
      return Failure(TotalFailure(ALL_FAILED_MESSAGE, warnings));
    }
    var filtered := FilterByKeywords(flat, cfg.keywords);
    var unique := Dedupe(filtered);
    var ordered := SortByPublished(unique);
    var items := EnrichAll(ordered, env.parseHtml);
    r := Success(AggregationResult(env.now, |items|, items, Summaries(outcomes, env.now), warnings,
      DeriveAggregateSource(SourcesOf(outcomes))));
  }

  /** The two collections `collectJobs` builds from the per-feed steps: the
      warnings the failing callbacks push, and `flatMap` of the entries. */
  method GatherFeeds(steps: seq<FeedStep>) returns (warnings: seq<Warning>, flat: seq<RawEntry>)
    ensures warnings == Warnings(steps)
    ensures flat == Flatten(Outcomes(steps))
  {
    ghost var outcomes := Outcomes(steps);
    warnings, flat := [], [];
    var k := 0;
    while k < |steps|
      invariant 0 <= k <= |steps|
      invariant warnings == Warnings(steps[..k])
      invariant flat == Flatten(outcomes[..k])
    {
      assert steps[..k + 1][..k] == steps[..k];
      assert outcomes[..k + 1][..k] == outcomes[..k];
      if steps[k].warning.Some? {
        warnings := warnings + [steps[k].warning.value];
      }
      flat := flat + steps[k].outcome.items;
      k := k + 1;
    }
    assert steps[..k] == steps && outcomes[..k] == outcomes;
  }

  /** The run fails as a whole exactly when every feed failed to fetch; in
      particular an empty feed list fails. The failure lists one warning per
      feed, in feed order. */
  lemma TotalFailureIff(cfg: Config, env: Environment)
    ensures Collect(cfg, env).Failure? <==>
      forall i :: 0 <= i < |cfg.feeds| ==> FetchFeedXml(cfg.feeds[i], cfg.options, env.net).Failure?
    ensures Collect(cfg, env).Failure? ==>
      var d := Collect(cfg, env).error.details;
      && Collect(cfg, env).error.message == ALL_FAILED_MESSAGE
      && |d| == |cfg.feeds|
      && (forall w :: w in d ==> w.url in cfg.feeds && w.message != "")
      && forall i :: 0 <= i < |cfg.feeds| ==>
           && d[i].url == cfg.feeds[i]
           && FetchFeedXml(cfg.feeds[i], cfg.options, env.net).Failure?
           && d[i].message == Or(FetchFeedXml(cfg.feeds[i], cfg.options, env.net).error, FEED_FAILED_MESSAGE)
  {
    CollectFailure(cfg, env);
    AllFailedIff(cfg, env);
    WarningsNameFeeds(cfg, env);
    if forall i :: 0 <= i < |cfg.feeds| ==> FetchFeedXml(cfg.feeds[i], cfg.options, env.net).Failure? {
      FailedWarningsInOrder(cfg, env);
    }
  }

  /** When every feed fails, the i-th warning is feed i's, with its fetch
      error or the fallback message. */
  lemma FailedWarningsInOrder(cfg: Config, env: Environment)
    requires forall i :: 0 <= i < |cfg.feeds| ==> FetchFeedXml(cfg.feeds[i], cfg.options, env.net).Failure?
    ensures var w := Warnings(StepsOf(cfg.feeds, cfg.options, env));
      && |w| == |cfg.feeds|
      && forall i :: 0 <= i < |cfg.feeds| ==>
           w[i] == Warning(cfg.feeds[i], Or(FetchFeedXml(cfg.feeds[i], cfg.options, env.net).error, FEED_FAILED_MESSAGE))
  {
    var steps := StepsOf(cfg.feeds, cfg.options, env);
    FailedStepsWarn(cfg, env);
    AllWarnedInOrder(steps);
  }

  /** When every step warns, the warnings are the steps' warnings, index by
      index. */
  lemma {:induction false} AllWarnedInOrder(steps: seq<FeedStep>)
    requires forall i :: 0 <= i < |steps| ==> steps[i].warning.Some?
    ensures |Warnings(steps)| == |steps|
    ensures forall i :: 0 <= i < |steps| ==> Warnings(steps)[i] == steps[i].warning.value
    decreases |steps|
  {
    if steps != [] {
      var n := |steps| - 1;
      var init := steps[..n];
      forall i | 0 <= i < n
        ensures init[i].warning.Some?
      {
        assert init[i] == steps[i];
      }
      AllWarnedInOrder(init);
      assert Warnings(steps) == Warnings(init) + [steps[n].warning.value];
      forall i | 0 <= i < n
        ensures Warnings(steps)[i] == steps[i].warning.value
      {
        assert init[i] == steps[i];
      }
    }
  }

  /** Nothing gathered and one warning per feed: exactly when every fetch
      failed. */
  lemma AllFailedIff(cfg: Config, env: Environment)
    ensures var steps := StepsOf(cfg.feeds, cfg.options, env);
      |Flatten(Outcomes(steps))| == 0 && |Warnings(steps)| == |cfg.feeds| <==>
        forall i :: 0 <= i < |cfg.feeds| ==> FetchFeedXml(cfg.feeds[i], cfg.options, env.net).Failure?
  {
    var steps := StepsOf(cfg.feeds, cfg.options, env);
    WarningCount(steps);
    FailedStepsWarn(cfg, env);
    if forall i :: 0 <= i < |cfg.feeds| ==> FetchFeedXml(cfg.feeds[i], cfg.options, env.net).Failure? {
      FlattenEmpty(Outcomes(steps));
    }
  }

  /** Every warning names one of the feeds and carries a message. */
  lemma WarningsNameFeeds(cfg: Config, env: Environment)
    ensures forall w :: w in Warnings(StepsOf(cfg.feeds, cfg.options, env)) ==>
      w.url in cfg.feeds && w.message != ""
  {
    var steps := StepsOf(cfg.feeds, cfg.options, env);
    WarningsOfFailures(steps);
    forall w | w in Warnings(steps)
      ensures w.url in cfg.feeds && w.message != ""
    {
      var i :| 0 <= i < |steps| && steps[i].warning == Some(w);
      assert steps[i] == FetchFeed(cfg.feeds[i], cfg.options, env);
    }
  }

  /** The run fails exactly when no entry was gathered and every feed
      warned, and it then rejects with those warnings. */
  lemma CollectFailure(cfg: Config, env: Environment)
    ensures var steps := StepsOf(cfg.feeds, cfg.options, env);
      && (Collect(cfg, env).Failure? <==>
            |Flatten(Outcomes(steps))| == 0 && |Warnings(steps)| == |cfg.feeds|)
      && (Collect(cfg, env).Failure? ==>
            Collect(cfg, env).error == TotalFailure(ALL_FAILED_MESSAGE, Warnings(steps)))
  {
  }

  /** A feed warns exactly when its fetch fails, and a warning names its
      feed and has a message; a failed feed contributes no entries. */
  lemma FailedStepsWarn(cfg: Config, env: Environment)
    ensures var steps := StepsOf(cfg.feeds, cfg.options, env);
      forall i :: 0 <= i < |steps| ==>
        && (steps[i].warning.Some? <==> FetchFeedXml(cfg.feeds[i], cfg.options, env.net).Failure?)
        && (steps[i].warning.Some? ==>
              && FetchFeedXml(cfg.feeds[i], cfg.options, env.net).Failure?
              && steps[i].warning.value
                 == Warning(cfg.feeds[i], Or(FetchFeedXml(cfg.feeds[i], cfg.options, env.net).error, FEED_FAILED_MESSAGE))
              && steps[i].warning.value.message != ""
              && Outcomes(steps)[i].items == [])
  {
  }

  /** The surviving entries are newest first, every one of them is a fetched
      entry that matches the keywords and has a non-empty dedupe key, no two
      share a key, and every non-empty key of a matching entry is
      represented. */
  lemma SurvivorsSpec(flat: seq<RawEntry>, keywords: seq<string>)
    ensures var survivors := Survivors(flat, keywords);
      && SortedNewestFirst(survivors)
      && (forall x :: x in survivors ==> x in flat && MatchKeywords(x, keywords) && DedupeKey(x) != "")
      && KeysDistinct(survivors, DedupeKey)
      && (forall x :: x in flat && MatchKeywords(x, keywords) && DedupeKey(x) != "" ==>
            exists y :: y in survivors && DedupeKey(y) == DedupeKey(x))
  {
    var filtered := FilterByKeywords(flat, keywords);
    var unique := Firsts(filtered, DedupeKey, IsNonEmpty);
    var survivors := SortByPublished(unique);
    SortSorted(unique);
    SortMembers(unique);
    FirstsKeysDistinct(filtered, DedupeKey, IsNonEmpty);
    SortKeysDistinct(unique, DedupeKey);
    UniqueSpec(flat, keywords);
  }

  /** Before sorting: the first entry per non-empty key among the matching
      entries; every one of them matches and every such key is kept. */
  lemma UniqueSpec(flat: seq<RawEntry>, keywords: seq<string>)
    ensures var unique := Firsts(FilterByKeywords(flat, keywords), DedupeKey, IsNonEmpty);
      && (forall x :: x in unique ==> x in flat && MatchKeywords(x, keywords) && DedupeKey(x) != "")
      && (forall x :: x in flat && MatchKeywords(x, keywords) && DedupeKey(x) != "" ==>
            exists y :: y in unique && DedupeKey(y) == DedupeKey(x))
  {
    var filtered := FilterByKeywords(flat, keywords);
    var unique := Firsts(filtered, DedupeKey, IsNonEmpty);
    FirstsMembers(filtered, DedupeKey, IsNonEmpty);
    forall x | x in unique ensures x in flat && MatchKeywords(x, keywords) && DedupeKey(x) != "" {
      var i :| 0 <= i < |filtered| && filtered[i] == x && IsFirst(filtered, DedupeKey, IsNonEmpty, i);
      assert x in filtered;
    }
    forall x | x in flat && MatchKeywords(x, keywords) && DedupeKey(x) != ""
      ensures exists y :: y in unique && DedupeKey(y) == DedupeKey(x)
    {
      var i :| 0 <= i < |filtered| && filtered[i] == x;
      FirstsCovers(filtered, DedupeKey, IsNonEmpty, i);
    }
  }

  lemma KeysDistinctCons(y: RawEntry, t: seq<RawEntry>, key: RawEntry -> string)
    requires KeysDistinct(t, key)
    requires forall e :: e in t ==> key(e) != key(y)
    ensures KeysDistinct([y] + t, key)
  {
    var r := [y] + t;
    forall i, j | 0 <= i < j < |r| ensures key(r[i]) != key(r[j]) {
      assert r[j] == t[j - 1];
      if i > 0 {
        assert r[i] == t[i - 1];
      }
    }
  }

  lemma KeysDistinctTail(s: seq<RawEntry>, key: RawEntry -> string)
    requires s != [] && KeysDistinct(s, key)
    ensures KeysDistinct(s[1..], key)
    ensures forall e :: e in s[1..] ==> key(e) != key(s[0])
  {
    assert forall k :: 0 <= k < |s| - 1 ==> s[1..][k] == s[k + 1];
  }

  lemma {:induction false} InsertKeysDistinct(x: RawEntry, s: seq<RawEntry>, key: RawEntry -> string)
    requires KeysDistinct(s, key)
    requires forall e :: e in s ==> key(e) != key(x)
    ensures KeysDistinct(InsertByPublished(x, s), key)
    decreases |s|
  {
    if s == [] || x.published >= s[0].published {
      KeysDistinctCons(x, s, key);
    } else {
      KeysDistinctTail(s, key);
      InsertKeysDistinct(x, s[1..], key);
      var rest := InsertByPublished(x, s[1..]);
      InsertMembers(x, s[1..]);
      forall e | e in rest ensures key(e) != key(s[0]) {
        if e != x {
          assert e in s[1..];
        } else {
          assert s[0] in s;
        }
      }
      KeysDistinctCons(s[0], rest, key);
    }
  }

  /** Sorting keeps the keys distinct. */
  lemma {:induction false} SortKeysDistinct(s: seq<RawEntry>, key: RawEntry -> string)
    requires KeysDistinct(s, key)
    ensures KeysDistinct(SortByPublished(s), key)
    decreases |s|
  {
    if s != [] {
      KeysDistinctTail(s, key);
      SortKeysDistinct(s[1..], key);
      var sorted := SortByPublished(s[1..]);
      SortMembers(s[1..]);
      InsertKeysDistinct(s[0], sorted, key);
    }
  }

  /** On success: one job per surviving entry, in order, and one summary per
      feed, in feed order, whose counts add up to the entries fetched. */
  lemma CollectedJobs(cfg: Config, env: Environment)
    ensures Collect(cfg, env).Success? ==>
      var res := Collect(cfg, env).value;
      var outcomes := Outcomes(StepsOf(cfg.feeds, cfg.options, env));
      var survivors := Survivors(Flatten(outcomes), cfg.keywords);
      && res.count == |res.items| == |survivors|
      && (forall i :: 0 <= i < |res.items| ==> res.items[i] == Enrich(survivors[i], env.parseHtml))
      && res.savedAt == env.now
      && |res.feeds| == |cfg.feeds|
      && (forall i :: 0 <= i < |cfg.feeds| ==>
            res.feeds[i] == FeedSummary(cfg.feeds[i], res.savedAt, outcomes[i].source, |outcomes[i].items|))
      && TotalCount(res.feeds) == |Flatten(outcomes)|
      && res.source == DeriveAggregateSource(SourcesOf(outcomes))
  {
    CountsAddUp(Outcomes(StepsOf(cfg.feeds, cfg.options, env)), env.now);
  }
}
