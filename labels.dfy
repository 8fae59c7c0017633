/** The small presentation helpers: HTML escaping of text put into markup,
    the label of a status pill, the provenance label of the last sync, the
    text of a filter menu option, and the tags shown on a job card. */
module Labels {
  import opened Basics
  import opened Text
  import opened Seqs
  import opened Transport
  import opened Aggregator
  import opened Extractor
  import opened Statuses
  import opened UserSettings

  // ---- escapeHtml ----

  /** `s.replace(/c/g, rep)`: every occurrence of `c` becomes `rep`. */
  function ReplaceChar(s: string, c: char, rep: string): string {
    if s == [] then []
    else (if s[0] == c then rep else [s[0]]) + ReplaceChar(s[1..], c, rep)
  }

  lemma {:induction false} ReplaceAppend(a: string, b: string, c: char, rep: string)
    ensures ReplaceChar(a + b, c, rep) == ReplaceChar(a, c, rep) + ReplaceChar(b, c, rep)
    decreases |a|
  {
    if a == [] {
      assert a + b == b;
    } else {
      assert (a + b)[1..] == a[1..] + b;
      ReplaceAppend(a[1..], b, c, rep);
    }
  }

  lemma {:induction false} ReplaceAbsent(s: string, c: char, rep: string)
    requires c !in s
    ensures ReplaceChar(s, c, rep) == s
    decreases |s|
  {
    if s != [] {
      ReplaceAbsent(s[1..], c, rep);
      assert s == [s[0]] + s[1..];
    }
  }

  /** The five replacements of `escapeHtml`, ampersand first. */
  function ReplaceEntities(s: string): string {
    var amp := ReplaceChar(s, '&', "&amp;");
    var lt := ReplaceChar(amp, '<', "&lt;");
    var gt := ReplaceChar(lt, '>', "&gt;");
    var quot := ReplaceChar(gt, '"', "&quot;");
    ReplaceChar(quot, '\'', "&#39;")
  }

  /** `escapeHtml(value)`: an empty value gives `""`, anything else goes
      through the replacements. */
  function EscapeHtml(value: string): string {
    if value == "" then "" else ReplaceEntities(value)
  }

  /** Reference definition: the entity for each of the five characters, the
      character itself otherwise. */
  function EscapeChar(c: char): (r: string)
    ensures '<' !in r && '>' !in r && '"' !in r && '\'' !in r
  {
    if c == '&' then "&amp;"
    else if c == '<' then "&lt;"
    else if c == '>' then "&gt;"
    else if c == '"' then "&quot;"
    else if c == '\'' then "&#39;"
    else [c]
  }

  function EscapeEach(s: string): string {
    if s == [] then [] else EscapeChar(s[0]) + EscapeEach(s[1..])
  }

  lemma ReplaceEntitiesAppend(a: string, b: string)
    ensures ReplaceEntities(a + b) == ReplaceEntities(a) + ReplaceEntities(b)
  {
    ReplaceAppend(a, b, '&', "&amp;");
    var a1, b1 := ReplaceChar(a, '&', "&amp;"), ReplaceChar(b, '&', "&amp;");
    ReplaceAppend(a1, b1, '<', "&lt;");
    var a2, b2 := ReplaceChar(a1, '<', "&lt;"), ReplaceChar(b1, '<', "&lt;");
    ReplaceAppend(a2, b2, '>', "&gt;");
    var a3, b3 := ReplaceChar(a2, '>', "&gt;"), ReplaceChar(b2, '>', "&gt;");
    ReplaceAppend(a3, b3, '"', "&quot;");
    var a4, b4 := ReplaceChar(a3, '"', "&quot;"), ReplaceChar(b3, '"', "&quot;");
    ReplaceAppend(a4, b4, '\'', "&#39;");
  }

  lemma ReplaceOne(c: char, d: char, rep: string)
    ensures ReplaceChar([c], d, rep) == if c == d then rep else [c]
  {
    assert [c][1..] == [];
  }

  /** No entity holds a character that a later replacement looks for. */
  lemma EntitiesInert()
    ensures '<' !in "&amp;" && '>' !in "&amp;" && '"' !in "&amp;" && '\'' !in "&amp;"
    ensures '>' !in "&lt;" && '"' !in "&lt;" && '\'' !in "&lt;"
    ensures '"' !in "&gt;" && '\'' !in "&gt;"
    ensures '\'' !in "&quot;"
  {
  }

  /** A later replacement never touches what an earlier one produced. */
  lemma ReplaceEntitiesChar(c: char)
    ensures ReplaceEntities([c]) == EscapeChar(c)
  {
    EntitiesInert();
    ReplaceOne(c, '&', "&amp;");
    var amp := ReplaceChar([c], '&', "&amp;");
    if c == '&' {
      ReplaceAbsent(amp, '<', "&lt;");
      ReplaceAbsent(amp, '>', "&gt;");
      ReplaceAbsent(amp, '"', "&quot;");
      ReplaceAbsent(amp, '\'', "&#39;");
      return;
    }
    ReplaceOne(c, '<', "&lt;");
    var lt := ReplaceChar(amp, '<', "&lt;");
    if c == '<' {
      ReplaceAbsent(lt, '>', "&gt;");
      ReplaceAbsent(lt, '"', "&quot;");
      ReplaceAbsent(lt, '\'', "&#39;");
      return;
    }
    ReplaceOne(c, '>', "&gt;");
    var gt := ReplaceChar(lt, '>', "&gt;");
    if c == '>' {
      ReplaceAbsent(gt, '"', "&quot;");
      ReplaceAbsent(gt, '\'', "&#39;");
      return;
    }
    ReplaceOne(c, '"', "&quot;");
    var quot := ReplaceChar(gt, '"', "&quot;");
    if c == '"' {
      ReplaceAbsent(quot, '\'', "&#39;");
      return;
    }
    ReplaceOne(c, '\'', "&#39;");
  }

  /** The chain of global replacements escapes each character on its own:
      no entity is escaped twice. */
  lemma {:induction false} EscapeHtmlPerChar(s: string)
    ensures EscapeHtml(s) == EscapeEach(s)
    decreases |s|
  {
    if s != [] {
      EscapeHtmlPerChar(s[1..]);
      assert s == [s[0]] + s[1..];
      ReplaceEntitiesAppend([s[0]], s[1..]);
      ReplaceEntitiesChar(s[0]);
      if s[1..] == [] {
        assert ReplaceEntities([]) == [];
      }
    }
  }

  /** Escaped text holds none of the characters that open or close a tag or
      an attribute value. */
  lemma {:induction false} EscapedIsInert(s: string)
    ensures '<' !in EscapeEach(s) && '>' !in EscapeEach(s)
    ensures '"' !in EscapeEach(s) && '\'' !in EscapeEach(s)
    decreases |s|
  {
    if s != [] {
      EscapedIsInert(s[1..]);
    }
  }

  /** How a browser reads the five entities back. */
  function Unescape(s: string): string
    decreases |s|
  {
    if s == [] then []
    else if "&amp;" <= s then "&" + Unescape(s[5..])
    else if "&lt;" <= s then "<" + Unescape(s[4..])
    else if "&gt;" <= s then ">" + Unescape(s[4..])
    else if "&quot;" <= s then "\"" + Unescape(s[6..])
    else if "&#39;" <= s then "'" + Unescape(s[5..])
    else [s[0]] + Unescape(s[1..])
  }

  /** Reading back one escaped character. */
  lemma UnescapeStep(c: char, rest: string)
    ensures Unescape(EscapeChar(c) + rest) == [c] + Unescape(rest)
  {
    if c == '&' || c == '<' || c == '>' {
      UnescapeTagChar(c, rest);
    } else if c == '"' || c == '\'' {
      UnescapeQuote(c, rest);
    } else {
      var t := EscapeChar(c) + rest;
      assert t[0] == c && t[1..] == rest;
      assert "&amp;"[0] == '&' && "&lt;"[0] == '&' && "&gt;"[0] == '&' && "&quot;"[0] == '&' && "&#39;"[0] == '&';
      assert Unescape(t) == [t[0]] + Unescape(t[1..]);
    }
  }

  lemma UnescapeTagChar(c: char, rest: string)
    requires c == '&' || c == '<' || c == '>'
    ensures Unescape(EscapeChar(c) + rest) == [c] + Unescape(rest)
  {
    var e := EscapeChar(c);
    var t := e + rest;
    assert t[..|e|] == e && t[|e|..] == rest;
    if c == '&' {
      assert "&amp;" <= t;
      assert Unescape(t) == "&" + Unescape(t[5..]);
    } else if c == '<' {
      assert t[1] == 'l' && "&amp;"[1] == 'a';
      assert "&lt;" <= t;
      assert Unescape(t) == "<" + Unescape(t[4..]);
    } else {
      assert t[1] == 'g' && "&amp;"[1] == 'a' && "&lt;"[1] == 'l';
      assert "&gt;" <= t;
      assert Unescape(t) == ">" + Unescape(t[4..]);
    }
  }

  lemma UnescapeQuote(c: char, rest: string)
    requires c == '"' || c == '\''
    ensures Unescape(EscapeChar(c) + rest) == [c] + Unescape(rest)
  {
    var e := EscapeChar(c);
    var t := e + rest;
    assert t[..|e|] == e && t[|e|..] == rest;
    assert "&amp;"[1] == 'a' && "&lt;"[1] == 'l' && "&gt;"[1] == 'g';
    if c == '"' {
      assert t[1] == 'q';
      assert "&quot;" <= t;
      assert Unescape(t) == "\"" + Unescape(t[6..]);
    } else {
      assert t[1] == '#' && "&quot;"[1] == 'q';
      assert "&#39;" <= t;
      assert Unescape(t) == "'" + Unescape(t[5..]);
    }
  }

  /** Escaping loses nothing: the displayed text is the original value. */
  lemma {:induction false} UnescapeEscapeHtml(s: string)
    ensures Unescape(EscapeHtml(s)) == s
    decreases |s|
  {
    EscapeHtmlPerChar(s);
    if s != [] {
      UnescapeEscapeHtml(s[1..]);
      EscapeHtmlPerChar(s[1..]);
      UnescapeStep(s[0], EscapeEach(s[1..]));
      assert s == [s[0]] + s[1..];
    }
  }

  // ---- statusLabel ----

  const STATUS_FILTER_ALL := "all"

  /** `statusLabel(status)`: a check mark for applied, a cross for
      irrelevant, "All" for the all filter and a plus for anything else. */
  function StatusLabel(status: string): (r: string)
    ensures r != ""
    ensures r == "+" <==> !HasOwnLabel(status)
  {
    if status == APPLIED then "\U{2713}"
    else if status == IRRELEVANT then "x"
    else if status == STATUS_FILTER_ALL then "All"
    else "+"
  }

  predicate HasOwnLabel(status: string) {
    status == APPLIED || status == IRRELEVANT || status == STATUS_FILTER_ALL
  }

  /** Two statuses share a label exactly when they are equal or neither of
      them has a label of its own; a new job always shows the plus. */
  lemma StatusLabelsDistinct(a: string, b: string)
    ensures StatusLabel(a) == StatusLabel(b) <==> a == b || (!HasOwnLabel(a) && !HasOwnLabel(b))
    ensures StatusLabel(NEW) == "+"
  {
    assert "\U{2713}"[0] != 'x' && "\U{2713}"[0] != '+';
    assert "All"[0] != "x"[0] && "All"[0] != "+"[0] && "x"[0] != "+"[0];
  }

  // ---- formatSourceLabel ----

  /** `formatSourceLabel(source)`: a dash when there is none, a phrase for
      the proxy, the feed and the local cache, any other source as is. */
  function FormatSourceLabel(source: string): (r: string)
    ensures r != ""
  {
    if source == "" then "\U{2014}"
    else if source == "proxy" then "via proxy"
    else if source == "network" then "via feed"
    else if source == "local-cache" then "via local cache"
    else source
  }

  /** Every provenance a sync can report gets its own non-empty label. */
  lemma SourceLabelsDistinct(x: Source, y: Source)
    ensures FormatSourceLabel(x.Name()) != ""
    ensures FormatSourceLabel(x.Name()) == FormatSourceLabel(y.Name()) <==> x == y
  {
    var labels := [FormatSourceLabel(x.Name()), FormatSourceLabel(y.Name())];
    assert "error"[0] != "cache"[0];
    assert "via feed"[4] != "via proxy"[4];
  }

  // ---- buildFilterOptionLabel ----

  /** `FILTER_DISPLAY_LABELS[filter] || "All jobs"`. */
  function FilterBaseLabel(filter: string): string {
    if filter == NEW then "New only"
    else if filter == APPLIED then "Applied only"
    else if filter == IRRELEVANT then "Irrelevant only"
    else "All jobs"
  }

  /** `filter === "all" ? total : totals[filter] ?? 0`. */
  function FilterCount(filter: string, totals: Totals, total: nat): nat {
    if filter == STATUS_FILTER_ALL then total
    else if filter == NEW then totals.newJobs
    else if filter == APPLIED then totals.applied
    else if filter == IRRELEVANT then totals.irrelevant
    else 0
  }

  /** Where the count sits in a label of the form `base (digits)`. */
  lemma Parenthesized(base: string, digits: string)
    ensures var r := base + " (" + digits + ")";
      && base + " (" <= r && EndsWith(r, ")")
      && |r| == |base| + |digits| + 3
      && r[|base| + 2..|r| - 1] == digits
  {
    var head := base + " (";
    var r := head + digits + ")";
    assert r[..|head|] == head;
    assert r[|r| - 1..] == ")";
    assert r[|base| + 2..|r| - 1] == digits;
  }

  /** `buildFilterOptionLabel(filter, totals, total)`: the option's name
      followed by its count in parentheses, written in decimal without
      leading zeros (so, by `DecimalUnique`, exactly as `String` writes it). */
  function BuildFilterOptionLabel(filter: string, totals: Totals, total: nat): (r: string)
    ensures FilterBaseLabel(filter) + " (" <= r && EndsWith(r, ")")
    ensures |r| >= |FilterBaseLabel(filter)| + 3
    ensures IsDecimal(r[|FilterBaseLabel(filter)| + 2..|r| - 1])
    ensures DigitsValue(r[|FilterBaseLabel(filter)| + 2..|r| - 1]) == FilterCount(filter, totals, total)
  {
    var base := FilterBaseLabel(filter);
    var digits := NatToString(FilterCount(filter, totals, total));
    NatToStringValue(FilterCount(filter, totals, total));
    Parenthesized(base, digits);
    base + " (" + digits + ")"
  }

  /** With the menu's total, the counts of the three status options add up
      to the count of the "all" option. */
  lemma FilterCountsAddUp(jobs: seq<JobRecord>, statuses: map<string, string>)
    ensures var t := Tally(jobs, statuses);
      FilterCount(NEW, t, t.newJobs + t.applied + t.irrelevant)
      + FilterCount(APPLIED, t, t.newJobs + t.applied + t.irrelevant)
      + FilterCount(IRRELEVANT, t, t.newJobs + t.applied + t.irrelevant)
      == FilterCount(STATUS_FILTER_ALL, t, t.newJobs + t.applied + t.irrelevant)
    ensures var t := Tally(jobs, statuses);
      FilterCount(STATUS_FILTER_ALL, t, t.newJobs + t.applied + t.irrelevant) == |jobs|
  {
    TallyCountsEveryJob(jobs, statuses);
  }

  // ---- deriveTags ----

  const MAX_TAGS := 3

  /** The settings' keywords, or the default ones when there are none. */
  function TagKeywords(settingsKeywords: seq<string>): seq<string> {
    if |settingsKeywords| > 0 then settingsKeywords else DEFAULT_KEYWORDS
  }

  /** A keyword tags a job when it occurs, lower-cased, in the lower-cased
      title, a space and the summary. */
  predicate Tagged(job: JobRecord, keyword: string) {
    Contains(Lower(job.title + " " + job.summary), Lower(keyword))
  }

  function TaggedBy(job: JobRecord): string -> bool {
    (kw: string) => Tagged(job, kw)
  }

  /** `host.replace(/^www\./, "")`. */
  function StripWww(host: string): (r: string)
    ensures "www." <= host ==> host == "www." + r
    ensures !("www." <= host) ==> r == host
  {
    if "www." <= host then host[4..] else host
  }

  /** The host tag: the url's host without a leading `www.`, when the job
      has a url that the URL parser accepts. */
  function HostTag(job: JobRecord, hostOf: string -> Option<string>): seq<string> {
    if job.url == "" then []
    else match hostOf(job.url)
      case None => []
      case Some(host) => [StripWww(host)]
  }

  /** Everything `deriveTags` pushes, in push order. */
  function TagCandidates(job: JobRecord, settingsKeywords: seq<string>, hostOf: string -> Option<string>): seq<string> {
    Filter(TagKeywords(settingsKeywords), TaggedBy(job)) + HostTag(job, hostOf)
  }

  /** The tags shown: the first three distinct candidates. */
  function Tags(job: JobRecord, settingsKeywords: seq<string>, hostOf: string -> Option<string>): seq<string> {
    var unique := DedupeStrings(TagCandidates(job, settingsKeywords, hostOf));
    if |unique| > MAX_TAGS then unique[..MAX_TAGS] else unique
  }

  /** The keyword loop of `deriveTags`: each keyword found in the
      lower-cased title and summary is pushed, in keyword order. */
  method MatchingKeywords(job: JobRecord, keywords: seq<string>) returns (pushed: seq<string>)
    ensures pushed == Filter(keywords, TaggedBy(job))
  {
    pushed := [];
    var hay := Lower(job.title + " " + job.summary);
    for i := 0 to |keywords|
      invariant pushed == Filter(keywords[..i], TaggedBy(job))
    {
      assert keywords[..i + 1] == keywords[..i] + [keywords[i]];
      assert TaggedBy(job)(keywords[i]) == Contains(hay, Lower(keywords[i]));
      if Contains(hay, Lower(keywords[i])) {
        pushed := pushed + [keywords[i]];
      }
    }
    assert keywords[..|keywords|] == keywords;
  }

  /** `deriveTags(job)`: the matching keywords pushed in keyword order, then
      the host; de-duplicated and cut to three. The URL parser is `hostOf`,
      `None` where `new URL` throws. */
  method DeriveTags(job: JobRecord, settingsKeywords: seq<string>, hostOf: string -> Option<string>)
    returns (tags: seq<string>)
    ensures tags == Tags(job, settingsKeywords, hostOf)
  {
    var pushed := MatchingKeywords(job, TagKeywords(settingsKeywords));
    if job.url != "" {
      match hostOf(job.url) {
        case None =>
        case Some(host) =>
          pushed := pushed + [StripWww(host)];
      }
    }
    assert pushed == TagCandidates(job, settingsKeywords, hostOf);
    var unique := DedupeStrings(pushed);
    tags := if |unique| > MAX_TAGS then unique[..MAX_TAGS] else unique;
  }

  /** At most three tags, no tag twice, and every tag is a keyword found in
      the job's text or its host. */
  lemma TagsAreMatchesOrHost(job: JobRecord, settingsKeywords: seq<string>, hostOf: string -> Option<string>)
    ensures var r := Tags(job, settingsKeywords, hostOf);
      |r| <= MAX_TAGS && NoDuplicates(r)
    ensures forall t :: t in Tags(job, settingsKeywords, hostOf) ==>
      (t in TagKeywords(settingsKeywords) && Tagged(job, t)) || t in HostTag(job, hostOf)
  {
    var c := TagCandidates(job, settingsKeywords, hostOf);
    var kws := Filter(TagKeywords(settingsKeywords), TaggedBy(job));
    FilterMembers(TagKeywords(settingsKeywords), TaggedBy(job));
    var unique := DedupeStrings(c);
    var r := Tags(job, settingsKeywords, hostOf);
    assert forall t :: t in r ==> t in unique;
  }

  /** When there are at most three distinct candidates, none is cut: every
      matching keyword is shown, and so is the host. */
  lemma TagsComplete(job: JobRecord, settingsKeywords: seq<string>, hostOf: string -> Option<string>)
    requires |DedupeStrings(TagCandidates(job, settingsKeywords, hostOf))| <= MAX_TAGS
    ensures forall kw :: kw in TagKeywords(settingsKeywords) && Tagged(job, kw) ==> kw in Tags(job, settingsKeywords, hostOf)
    ensures forall h :: h in HostTag(job, hostOf) ==> h in Tags(job, settingsKeywords, hostOf)
  {
    FilterMembers(TagKeywords(settingsKeywords), TaggedBy(job));
  }
}
