/** Content extraction from a job description's HTML: the overview
    paragraph, the bullet lists under "responsibilities"/"requirements"
    headings, and the apply link.

    HTML parsing is not modelled. A parsed fragment is an `HtmlDoc`: the
    text of every `p` element in document order; every `h2, h3, h4, strong,
    p` element in document order with the element siblings that follow it;
    and every anchor with its text and resolved `href`. */
module Extractor {
  import opened Basics
  import opened Text
  import opened Seqs

  /** A paragraph longer than this many characters is preferred as overview. */
  const LONG_PARAGRAPH: nat := 120
  const RESPONSIBILITY_KEYWORDS: seq<string> := ["responsibilities", "what you'll do", "what you will do"]
  const REQUIREMENT_KEYWORDS: seq<string> := ["requirements", "qualifications", "what we're looking for"]
  const APPLY_WORD := "apply"
  const JOB_PAGE_PATTERN := "cryptojobslist.com/jobs"

  /** An element sibling: its upper-case tag name and the text content of
      each `li` inside it, in document order. */
  datatype Sibling = Sibling(tagName: string, listItems: seq<string>)

  /** A heading-like element: its text content and its following element
      siblings, nearest first. */
  datatype Candidate = Candidate(text: string, following: seq<Sibling>)

  datatype Anchor = Anchor(text: string, href: string)

  datatype HtmlDoc = HtmlDoc(paragraphs: seq<string>, candidates: seq<Candidate>, anchors: seq<Anchor>)

  datatype Extracted = Extracted(
    overview: Option<string>,
    responsibilities: seq<string>,
    requirements: seq<string>,
    applyUrl: Option<string>)

  // ---- overview ----

  predicate IsLong(text: string) {
    |text| > LONG_PARAGRAPH
  }

  /** `findOverview`: among the non-empty trimmed paragraph texts, the first
      long one, else the first one, else nothing. */
  function FindOverview(paragraphs: seq<string>): (r: Option<string>)
    ensures r.Some? ==> r.value != "" && IsTrimmed(r.value) && r.value in TrimAll(paragraphs)
    ensures (exists i :: 0 <= i < |paragraphs| && IsLong(Trim(paragraphs[i]))) ==> r.Some? && IsLong(r.value)
  {
    var texts := Filter(TrimAll(paragraphs), IsNonEmpty);
    OverviewTexts(paragraphs);
    match FindValue(texts, IsLong)
    case Some(longForm) => Some(longForm)
    case None => if |texts| > 0 then Some(texts[0]) else None
  }

  /** The texts `findOverview` chooses from: trimmed paragraphs that are not
      empty, among them every long trimmed paragraph. */
  lemma OverviewTexts(paragraphs: seq<string>)
    ensures var texts := Filter(TrimAll(paragraphs), IsNonEmpty);
      && (forall t :: t in texts ==> t != "" && IsTrimmed(t) && t in TrimAll(paragraphs))
      && (|texts| > 0 ==> texts[0] in texts)
      && ((exists i :: 0 <= i < |paragraphs| && IsLong(Trim(paragraphs[i]))) ==>
            exists j :: 0 <= j < |texts| && IsLong(texts[j]))
  {
    var all := TrimAll(paragraphs);
    var texts := Filter(all, IsNonEmpty);
    FilterMembers(all, IsNonEmpty);
    if i :| 0 <= i < |paragraphs| && IsLong(Trim(paragraphs[i])) {
      assert all[i] in all && all[i] in texts;
      var j :| 0 <= j < |texts| && texts[j] == all[i];
    }
  }

  /** The overview stated on the paragraphs themselves: the first paragraph
      whose trimmed text is long if there is one, else the first whose
      trimmed text is not empty, else nothing. */
  lemma OverviewChoice(paragraphs: seq<string>)
    ensures FindOverview(paragraphs) ==
      match FindValue(TrimAll(paragraphs), IsLong)
      case Some(t) => Some(t)
      case None => FindValue(TrimAll(paragraphs), IsNonEmpty)
    ensures FindOverview(paragraphs).None? <==>
      forall i :: 0 <= i < |paragraphs| ==> Trim(paragraphs[i]) == ""
  {
    var all := TrimAll(paragraphs);
    FindInFilter(all, IsNonEmpty, IsLong);
    FilterHead(all, IsNonEmpty);
    if FindValue(all, IsNonEmpty).None? {
      assert forall i :: 0 <= i < |paragraphs| ==> all[i] == "";
    }
  }

  // ---- lists under a keyword ----

  /** `nodes.find(...)` for one keyword: the first candidate whose lower-cased
      text contains the lower-cased keyword. */
  function FirstMatch(nodes: seq<Candidate>, keyword: string): Option<nat> {
    Find(nodes, (node: Candidate) => Contains(Lower(node.text), Lower(keyword)))
  }

  predicate IsListElement(sibling: Sibling) {
    sibling.tagName == "UL" || sibling.tagName == "OL"
  }

  /** `items.map(t => t.trim()).filter(Boolean)`. */
  function CleanItems(items: seq<string>): (r: seq<string>)
    ensures forall s :: s in r ==> s != "" && IsTrimmed(s)
    ensures forall s :: s in r <==> s != "" && s in TrimAll(items)
    ensures IsSubsequence(r, TrimAll(items))
  {
    FilterMembers(TrimAll(items), IsNonEmpty);
    FilterIsSubsequence(TrimAll(items), IsNonEmpty);
    Filter(TrimAll(items), IsNonEmpty)
  }

  /** `dedupeStrings`: `Array.from(new Set(items))`; each string is added to
      the set when first seen, and the set lists them in insertion order. */
  function DedupeStrings(items: seq<string>): (r: seq<string>)
    ensures forall s :: s in r <==> s in items
    ensures NoDuplicates(r)
  {
    if items == [] then []
    else
      var seen := DedupeStrings(items[..|items| - 1]);
      var s := items[|items| - 1];
      if s in seen then seen else seen + [s]
  }

  function Identity(s: string): string { s }

  predicate Always(s: string) { true }

  /** `dedupeStrings` keeps the first occurrence of each string and nothing
      else, in input order. */
  lemma {:induction false} DedupeStringsFirstSeen(items: seq<string>)
    ensures DedupeStrings(items) == Firsts(items, Identity, Always)
    decreases |items|
  {
    if items != [] {
      var n := |items| - 1;
      DedupeStringsFirstSeen(items[..n]);
      var s := items[n];
      var seen := DedupeStrings(items[..n]);
      assert DedupeStrings(items) == if s in seen then seen else seen + [s];
      assert Firsts(items, Identity, Always)
          == seen + (if IsFirst(items, Identity, Always, n) then [s] else []);
      assert s in seen <==> s in items[..n];
      if s in items[..n] {
        var k :| 0 <= k < n && items[..n][k] == s;
        assert !IsFirst(items, Identity, Always, n) by { assert items[k] == s; }
      } else {
        assert IsFirst(items, Identity, Always, n) by {
          forall k | 0 <= k < n ensures items[k] != s { assert items[k] == items[..n][k]; }
        }
      }
    }
  }

  /** What one keyword yields: the cleaned, de-duplicated items of the first
      UL/OL sibling after the first candidate matching it; `[]` when there is
      no match, no list sibling, or no non-empty item. */
  function ListUnder(nodes: seq<Candidate>, keyword: string): seq<string> {
    match FirstMatch(nodes, keyword)
    case None => []
    case Some(m) =>
      var siblings := nodes[m].following;
      match Find(siblings, IsListElement)
      case None => []
      case Some(j) =>
        var items := CleanItems(siblings[j].listItems);
        if |items| > 0 then DedupeStrings(items) else []
  }

  /** The list `findListAfterKeywords` returns: keywords are tried in order
      and one that yields nothing falls through to the next. */
  function ListAfterKeywords(nodes: seq<Candidate>, keywords: seq<string>): seq<string>
    decreases |keywords|
  {
    if keywords == [] then []
    else
      var found := ListUnder(nodes, keywords[0]);
      if found != [] then found else ListAfterKeywords(nodes, keywords[1..])
  }

  /** The walk along following siblings of `findListAfterKeywords`: the
      index of the first UL/OL sibling, or `|siblings|` when there is none. */
  method NextListSibling(siblings: seq<Sibling>) returns (next: nat)
    ensures next <= |siblings|
    ensures match Find(siblings, IsListElement)
      case Some(j) => next == j
      case None => next == |siblings|
  {
    next := 0;
    while next < |siblings| && !IsListElement(siblings[next])
      invariant next <= |siblings|
      invariant forall j :: 0 <= j < next ==> !IsListElement(siblings[j])
    {
      next := next + 1;
    }
  }

  /** One round of the keyword loop of `findListAfterKeywords`: the first
      matching candidate, the walk to its first list sibling, and that list's
      cleaned items. */
  method ListForKeyword(nodes: seq<Candidate>, keyword: string) returns (list: seq<string>)
    ensures list == ListUnder(nodes, keyword)
  {
    list := [];
    var found := FirstMatch(nodes, keyword);
    if found.Some? {
      var siblings := nodes[found.value].following;
      var next := NextListSibling(siblings);
      if next < |siblings| {
        var items := CleanItems(siblings[next].listItems);
        if |items| > 0 {
          list := DedupeStrings(items);
        }
      }
    }
  }

  /** `findListAfterKeywords`: the outer loop over keywords, `find` over the
      candidates, and the walk along following siblings up to a list. */
  method FindListAfterKeywords(nodes: seq<Candidate>, keywords: seq<string>) returns (r: seq<string>)
    ensures r == ListAfterKeywords(nodes, keywords)
  {
    var k := 0;
    while k < |keywords|
      invariant 0 <= k <= |keywords|
      invariant ListAfterKeywords(nodes, keywords) == ListAfterKeywords(nodes, keywords[k..])
    {
      var list := ListForKeyword(nodes, keywords[k]);
      KeywordStep(nodes, keywords, k);
      if list != [] {
        return list;
      }
      k := k + 1;
    }
    r := [];
  }

  /** The keyword at `k` decides when it yields a list, and passes on to the
      rest otherwise. */
  lemma KeywordStep(nodes: seq<Candidate>, keywords: seq<string>, k: nat)
    requires k < |keywords|
    ensures ListAfterKeywords(nodes, keywords[k..]) ==
      if ListUnder(nodes, keywords[k]) != [] then ListUnder(nodes, keywords[k])
      else ListAfterKeywords(nodes, keywords[k + 1..])
  {
    assert keywords[k..][0] == keywords[k];
    assert keywords[k..][1..] == keywords[k + 1..];
  }

  /** The first keyword whose list is not empty decides: the result is that
      keyword's list, and `[]` exactly when no keyword yields one. */
  lemma {:induction false} KeywordPrecedence(nodes: seq<Candidate>, keywords: seq<string>)
    ensures ListAfterKeywords(nodes, keywords) ==
      match Find(keywords, (kw: string) => ListUnder(nodes, kw) != [])
      case Some(k) => ListUnder(nodes, keywords[k])
      case None => []
    decreases |keywords|
  {
    if keywords != [] {
      KeywordPrecedence(nodes, keywords[1..]);
    }
  }

  /** A keyword's list holds only non-empty trimmed strings, each once, each
      the trimmed text of an item of the list element it came from. */
  lemma ListUnderIsClean(nodes: seq<Candidate>, keyword: string)
    ensures var r := ListUnder(nodes, keyword);
      && NoDuplicates(r)
      && (forall s :: s in r ==> s != "" && IsTrimmed(s))
    ensures ListUnder(nodes, keyword) != [] ==>
      && FirstMatch(nodes, keyword).Some?
      && var siblings := nodes[FirstMatch(nodes, keyword).value].following;
         && Find(siblings, IsListElement).Some?
         && forall s :: s in ListUnder(nodes, keyword) ==>
              s in TrimAll(siblings[Find(siblings, IsListElement).value].listItems)
    ensures FirstMatch(nodes, keyword).Some? ==>
      var siblings := nodes[FirstMatch(nodes, keyword).value].following;
      Find(siblings, IsListElement).Some? ==>
        var items := siblings[Find(siblings, IsListElement).value].listItems;
        && (forall s :: s in ListUnder(nodes, keyword) <==> s != "" && s in TrimAll(items))
        && ((exists k :: 0 <= k < |items| && Trim(items[k]) != "") ==> ListUnder(nodes, keyword) != [])
  {
    match FirstMatch(nodes, keyword)
    case None =>
    case Some(m) =>
      var siblings := nodes[m].following;
      match Find(siblings, IsListElement)
      case None =>
      case Some(j) =>
        var items := siblings[j].listItems;
        if k :| 0 <= k < |items| && Trim(items[k]) != "" {
          assert TrimAll(items)[k] == Trim(items[k]);
          assert Trim(items[k]) in CleanItems(items);
        }
  }

  /** The extracted list, whichever keyword produced it, is clean too. */
  lemma {:induction false} ListAfterKeywordsIsClean(nodes: seq<Candidate>, keywords: seq<string>)
    ensures NoDuplicates(ListAfterKeywords(nodes, keywords))
    ensures forall s :: s in ListAfterKeywords(nodes, keywords) ==> s != "" && IsTrimmed(s)
    decreases |keywords|
  {
    if keywords != [] {
      ListUnderIsClean(nodes, keywords[0]);
      ListAfterKeywordsIsClean(nodes, keywords[1..]);
    }
  }

  // ---- apply link ----

  /** `/apply/i` on the text or `/cryptojobslist\.com\/jobs/` on the href. */
  predicate IsApplyAnchor(a: Anchor) {
    Contains(Lower(a.text), APPLY_WORD) || Contains(a.href, JOB_PAGE_PATTERN)
  }

  /** Anchor `i` is the one `find` picks: the first that qualifies. */
  predicate IsFirstApplyAnchor(anchors: seq<Anchor>, i: int) {
    && 0 <= i < |anchors| && IsApplyAnchor(anchors[i])
    && forall j :: 0 <= j < i ==> !IsApplyAnchor(anchors[j])
  }

  /** `applyAnchor?.href || null`: only the first qualifying anchor is
      considered, and an empty `href` on it gives nothing. */
  function ApplyUrl(anchors: seq<Anchor>): (r: Option<string>)
    ensures r.Some? ==> exists i :: IsFirstApplyAnchor(anchors, i) && anchors[i].href == r.value
    ensures r.Some? ==> r.value != ""
    ensures forall i :: IsFirstApplyAnchor(anchors, i) && anchors[i].href != "" ==> r == Some(anchors[i].href)
    ensures (forall i :: 0 <= i < |anchors| ==> !IsApplyAnchor(anchors[i])) ==> r.None?
  {
    match Find(anchors, IsApplyAnchor)
    case None => None
    case Some(i) => if anchors[i].href != "" then Some(anchors[i].href) else None
  }

  // ---- the whole extraction ----

  /** `html.replace(/\\n/g, "\n")`: each backslash followed by `n` becomes a
      newline. */
  function UnescapeNewlines(s: string): (r: string)
    ensures |r| <= |s|
  {
    if |s| >= 2 && s[0] == '\\' && s[1] == 'n' then "\n" + UnescapeNewlines(s[2..])
    else if s == [] then []
    else [s[0]] + UnescapeNewlines(s[1..])
  }

  /** No backslash-n pair survives the replacement. */
  lemma {:induction false} UnescapedHasNoEscape(s: string)
    ensures var r := UnescapeNewlines(s);
      forall i :: 0 <= i < |r| - 1 ==> !(r[i] == '\\' && r[i + 1] == 'n')
    ensures UnescapeNewlines(s) != [] && s != [] ==> (UnescapeNewlines(s)[0] == '\\' <==> s[0] == '\\' && (|s| < 2 || s[1] != 'n'))
    decreases |s|
  {
    if |s| >= 2 && s[0] == '\\' && s[1] == 'n' {
      UnescapedHasNoEscape(s[2..]);
    } else if s != [] {
      UnescapedHasNoEscape(s[1..]);
    }
  }

  /** `parseJobHtml`: an empty description extracts nothing; otherwise the
      fragment, with its escaped newlines restored, is parsed once, and the
      overview, the two keyword lists and the apply link all come from it. */
  function ParseJobHtml(html: string, parseHtml: string -> HtmlDoc): (r: Extracted)
    ensures html == "" ==> r == Extracted(None, [], [], None)
    ensures NoDuplicates(r.responsibilities) && NoDuplicates(r.requirements)
    ensures forall s :: s in r.responsibilities || s in r.requirements ==> s != "" && IsTrimmed(s)
    ensures html != "" ==>
      var doc := parseHtml(UnescapeNewlines(html));
      && r.overview == FindOverview(doc.paragraphs)
      && r.responsibilities == ListAfterKeywords(doc.candidates, RESPONSIBILITY_KEYWORDS)
      && r.requirements == ListAfterKeywords(doc.candidates, REQUIREMENT_KEYWORDS)
      && r.applyUrl == ApplyUrl(doc.anchors)
  {
    if html == "" then Extracted(None, [], [], None)
    else
      var doc := parseHtml(UnescapeNewlines(html));
      ListAfterKeywordsIsClean(doc.candidates, RESPONSIBILITY_KEYWORDS);
      ListAfterKeywordsIsClean(doc.candidates, REQUIREMENT_KEYWORDS);
      Extracted(
        FindOverview(doc.paragraphs),
        ListAfterKeywords(doc.candidates, RESPONSIBILITY_KEYWORDS),
        ListAfterKeywords(doc.candidates, REQUIREMENT_KEYWORDS),
        ApplyUrl(doc.anchors))
  }
}
