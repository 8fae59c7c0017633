/** Feed normalisation: RSS items or Atom entries, as the XML parser exposes
    them, become uniform raw entries through per-field fallback chains.

    XML parsing and `querySelector` are not modelled: a parsed document is a
    `FeedDoc` listing, for every `rss channel item` and `feed entry`, the
    text content of the first element of each name it is probed for
    (`None` when that element is absent). Date parsing is an oracle
    returning an integer timestamp, and "now" is a parameter. */
module Feeds {
  import opened Basics
  import opened Text

  datatype RssItem = RssItem(
    title: Option<string>, link: Option<string>, guid: Option<string>,
    pubDate: Option<string>, dcDate: Option<string>,
    description: Option<string>, contentEncoded: Option<string>)

  /** An Atom `link` element: its `href` attribute (absent: `None`) and its
      text content. */
  datatype AtomLink = AtomLink(href: Option<string>, text: string)

  datatype AtomEntry = AtomEntry(
    title: Option<string>, link: Option<AtomLink>, id: Option<string>,
    published: Option<string>, updated: Option<string>,
    summary: Option<string>, content: Option<string>)

  /** What the XML parser yields: a document with a `parsererror` node, or
      the RSS items and Atom entries it contains. */
  datatype FeedDoc = Unparsable | Parsed(rssItems: seq<RssItem>, atomEntries: seq<AtomEntry>)

  datatype RawEntry = RawEntry(title: string, link: string, guid: string, published: int, summary: string)

  /** `textContent(node)`: the trimmed text, or "" for a missing element. */
  function TextOf(node: Option<string>): (r: string)
    ensures IsTrimmed(r)
    ensures node.None? ==> r == ""
    ensures node.Some? ==> r == Trim(node.value)
  {
    match node
    case None => ""
    case Some(t) => Trim(t)
  }

  /** An element's text is read back without the white space around it. */
  lemma TextOfPadded(p: string, x: string, q: string)
    requires AllSpace(p) && AllSpace(q) && IsTrimmed(x)
    ensures TextOf(Some(p + x + q)) == x
  {
    TrimPadded(p, x, q);
  }

  /** `a || b` on strings: the first one unless it is empty. */
  function Or(a: string, b: string): (r: string)
    ensures a != "" ==> r == a
    ensures a == "" ==> r == b
  {
    if a != "" then a else b
  }

  /** `isoDate(value)`: the parsed timestamp, or `now` for an empty or
      unparsable value. */
  function IsoDate(value: string, parseDate: string -> Option<int>, now: int): (r: int)
    ensures value != "" && parseDate(value).Some? ==> r == parseDate(value).value
    ensures value == "" || parseDate(value).None? ==> r == now
    ensures r == now || parseDate(value) == Some(r)
  {
    if value == "" then now
    else match parseDate(value)
      case None => now
      case Some(t) => t
  }

  function FromRss(item: RssItem, parseDate: string -> Option<int>, now: int): RawEntry {
    RawEntry(
      TextOf(item.title),
      TextOf(item.link),
      Or(TextOf(item.guid), TextOf(item.link)),
      IsoDate(Or(TextOf(item.pubDate), TextOf(item.dcDate)), parseDate, now),
      Or(TextOf(item.description), TextOf(item.contentEncoded)))
  }

  function Href(link: Option<AtomLink>): string {
    match link
    case Some(AtomLink(Some(h), _)) => h
    case _ => ""
  }

  function LinkText(link: Option<AtomLink>): string {
    match link
    case Some(l) => Trim(l.text)
    case None => ""
  }

  function FromAtom(entry: AtomEntry, parseDate: string -> Option<int>, now: int): RawEntry {
    RawEntry(
      TextOf(entry.title),
      Or(Href(entry.link), TextOf(entry.id)),
      Or(TextOf(entry.id), LinkText(entry.link)),
      IsoDate(Or(TextOf(entry.published), TextOf(entry.updated)), parseDate, now),
      Or(TextOf(entry.summary), TextOf(entry.content)))
  }

  /** `normalizeFeed`: RSS wins over Atom, and neither shape (or a parse
      error) yields no entries. */
  function NormalizeFeed(doc: FeedDoc, parseDate: string -> Option<int>, now: int): (r: seq<RawEntry>)
    ensures doc.Unparsable? ==> r == []
    ensures doc.Parsed? && |doc.rssItems| > 0 ==>
      |r| == |doc.rssItems| && forall i :: 0 <= i < |r| ==> r[i] == FromRss(doc.rssItems[i], parseDate, now)
    ensures doc.Parsed? && |doc.rssItems| == 0 ==>
      |r| == |doc.atomEntries| && forall i :: 0 <= i < |r| ==> r[i] == FromAtom(doc.atomEntries[i], parseDate, now)
  {
    match doc
    case Unparsable => []
    case Parsed(rss, atom) =>
      if |rss| > 0 then seq(|rss|, i requires 0 <= i < |rss| => FromRss(rss[i], parseDate, now))
      else seq(|atom|, i requires 0 <= i < |atom| => FromAtom(atom[i], parseDate, now))
  }

  /** Every text field of an RSS entry is trimmed, and its guid is empty only
      when both the guid and the link elements are empty: the dedupe key of
      an RSS entry never falls through to a link while its guid is usable.
      A `pubDate` that parses gives the date; an empty one defers to
      `dc:date`. */
  lemma RssEntryFields(item: RssItem, parseDate: string -> Option<int>, now: int)
    ensures var e := FromRss(item, parseDate, now);
      && IsTrimmed(e.title) && IsTrimmed(e.link) && IsTrimmed(e.guid) && IsTrimmed(e.summary)
      && e.title == TextOf(item.title) && e.link == TextOf(item.link)
      && (TextOf(item.guid) != "" ==> e.guid == TextOf(item.guid))
      && (TextOf(item.guid) == "" ==> e.guid == TextOf(item.link))
      && (e.guid == "" <==> TextOf(item.guid) == "" && TextOf(item.link) == "")
      && (TextOf(item.description) == "" ==> e.summary == TextOf(item.contentEncoded))
      && (TextOf(item.description) != "" ==> e.summary == TextOf(item.description))
      && (TextOf(item.pubDate) != "" && parseDate(TextOf(item.pubDate)).Some? ==>
            e.published == parseDate(TextOf(item.pubDate)).value)
      && (TextOf(item.pubDate) == "" ==> e.published == IsoDate(TextOf(item.dcDate), parseDate, now))
      && (TextOf(item.pubDate) == "" && TextOf(item.dcDate) != "" && parseDate(TextOf(item.dcDate)).Some? ==>
            e.published == parseDate(TextOf(item.dcDate)).value)
  {
  }

  /** The date fallback is decided on the text, before parsing: a non-empty
      `pubDate` that does not parse gives the fetch time, and `dc:date` is not
      consulted. */
  lemma UnparsablePubDateIgnoresDcDate(item: RssItem, parseDate: string -> Option<int>, now: int)
    requires TextOf(item.pubDate) != "" && parseDate(TextOf(item.pubDate)).None?
    ensures FromRss(item, parseDate, now).published == now
  {
  }

  /** Atom's link is the `href` of the first `link` element (untrimmed), and
      the entry id only when that is missing or empty (RFC 4287, sections 4.2.6 and 4.2.7).
      The guid is the id, else the link's text; the date is `published`,
      else `updated`; the summary is `summary`, else `content`. */
  lemma AtomLinkFallback(entry: AtomEntry, parseDate: string -> Option<int>, now: int)
    ensures var e := FromAtom(entry, parseDate, now);
      && e.title == TextOf(entry.title)
      && (Href(entry.link) != "" ==> e.link == Href(entry.link))
      && (Href(entry.link) == "" ==> e.link == TextOf(entry.id))
      && (TextOf(entry.id) != "" ==> e.guid == TextOf(entry.id))
      && (TextOf(entry.id) == "" ==> e.guid == LinkText(entry.link))
      && (TextOf(entry.published) != "" ==> e.published == IsoDate(TextOf(entry.published), parseDate, now))
      && (TextOf(entry.published) == "" ==> e.published == IsoDate(TextOf(entry.updated), parseDate, now))
      && (TextOf(entry.summary) != "" ==> e.summary == TextOf(entry.summary))
      && (TextOf(entry.summary) == "" ==> e.summary == TextOf(entry.content))
  {
  }
}
