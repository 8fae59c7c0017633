/** User settings: the defaults, how a stored record is read back with a
    default for every missing or unusable field, and how the settings form
    is filled from the settings and parsed back into them.

    Storage and JSON are not modelled: what storage holds is an optional
    text, and `JSON.parse` is an oracle. It gives `None` exactly when the
    read falls into the `catch`: the text does not parse, or it is `null`
    (reading a field of `null` throws). Any other value gives the fields it
    has: an array, a number or a string has none, so all five are `None`,
    and a flag that is not a boolean shows up as `None` as well. */
module UserSettings {
  import opened Basics
  import opened Text
  import opened Seqs
  import opened Feeds

  const DEFAULT_FEEDS: seq<string> := [
    "https://api.cryptojobslist.com/rss/Developer.xml",
    "https://api.cryptojobslist.com/rss/Solidity.xml",
    "https://api.cryptojobslist.com/rss/Rust.xml",
    "https://api.cryptojobslist.com/rss/Full%20Stack.xml"]

  const DEFAULT_KEYWORDS: seq<string> := ["remote", "solidity", "full stack", "full-stack", "contractor", "senior"]

  /** The default CORS proxy, written as scheme and host. */
  const DEFAULT_PROXY_PREFIX := "https://" + "cloudflare-cors-anywhere.corstsx.workers.dev"

  datatype Settings = Settings(
    feeds: seq<string>, keywords: seq<string>,
    useProxy: bool, proxyPrefix: string, allowLocalCache: bool)

  const DEFAULT_SETTINGS := Settings(DEFAULT_FEEDS, DEFAULT_KEYWORDS, true, DEFAULT_PROXY_PREFIX, true)

  /** The fields of a parsed settings object. */
  datatype Stored = Stored(
    feeds: Option<seq<string>>, keywords: Option<seq<string>>,
    useProxy: Option<bool>, proxyPrefix: Option<string>, allowLocalCache: Option<bool>)

  /** The object literal of `loadSettings`: a non-empty feed list, any
      keyword list, boolean flags and a non-empty prefix are kept, and each
      other field takes its default. */
  function FromStored(p: Stored): (r: Settings)
    ensures r.feeds != [] && r.proxyPrefix != ""
    ensures r.feeds == (if p.feeds.Some? && p.feeds.value != [] then p.feeds.value else DEFAULT_FEEDS)
    ensures r.keywords == (if p.keywords.Some? then p.keywords.value else [])
    ensures r.useProxy == (if p.useProxy.Some? then p.useProxy.value else true)
    ensures r.proxyPrefix == (if p.proxyPrefix.Some? && p.proxyPrefix.value != "" then p.proxyPrefix.value else DEFAULT_PROXY_PREFIX)
    ensures r.allowLocalCache == (if p.allowLocalCache.Some? then p.allowLocalCache.value else true)
  {
    Settings(
      if p.feeds.Some? && |p.feeds.value| > 0 then p.feeds.value else DEFAULT_FEEDS,
      if p.keywords.Some? then p.keywords.value else [],
      if p.useProxy.Some? then p.useProxy.value else DEFAULT_SETTINGS.useProxy,
      Or(if p.proxyPrefix.Some? then p.proxyPrefix.value else "", DEFAULT_PROXY_PREFIX),
      if p.allowLocalCache.Some? then p.allowLocalCache.value else DEFAULT_SETTINGS.allowLocalCache)
  }

  /** `loadSettings`: the defaults when nothing (or an empty text) is stored
      or the text does not parse; otherwise the stored fields with their
      defaults. The loaded settings always name a feed and a proxy. */
  function LoadSettings(raw: Option<string>, parseJson: string -> Option<Stored>): (r: Settings)
    ensures r.feeds != [] && r.proxyPrefix != ""
    ensures raw.None? || raw.value == "" || parseJson(raw.value).None? ==> r == DEFAULT_SETTINGS
  {
    match raw
    case None => DEFAULT_SETTINGS
    case Some(text) =>
      if text == "" then DEFAULT_SETTINGS
      else match parseJson(text)
        case None => DEFAULT_SETTINGS
        case Some(p) => FromStored(p)
  }

  /** What `saveSettings` writes: every field present. */
  function ToStored(s: Settings): Stored {
    Stored(Some(s.feeds), Some(s.keywords), Some(s.useProxy), Some(s.proxyPrefix), Some(s.allowLocalCache))
  }

  /** Every field present and usable is kept: settings that name a feed and
      a proxy survive being stored. */
  lemma StoredRoundTrip(s: Settings)
    requires s.feeds != [] && s.proxyPrefix != ""
    ensures FromStored(ToStored(s)) == s
  {
  }

  /** A record with none of the fields (a parsed array, number or string)
      gives the defaults, except that the keywords are empty rather than the
      default keywords. */
  lemma NoFieldsStored(raw: string, parseJson: string -> Option<Stored>)
    requires raw != "" && parseJson(raw) == Some(Stored(None, None, None, None, None))
    ensures LoadSettings(Some(raw), parseJson) == DEFAULT_SETTINGS.(keywords := [])
    ensures LoadSettings(Some(raw), parseJson) != DEFAULT_SETTINGS
  {
    assert DEFAULT_KEYWORDS[0] == "remote";
  }

  /** Saved settings that name a feed and a proxy read back unchanged. */
  lemma LoadSaved(s: Settings, raw: string, parseJson: string -> Option<Stored>)
    requires raw != "" && parseJson(raw) == Some(ToStored(s))
    requires s.feeds != [] && s.proxyPrefix != ""
    ensures LoadSettings(Some(raw), parseJson) == s
  {
    StoredRoundTrip(s);
  }

  // ---- the settings form ----

  /** The form's field values: the two text areas, the proxy input, and each
      checkbox's submitted value (`"on"` when checked, absent otherwise). */
  datatype Form = Form(
    feeds: string, keywords: string, proxyPrefix: string,
    useProxy: Option<string>, allowLocalCache: Option<string>)

  /** `text.split(sep).map(t => t.trim()).filter(Boolean)`. */
  function Entries(text: string, sep: char): (r: seq<string>)
    ensures forall i :: 0 <= i < |r| ==> r[i] != "" && IsTrimmed(r[i]) && sep !in r[i]
    ensures forall x :: x in r <==> x != "" && x in TrimAll(Split(text, sep))
    ensures IsSubsequence(r, TrimAll(Split(text, sep)))
  {
    var pieces := Split(text, sep);
    SplitPiecesLackSeparator(text, sep);
    CleanPieces(pieces, sep);
    Filter(TrimAll(pieces), IsNonEmpty)
  }

  /** The non-blank trimmed pieces of a split: clean, and exactly the
      non-empty trimmed pieces, in order. */
  lemma CleanPieces(pieces: seq<string>, sep: char)
    requires forall i :: 0 <= i < |pieces| ==> sep !in pieces[i]
    ensures var r := Filter(TrimAll(pieces), IsNonEmpty);
      && (forall i :: 0 <= i < |r| ==> r[i] != "" && IsTrimmed(r[i]) && sep !in r[i])
      && (forall x :: x in r <==> x != "" && x in TrimAll(pieces))
      && IsSubsequence(r, TrimAll(pieces))
  {
    forall i | 0 <= i < |pieces| ensures sep !in Trim(pieces[i]) {
      TrimKeepsChars(pieces[i]);
    }
    FilterMembers(TrimAll(pieces), IsNonEmpty);
    FilterIsSubsequence(TrimAll(pieces), IsNonEmpty);
    var r := Filter(TrimAll(pieces), IsNonEmpty);
    assert forall i :: 0 <= i < |r| ==> r[i] in r;
  }

  /** Lines (or comma pieces) typed with stray blanks: the entries are the
      pieces' trimmed texts, in order, with the blank pieces dropped. A
      trailing separator or a blank line loses nothing else. */
  lemma EntriesOfLines(xs: seq<string>, sep: char)
    requires xs != []
    requires forall i :: 0 <= i < |xs| ==> sep !in xs[i]
    ensures forall x :: x in Entries(Join(xs, [sep]), sep) <==>
      x != "" && exists i :: 0 <= i < |xs| && Trim(xs[i]) == x
    ensures IsSubsequence(Entries(Join(xs, [sep]), sep), TrimAll(xs))
  {
    SplitJoin(xs, sep);
    forall x ensures x in TrimAll(xs) <==> exists i :: 0 <= i < |xs| && Trim(xs[i]) == x {
      if x in TrimAll(xs) {
        var i :| 0 <= i < |TrimAll(xs)| && TrimAll(xs)[i] == x;
        assert Trim(xs[i]) == x;
      }
    }
  }

  lemma {:induction false} SplitPiecesLackSeparator(s: string, sep: char)
    ensures forall i :: 0 <= i < |Split(s, sep)| ==> sep !in Split(s, sep)[i]
    decreases |s|
  {
    if s != [] {
      SplitPiecesLackSeparator(s[1..], sep);
    }
  }

  /** Settings as the form can express them: at least one feed, feeds and
      keywords non-empty, trimmed and free of their separators, and a
      non-empty trimmed proxy prefix. */
  predicate Expressible(s: Settings) {
    && s.feeds != []
    && (forall i :: 0 <= i < |s.feeds| ==> s.feeds[i] != "" && IsTrimmed(s.feeds[i]) && '\n' !in s.feeds[i])
    && (forall i :: 0 <= i < |s.keywords| ==> s.keywords[i] != "" && IsTrimmed(s.keywords[i]) && ',' !in s.keywords[i])
    && s.proxyPrefix != "" && IsTrimmed(s.proxyPrefix)
  }

  /** The submit handler's parsing: one feed per line and comma-separated
      keywords, each trimmed with blanks dropped; no feed left means the
      default feeds, a blank prefix the default proxy; a checkbox is on when
      it submitted `"on"`. Whatever it yields from the form's own feeds the
      form can express again. */
  function ParseSettingsForm(form: Form): (r: Settings)
    ensures Entries(form.feeds, '\n') != [] ==> Expressible(r)
    ensures r.feeds != [] && r.proxyPrefix != "" && IsTrimmed(r.proxyPrefix)
    ensures Entries(form.feeds, '\n') != [] ==> r.feeds == Entries(form.feeds, '\n')
    ensures Entries(form.feeds, '\n') == [] ==> r.feeds == DEFAULT_FEEDS
    ensures r.keywords == Entries(form.keywords, ',')
    ensures Trim(form.proxyPrefix) != "" ==> r.proxyPrefix == Trim(form.proxyPrefix)
    ensures Trim(form.proxyPrefix) == "" ==> r.proxyPrefix == DEFAULT_PROXY_PREFIX
    ensures r.useProxy <==> form.useProxy == Some("on")
    ensures r.allowLocalCache <==> form.allowLocalCache == Some("on")
  {
    var feeds := Entries(form.feeds, '\n');
    var proxyPrefix := Trim(form.proxyPrefix);
    assert IsTrimmed(DEFAULT_PROXY_PREFIX);
    Settings(
      if |feeds| > 0 then feeds else DEFAULT_FEEDS,
      Entries(form.keywords, ','),
      form.useProxy == Some("on"),
      Or(proxyPrefix, DEFAULT_PROXY_PREFIX),
      form.allowLocalCache == Some("on"))
  }

  /** `hydrateSettingsForm`: feeds one per line, keywords joined by a comma
      and a space, the prefix as is, the flags as checkbox states. */
  function HydrateSettingsForm(s: Settings): Form {
    Form(Join(s.feeds, "\n"), Join(s.keywords, ", "), s.proxyPrefix,
      if s.useProxy then Some("on") else None,
      if s.allowLocalCache then Some("on") else None)
  }

  /** Filling the form from settings it can express and submitting it
      unchanged gives those settings back. */
  lemma FormRoundTrip(s: Settings)
    requires Expressible(s)
    ensures ParseSettingsForm(HydrateSettingsForm(s)) == s
  {
    var form := HydrateSettingsForm(s);
    FeedsRoundTrip(s.feeds);
    KeywordsRoundTrip(s.keywords);
    assert [] + s.proxyPrefix + [] == s.proxyPrefix;
    TrimPadded([], s.proxyPrefix, []);
    var r := ParseSettingsForm(form);
    assert r.feeds == s.feeds;
    assert r.keywords == s.keywords;
    assert r.proxyPrefix == s.proxyPrefix;
  }

  lemma FeedsRoundTrip(feeds: seq<string>)
    requires feeds != []
    requires forall i :: 0 <= i < |feeds| ==> feeds[i] != "" && IsTrimmed(feeds[i]) && '\n' !in feeds[i]
    ensures Entries(Join(feeds, "\n"), '\n') == feeds
  {
    SplitJoin(feeds, '\n');
    TrimAllTrimmed(feeds);
    FilterAll(feeds, IsNonEmpty);
  }

  /** Submitting a form, filling it again from the result and submitting
      that changes nothing further. */
  lemma SubmitIdempotent(form: Form)
    requires Entries(form.feeds, '\n') != []
    ensures ParseSettingsForm(HydrateSettingsForm(ParseSettingsForm(form))) == ParseSettingsForm(form)
  {
    FormRoundTrip(ParseSettingsForm(form));
  }

  lemma {:induction false} SplitJoin(xs: seq<string>, sep: char)
    requires xs != []
    requires forall i :: 0 <= i < |xs| ==> sep !in xs[i]
    ensures Split(Join(xs, [sep]), sep) == xs
    decreases |xs|
  {
    if |xs| == 1 {
      SplitNoSeparator(xs[0], sep);
    } else {
      SplitJoin(xs[1..], sep);
      SplitAtSeparator(xs[0], sep, Join(xs[1..], [sep]));
      assert [xs[0]] + xs[1..] == xs;
    }
  }

  lemma {:induction false} TrimAllTrimmed(xs: seq<string>)
    requires forall i :: 0 <= i < |xs| ==> IsTrimmed(xs[i])
    ensures TrimAll(xs) == xs
  {
    forall i | 0 <= i < |xs| ensures Trim(xs[i]) == xs[i] {
      assert [] + xs[i] + [] == xs[i];
      TrimPadded([], xs[i], []);
    }
  }

  /** The keywords after `.join(", ")`: each but the first carries the space
      that followed the comma. */
  function Spaced(xs: seq<string>): (r: seq<string>)
    requires xs != []
    ensures |r| == |xs| && r[0] == xs[0]
    ensures forall i :: 1 <= i < |xs| ==> r[i] == " " + xs[i]
  {
    [xs[0]] + seq(|xs| - 1, i requires 0 <= i < |xs| - 1 => " " + xs[i + 1])
  }

  lemma {:induction false} JoinSpaced(xs: seq<string>)
    requires xs != []
    ensures Join(xs, ", ") == Join(Spaced(xs), ",")
    decreases |xs|
  {
    if |xs| > 1 {
      var rest := xs[1..];
      JoinSpaced(rest);
      var sp := Spaced(xs);
      assert sp[1..] == [" " + rest[0]] + Spaced(rest)[1..];
      JoinSpacedTail(rest);
    }
  }

  /** Joining the spaced keywords after the first one is the comma-and-space
      join with its leading space. */
  lemma {:induction false} JoinSpacedTail(xs: seq<string>)
    requires xs != []
    ensures Join([" " + xs[0]] + Spaced(xs)[1..], ",") == " " + Join(Spaced(xs), ",")
    decreases |xs|
  {
    var t := [" " + xs[0]] + Spaced(xs)[1..];
    var sp := Spaced(xs);
    if |xs| == 1 {
      assert t == [" " + xs[0]];
    } else {
      assert t[1..] == sp[1..];
      assert sp == [xs[0]] + sp[1..];
      assert Join(t, ",") == " " + xs[0] + "," + Join(sp[1..], ",");
      assert Join(sp, ",") == xs[0] + "," + Join(sp[1..], ",");
    }
  }

  /** The pieces of the comma-and-space join are the keywords, each but the
      first behind one space. */
  lemma SpacedPieces(keywords: seq<string>)
    requires keywords != []
    requires forall i :: 0 <= i < |keywords| ==> IsTrimmed(keywords[i]) && ',' !in keywords[i]
    ensures forall i :: 0 <= i < |Spaced(keywords)| ==> ',' !in Spaced(keywords)[i]
    ensures TrimAll(Spaced(keywords)) == keywords
  {
    var sp := Spaced(keywords);
    forall i | 0 <= i < |sp| ensures ',' !in sp[i] && Trim(sp[i]) == keywords[i] {
      if i == 0 {
        assert [] + keywords[0] + [] == keywords[0];
        TrimPadded([], keywords[0], []);
      } else {
        assert sp[i] == " " + keywords[i];
        assert " " + keywords[i] + [] == sp[i];
        TrimPadded(" ", keywords[i], []);
      }
    }
  }

  /** An empty text area holds no entries. */
  lemma NoEntries(sep: char)
    ensures Entries("", sep) == []
  {
    assert Split("", sep) == [""];
    assert TrimAll([""]) == [""];
    assert Filter([""], IsNonEmpty) == [];
  }

  /** Entering the keywords joined by a comma and a space gives them back. */
  lemma KeywordsRoundTrip(keywords: seq<string>)
    requires forall i :: 0 <= i < |keywords| ==>
      keywords[i] != "" && IsTrimmed(keywords[i]) && ',' !in keywords[i]
    ensures Entries(Join(keywords, ", "), ',') == keywords
  {
    if keywords == [] {
      NoEntries(',');
    } else {
      var sp := Spaced(keywords);
      var text := Join(keywords, ", ");
      JoinSpaced(keywords);
      assert text == Join(sp, ",");
      SpacedPieces(keywords);
      SplitJoin(sp, ',');
      assert Split(text, ',') == sp;
      FilterAll(keywords, IsNonEmpty);
      assert Entries(text, ',') == Filter(TrimAll(sp), IsNonEmpty);
    }
  }
}
