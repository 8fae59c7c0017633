/** Transport: how a feed request is addressed (directly or through a CORS
    proxy), how it is retried, and which provenance label the text that
    comes back carries, including the fallback to a same-origin snapshot
    addressed by the hex SHA-1 of the feed URL.

    The network is an oracle: `respond(target)(n)` is what attempt number
    `n` against the request URL `target` ends in. Timers, the abort
    controller and the sleeping between attempts are not modelled; the
    backoff each failed attempt waits for is recorded instead. */
module Transport {
  import opened Basics
  import opened Text

  /** Extra attempts after the first one. */
  const RETRIES: nat := 2
  /** Per-attempt timeout in milliseconds (documented; timers are not modelled). */
  const TIMEOUT_MS: nat := 15000
  const BACKOFF_STEP_MS: nat := 600
  const NO_ERROR_MESSAGE := "Unable to fetch feeds."

  /** The end of one `fetch` attempt: a response with its status and body
      text, or a thrown error (network failure, abort on timeout, a body
      that could not be read) with its message. */
  datatype Attempt = Responded(status: nat, body: string) | Threw(message: string)

  /** `Response.ok`. */
  predicate IsOk(status: nat) {
    200 <= status <= 299
  }

  predicate Succeeds(a: Attempt) {
    a.Responded? && IsOk(a.status)
  }

  /** The message of the error a failed attempt leaves in `lastErr`. */
  function AttemptError(a: Attempt, url: string): string
    requires !Succeeds(a)
  {
    match a
    case Responded(status, _) => "HTTP " + NatToString(status) + " for " + url
    case Threw(message) => message
  }

  /** The delay after failed attempt number `attempt`: linear backoff. */
  function Backoff(attempt: nat): nat {
    BACKOFF_STEP_MS * (attempt + 1)
  }

  /** The request URL: the feed URL itself, or the proxy root (the trimmed
      prefix with exactly one `/` at its end) followed by `?` and the feed URL. */
  function BuildFeedUrl(url: string, useProxy: bool, proxyPrefix: string): (r: string)
    ensures !useProxy || Trim(proxyPrefix) == "" ==> r == url
    ensures useProxy && Trim(proxyPrefix) != "" ==>
      var p := Trim(proxyPrefix);
      && p <= r
      && EndsWith(r, "/?" + url)
      && |r| == |p| + |url| + (if EndsWith(p, "/") then 1 else 2)
  {
    if !useProxy then url
    else
      var prefix := Trim(proxyPrefix);
      if prefix == "" then url
      else if EndsWith(prefix, "/") then prefix + "?" + url
      else prefix + "/?" + url
  }

  /** The first attempt from `from` on, among the `RETRIES + 1` allowed,
      that succeeds. */
  function FirstSuccess(respond: nat -> Attempt, from: nat): (r: Option<nat>)
    ensures r.Some? ==>
      && from <= r.value <= RETRIES
      && Succeeds(respond(r.value))
      && forall j :: from <= j < r.value ==> !Succeeds(respond(j))
    ensures r.None? ==> forall j :: from <= j <= RETRIES ==> !Succeeds(respond(j))
    decreases RETRIES + 1 - from
  {
    if from > RETRIES then None
    else if Succeeds(respond(from)) then Some(from)
    else FirstSuccess(respond, from + 1)
  }

  /** `lastErr?.message || "Unable to fetch feeds."`. */
  function FinalMessage(last: string): (m: string)
    ensures m != ""
  {
    if last != "" then last else NO_ERROR_MESSAGE
  }

  /** What `fetchWithRetry(url)` resolves to or rejects with. */
  function Fetched(url: string, respond: nat -> Attempt): Result<string, string> {
    match FirstSuccess(respond, 0)
    case Some(i) => Success(respond(i).body)
    case None => Failure(FinalMessage(AttemptError(respond(RETRIES), url)))
  }

  /** `fetchWithRetry`: at most `RETRIES + 1` attempts; the body of the first
      that succeeds, otherwise the last attempt's error message. `waits`
      lists the backoff slept after each failed attempt, the last one
      included. */
  method FetchWithRetry(url: string, respond: nat -> Attempt)
    returns (r: Result<string, string>, tries: nat, waits: seq<nat>)
    ensures r == Fetched(url, respond)
    ensures 1 <= tries <= RETRIES + 1
    ensures r.Success? ==> FirstSuccess(respond, 0) == Some(tries - 1)
    ensures r.Failure? ==> tries == RETRIES + 1
    ensures |waits| == (if r.Success? then tries - 1 else tries)
    ensures forall k :: 0 <= k < |waits| ==> waits[k] == Backoff(k)
  {
    var lastErr: Option<string> := None;
    waits := [];
    var attempt: nat := 0;
    while attempt <= RETRIES
      invariant attempt <= RETRIES + 1
      invariant forall j :: 0 <= j < attempt ==> !Succeeds(respond(j))
      invariant attempt == 0 ==> lastErr == None
      invariant attempt > 0 ==> lastErr == Some(AttemptError(respond(attempt - 1), url))
      invariant |waits| == attempt
      invariant forall k :: 0 <= k < attempt ==> waits[k] == Backoff(k)
    {
      var outcome := respond(attempt);
      if Succeeds(outcome) {
        assert FirstSuccess(respond, attempt) == Some(attempt);
        NoSuccessBefore(respond, 0, attempt);
        return Success(outcome.body), attempt + 1, waits;
      }
      lastErr := Some(AttemptError(outcome, url));
      waits := waits + [Backoff(attempt)];
      attempt := attempt + 1;
    }
    NoSuccessBefore(respond, 0, RETRIES + 1);
    var message := if lastErr.Some? then lastErr.value else "";
    r := Failure(FinalMessage(message));
    tries := attempt;
  }

  /** Skipping attempts that fail does not change the first success. */
  lemma {:induction false} NoSuccessBefore(respond: nat -> Attempt, from: nat, upTo: nat)
    requires from <= upTo <= RETRIES + 1
    requires forall j :: from <= j < upTo ==> !Succeeds(respond(j))
    ensures FirstSuccess(respond, from) == FirstSuccess(respond, upTo)
    decreases upTo - from
  {
    if from < upTo {
      NoSuccessBefore(respond, from + 1, upTo);
    }
  }

  /** Two failures followed by a success still deliver the body. */
  lemma RecoversOnLastAttempt(url: string, respond: nat -> Attempt)
    requires !Succeeds(respond(0)) && !Succeeds(respond(1)) && Succeeds(respond(2))
    ensures Fetched(url, respond) == Success(respond(2).body)
  {
    assert FirstSuccess(respond, 0) == FirstSuccess(respond, 1) == FirstSuccess(respond, 2);
  }

  /** When every attempt fails the error carries the last attempt's message
      (a non-ok status becomes `HTTP <status> for <url>`), never an empty one. */
  lemma FailsWithLastMessage(url: string, respond: nat -> Attempt)
    requires forall j :: 0 <= j <= RETRIES ==> !Succeeds(respond(j))
    ensures Fetched(url, respond).Failure?
    ensures var a := respond(RETRIES);
      Fetched(url, respond).error
        == (if a.Responded? then "HTTP " + NatToString(a.status) + " for " + url
            else if a.message != "" then a.message else NO_ERROR_MESSAGE)
  {
    NoSuccessBefore(respond, 0, RETRIES + 1);
  }

  // ---- local snapshot addressed by the SHA-1 of the feed URL ----

  newtype byte = x: int | 0 <= x < 256

  /** The lower-case hex digit `d.toString(16)` writes for `d < 16`. */
  function HexDigit(d: nat): (c: char)
    requires d < 16
    ensures HexValue(c) == Some(d)
  {
    if d < 10 then ('0' as int + d) as char else ('a' as int + d - 10) as char
  }

  /** `bytes.map(b => b.toString(16).padStart(2, "0")).join("")`. */
  function HexEncode(bytes: seq<byte>): (r: string)
    ensures |r| == 2 * |bytes|
  {
    if bytes == [] then ""
    else
      var b := bytes[0] as int;
      [HexDigit(b / 16), HexDigit(b % 16)] + HexEncode(bytes[1..])
  }

  function HexValue(c: char): Option<nat> {
    if '0' <= c <= '9' then Some(c as int - '0' as int)
    else if 'a' <= c <= 'f' then Some(c as int - 'a' as int + 10)
    else None
  }

  /** Reads back lower-case hex, two digits per byte. */
  function HexDecode(s: string): Option<seq<byte>>
    decreases |s|
  {
    if s == [] then Some([])
    else if |s| == 1 then None
    else
      match (HexValue(s[0]), HexValue(s[1]), HexDecode(s[2..]))
      case (Some(hi), Some(lo), Some(rest)) => Some([(hi * 16 + lo) as byte] + rest)
      case _ => None
  }

  lemma {:induction false} HexRoundTrip(bytes: seq<byte>)
    ensures HexDecode(HexEncode(bytes)) == Some(bytes)
    decreases |bytes|
  {
    if bytes != [] {
      var b := bytes[0] as int;
      var s := HexEncode(bytes);
      assert s[2..] == HexEncode(bytes[1..]);
      HexRoundTrip(bytes[1..]);
      assert [bytes[0]] + bytes[1..] == bytes;
    }
  }

  function LocalCachePath(hash: string): string {
    "cache/" + hash + ".xml"
  }

  /** `fetchLocalCache(url)`: nothing when no digest is available, when the
      snapshot request fails, or when it is not ok; otherwise its text. */
  function FetchLocalCache(url: string, digest: string -> Option<seq<byte>>, serve: string -> Attempt)
    : (r: Option<string>)
    ensures r.Some? ==>
      && digest(url).Some? && |digest(url).value| > 0
      && var a := serve(LocalCachePath(HexEncode(digest(url).value)));
         Succeeds(a) && r.value == a.body
    ensures (digest(url).Some? && |digest(url).value| > 0
             && Succeeds(serve(LocalCachePath(HexEncode(digest(url).value))))) ==>
      r == Some(serve(LocalCachePath(HexEncode(digest(url).value))).body)
  {
    match digest(url)
    case None => None
    case Some(d) =>
      var hash := HexEncode(d);
      if hash == "" then None
      else
        var a := serve(LocalCachePath(hash));
        if Succeeds(a) then Some(a.body) else None
  }

  // ---- one feed's fetch with provenance ----

  /** The collaborators a fetch talks to: the network, the SHA-1 digest
      (absent when `crypto.subtle` is missing) and the same-origin snapshot
      server. */
  datatype Net = Net(
    respond: string -> nat -> Attempt,
    digest: string -> Option<seq<byte>>,
    serve: string -> Attempt)

  datatype Options = Options(useProxy: bool, proxyPrefix: string, allowLocalCache: bool)

  /** Provenance labels. `Error` marks a failed feed, `Cache` an aggregate
      over no feeds. */
  datatype Source = Network | Proxy | LocalCache | Error | Cache {
    function Name(): string {
      match this
      case Network => "network"
      case Proxy => "proxy"
      case LocalCache => "local-cache"
      case Error => "error"
      case Cache => "cache"
    }
  }

  datatype Fetch = Fetch(xml: string, source: Source)

  function RequestOutcome(url: string, options: Options, net: Net): Result<string, string> {
    var target := BuildFeedUrl(url, options.useProxy, options.proxyPrefix);
    Fetched(target, net.respond(target))
  }

  /** `fetchFeedXml`: the network text labelled `proxy` exactly when the
      proxy option is on (whether or not a prefix was usable) and `network`
      otherwise; after a network failure, a non-empty snapshot labelled
      `local-cache` when the option allows it; otherwise the network error. */
  function FetchFeedXml(url: string, options: Options, net: Net): (r: Result<Fetch, string>)
    ensures var direct := RequestOutcome(url, options, net);
      && (direct.Success? ==> r == Success(Fetch(direct.value, if options.useProxy then Proxy else Network)))
      && (r.Success? && r.value.source == LocalCache <==>
            && direct.Failure? && options.allowLocalCache
            && FetchLocalCache(url, net.digest, net.serve).Some?
            && FetchLocalCache(url, net.digest, net.serve).value != "")
      && (r.Success? && r.value.source == LocalCache ==>
            r.value.xml == FetchLocalCache(url, net.digest, net.serve).value)
      && (r.Failure? ==> r == Failure(direct.error))
      && (r.Success? <==>
            || direct.Success?
            || (&& direct.Failure? && options.allowLocalCache
                && FetchLocalCache(url, net.digest, net.serve).Some?
                && FetchLocalCache(url, net.digest, net.serve).value != ""))
  {
    match RequestOutcome(url, options, net)
    case Success(xml) => Success(Fetch(xml, if options.useProxy then Proxy else Network))
    case Failure(err) =>
      if options.allowLocalCache then
        match FetchLocalCache(url, net.digest, net.serve)
        case Some(fallback) =>
          if fallback != "" then Success(Fetch(fallback, LocalCache)) else Failure(err)
        case None => Failure(err)
      else Failure(err)
  }

  /** With the proxy option on but a blank prefix the request goes straight
      to the feed, yet a success is labelled `proxy`. */
  lemma ProxyLabelWithoutPrefix(url: string, proxyPrefix: string, allowLocalCache: bool, net: Net)
    requires Trim(proxyPrefix) == ""
    requires Fetched(url, net.respond(url)).Success?
    ensures FetchFeedXml(url, Options(true, proxyPrefix, allowLocalCache), net)
         == Success(Fetch(Fetched(url, net.respond(url)).value, Proxy))
  {
  }

  /** A snapshot is used only after every network attempt failed, and it is
      looked up by the feed URL, not by the proxied request URL. */
  lemma LocalCacheOnlyAfterFailure(url: string, options: Options, net: Net)
    requires FetchFeedXml(url, options, net).Success?
    requires FetchFeedXml(url, options, net).value.source == LocalCache
    ensures var target := BuildFeedUrl(url, options.useProxy, options.proxyPrefix);
      forall j :: 0 <= j <= RETRIES ==> !Succeeds(net.respond(target)(j))
    ensures options.allowLocalCache
  {
  }
}
