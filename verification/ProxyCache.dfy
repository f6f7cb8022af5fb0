/** The caching proxy: one caller's fetch and serving. */
module ProxyCache {
  import opened Config
  import opened Http
  import opened Io
  import opened Redirects
  import opened Sizes
  import opened Strconv
  import opened Wrappers

  /** `parseTTL` does not read the configuration: a day, in nanoseconds. */
  const TTL: int := 24 * 3600 * 1000000000

  /** A response as it arrives, before it is read and captured. */
  datatype Upstream = Upstream(statusCode: int, status: string, header: Header, body: string, readFails: bool)

  datatype FetchError = BadUrl | NotPermitted | BlockedAddress | RequestFailed | BodyUnreadable | TooLarge

  datatype CacheEntry = CacheEntry(resp: Response, fetchedAt: int, ttl: int)

  predicate Fresh(fetchedAt: int, ttl: int, now: int) {
    !(now - fetchedAt > ttl)
  }

  /** The checks before any network activity. */
  function Precheck(cfg: ProxyCacheConfig, parsed: Option<Url>): Option<FetchError> {
    match parsed
    case None => Some(BadUrl)
    case Some(u) =>
      if (u.scheme != "http" && u.scheme != "https") || u.hasUser || u.host == "" then Some(BadUrl)
      else if !IsAllowed(cfg, u.host) then Some(NotPermitted)
      else if !cfg.allowPrivateIPs && u.blockedLiteral then Some(BlockedAddress)
      else None
  }

  /** What a fetch that follows the redirect chain `via` ends in. */
  function Captured(cfg: ProxyCacheConfig, got: Option<Upstream>): Result<Upstream, FetchError> {
    if got.None? then Err(RequestFailed)
    else if got.value.readFails then Err(BodyUnreadable)
    else
      var body := ReadLimited(got.value.body, MaxResponseBytes(cfg.maxSize));
      if |body| > MaxResponseBytes(cfg.maxSize) then Err(TooLarge)
      else Ok(got.value.(body := body, header := Deleted(got.value.header, HOP_BY_HOP)))
  }

  /** Reading the reply's body under the limit, and keeping what belongs to the resource. */
  method Capture(cfg: ProxyCacheConfig, got: Option<Upstream>) returns (r: Result<Response, FetchError>)
    ensures match Captured(cfg, got)
      case Err(e) => r == Err(e)
      case Ok(c) =>
        && r.Ok? && fresh(r.value) && r.value.statusCode == c.statusCode && r.value.status == c.status
        && r.value.body == c.body && r.value.header == c.header
  {
    if got.None? {
      return Err(RequestFailed);
    }
    if got.value.readFails {
      return Err(BodyUnreadable);
    }
    var limit := MaxResponseBytes(cfg.maxSize);
    var body := ReadLimited(got.value.body, limit);
    if |body| > limit {
      return Err(TooLarge);
    }
    var resp := new Response(got.value.statusCode, got.value.status, body, got.value.header);
    resp.DeleteHopByHop();
    return Ok(resp);
  }

  /** The time to live, spelled out. */
  lemma ADay()
    ensures TTL == 24 * 60 * 60 * 1_000_000_000
  {
  }

  /** What the checks let pass, spelled out. */
  lemma PrecheckByValue(cfg: ProxyCacheConfig, parsed: Option<Url>)
    ensures Precheck(cfg, parsed).None? <==>
      && parsed.Some? && (parsed.value.scheme == "http" || parsed.value.scheme == "https")
      && !parsed.value.hasUser && parsed.value.host != "" && IsAllowed(cfg, parsed.value.host)
      && (cfg.allowPrivateIPs || !parsed.value.blockedLiteral)
  {
  }

  /** What is captured is the reply itself: its code and status, its whole body, and its fields off the list. */
  lemma CapturedIsTheReply(cfg: ProxyCacheConfig, reply: Reply<Upstream>)
    requires MaxResponseBytes(cfg.maxSize) < TWO_63 - 1
    ensures var captured := Captured(cfg, Final(cfg, reply));
      && (captured.Ok? <==> reply.Reply? && (reply.location.Some? ==> cfg.allowRedirects == Some(false))
                            && !reply.resp.readFails && |reply.resp.body| <= MaxResponseBytes(cfg.maxSize))
      && (captured.Ok? ==> captured.value.body == reply.resp.body)
  {
    if reply.Reply? {
      AcceptedBodyIsWhole(reply.resp.body, MaxResponseBytes(cfg.maxSize));
    }
  }

  lemma CapturedKeeps(cfg: ProxyCacheConfig, reply: Reply<Upstream>)
    requires Captured(cfg, Final(cfg, reply)).Ok?
    ensures reply.Reply? && !reply.resp.readFails
    ensures var c, u := Captured(cfg, Final(cfg, reply)).value, reply.resp;
      && c.statusCode == u.statusCode && c.status == u.status
      && (forall name :: name in c.header <==> name in u.header && name !in HOP_BY_HOP)
      && (forall name :: name in c.header ==> c.header[name] == u.header[name])
  {
  }

  class Cache {
    const cfg: ProxyCacheConfig
    var entries: map<string, CacheEntry>

    /** No two entries share a response. */
    ghost predicate Valid()
      reads this
    {
      forall u, v :: u in entries && v in entries && u != v ==> entries[u].resp != entries[v].resp
    }

    ghost function Responses(): set<object>
      reads this
    {
      set u | u in entries :: entries[u].resp
    }

    constructor (cfg: ProxyCacheConfig)
      ensures this.cfg == cfg && entries == map[] && Valid()
    {
      this.cfg, entries := cfg, map[];
    }

    /**
      `FetchResponse`: checked at `checkedAt`, stored at `storedAt`. A fresh entry is
      returned as it is; otherwise a captured fetch is returned and stored, and a failed
      one leaves the cache alone.
     */
    method FetchResponse(rawURL: string, parsed: Option<Url>, upstream: seq<Url> -> Reply<Upstream>,
                         checkedAt: int, storedAt: int)
      returns (r: Result<Response, FetchError>, ghost via: seq<Url>)
      requires Valid()
      modifies this`entries
      ensures Valid() && old(entries.Keys) <= entries.Keys
      ensures forall u :: u in entries && u != rawURL ==> u in old(entries) && entries[u] == old(entries[u])
      ensures Precheck(cfg, parsed).Some? ==> r == Err(Precheck(cfg, parsed).value) && via == [] && entries == old(entries)
      ensures forall i :: 0 <= i < |via| ==> Permitted(cfg, via[i])
      ensures via != [] ==> parsed.Some? && via == Chain(cfg, upstream, [parsed.value])
      ensures Precheck(cfg, parsed).None? ==>
        var cached := rawURL in old(entries) && Fresh(old(entries[rawURL].fetchedAt), old(entries[rawURL].ttl), checkedAt);
        && (cached ==> r == Ok(old(entries[rawURL].resp)) && via == [] && entries == old(entries))
        && (!cached ==> |via| > 0 && via[0] == parsed.value)
      ensures via != [] && r.Ok? ==> IsTheReply(cfg, upstream(via), r.value)
      ensures r.Err? ==> entries == old(entries)
      ensures via != [] ==>
        match Captured(cfg, Final(cfg, upstream(via)))
        case Err(e) => r == Err(e)
        case Ok(c) =>
          && r.Ok? && fresh(r.value) && entries == old(entries)[rawURL := CacheEntry(r.value, storedAt, TTL)]
          && r.value.statusCode == c.statusCode && r.value.status == c.status
          && r.value.body == c.body && r.value.header == c.header
    {
      via := [];
      var refusal := Precheck(cfg, parsed);
      if refusal.Some? {
        return Err(refusal.value), [];
      }
      if rawURL in entries {
        var entry := entries[rawURL];
        if Fresh(entry.fetchedAt, entry.ttl, checkedAt) {
          return Ok(entry.resp), [];
        }
      }
      r, via := Fetch(rawURL, parsed.value, upstream, storedAt);
    }

    /** The part after the check: fetching, capturing and storing. */
    method Fetch(rawURL: string, first: Url, upstream: seq<Url> -> Reply<Upstream>, storedAt: int)
      returns (r: Result<Response, FetchError>, ghost via: seq<Url>)
      requires Valid() && Permitted(cfg, first)
      modifies this`entries
      ensures Valid() && via == Chain(cfg, upstream, [first]) && via != [] && via[0] == first
      ensures forall i :: 0 <= i < |via| ==> Permitted(cfg, via[i])
      ensures r.Ok? ==> IsTheReply(cfg, upstream(via), r.value)
      ensures match Captured(cfg, Final(cfg, upstream(via)))
        case Err(e) => r == Err(e) && entries == old(entries)
        case Ok(c) =>
          && r.Ok? && fresh(r.value) && entries == old(entries)[rawURL := CacheEntry(r.value, storedAt, TTL)]
          && r.value.statusCode == c.statusCode && r.value.status == c.status
          && r.value.body == c.body && r.value.header == c.header
    {
      var got;
      got, via := Get(cfg, first, upstream);
      assert got == Final(cfg, upstream(via));
      var captured := Capture(cfg, got);
      if captured.Err? {
        return Err(captured.error), via;
      }
      var resp := captured.value;
      entries := entries[rawURL := CacheEntry(resp, storedAt, TTL)];
      ReplyIsCaptured(cfg, upstream(via), resp);
      return Ok(resp), via;
    }
  }

  /** The response is the reply itself: its code and status, its body, and exactly its fields off the list. */
  ghost predicate IsTheReply(cfg: ProxyCacheConfig, reply: Reply<Upstream>, resp: Response)
    reads resp
  {
    && reply.Reply? && resp.statusCode == reply.resp.statusCode && resp.status == reply.resp.status
    && (MaxResponseBytes(cfg.maxSize) < TWO_63 - 1 ==> resp.body == reply.resp.body)
    && (forall name :: name in resp.header <==> name in reply.resp.header && name !in HOP_BY_HOP)
    && (forall name :: name in resp.header ==> resp.header[name] == reply.resp.header[name])
  }

  lemma ReplyIsCaptured(cfg: ProxyCacheConfig, reply: Reply<Upstream>, resp: Response)
    requires var captured := Captured(cfg, Final(cfg, reply));
      && captured.Ok? && resp.statusCode == captured.value.statusCode && resp.status == captured.value.status
      && resp.body == captured.value.body && resp.header == captured.value.header
    ensures IsTheReply(cfg, reply, resp)
  {
    CapturedKeeps(cfg, reply);
    if MaxResponseBytes(cfg.maxSize) < TWO_63 - 1 {
      CapturedIsTheReply(cfg, reply);
    }
  }

  /** What the client hands back for the last reply of a chain. */
  function Final(cfg: ProxyCacheConfig, reply: Reply<Upstream>): Option<Upstream> {
    if reply.Reply? && (reply.location.Some? ==> RedirectsDisabled(cfg)) then Some(reply.resp) else None
  }

  /** What one serving of a response puts on the channel; the header may be framed already. */
  ghost function ServedNow(resp: Response, statusText: int -> string, orderOf: Header -> seq<string>): string
    requires forall h :: IsOrder(orderOf(h), h)
    reads resp
  {
    var framed := Framed(resp.header, |resp.body|);
    assert IsOrder(orderOf(framed), framed);
    Served(resp.statusCode, ShownStatus(resp.status, resp.statusCode, statusText), framed, orderOf(framed), resp.body)
  }

  /** What a freshly captured reply puts on the channel. */
  ghost function ServedFirst(c: Upstream, statusText: int -> string, orderOf: Header -> seq<string>): string
    requires forall h :: IsOrder(orderOf(h), h)
  {
    var framed := Framed(c.header, |c.body|);
    assert IsOrder(orderOf(framed), framed);
    Served(c.statusCode, ShownStatus(c.status, c.statusCode, statusText), framed, orderOf(framed), c.body)
  }

  lemma FirstServing(resp: Response, c: Upstream, statusText: int -> string, orderOf: Header -> seq<string>)
    requires forall h :: IsOrder(orderOf(h), h)
    requires resp.statusCode == c.statusCode && resp.status == c.status && resp.body == c.body && resp.header == c.header
    ensures ServedNow(resp, statusText, orderOf) == ServedFirst(c, statusText, orderOf)
  {
  }

  /** One serving leaves the shared header such that the next shows the same. */
  method Serve(resp: Response, statusText: int -> string, orderOf: Header -> seq<string>, w: Sink<char>)
    returns (failed: bool)
    requires forall h :: IsOrder(orderOf(h), h)
    modifies resp, w
    ensures Framed(resp.header, |resp.body|) == old(Framed(resp.header, |resp.body|))
    ensures ServedNow(resp, statusText, orderOf) == old(ServedNow(resp, statusText, orderOf))
    ensures Took(old(w.accepted), w.accepted, old(ServedNow(resp, statusText, orderOf)), failed)
  {
    FramedTwice(resp.header, |resp.body|);
    failed := WriteResponse(resp, statusText, orderOf(Framed(resp.header, |resp.body|)), w);
  }

  /**
    `proxyCallBinary`. It writes into the header the cache holds, yet what the next serving
    shows is what this one showed, and no other entry is touched. What is served on a miss is
    the last reply of the chain of permitted requests, as captured.
   */
  method ProxyCallBinary(cache: Cache, rawURL: string, parsed: Option<Url>, upstream: seq<Url> -> Reply<Upstream>,
                         checkedAt: int, storedAt: int, statusText: int -> string,
                         orderOf: Header -> seq<string>, w: Sink<char>)
    returns (r: Result<bool, FetchError>, ghost via: seq<Url>)
    requires cache.Valid() && forall h :: IsOrder(orderOf(h), h)
    modifies cache`entries, cache.Responses(), w
    ensures cache.Valid()
    ensures forall u :: u in old(cache.entries) && u != rawURL ==>
      && u in cache.entries && cache.entries[u] == old(cache.entries[u])
      && cache.entries[u].resp.header == old(cache.entries[u].resp.header)
    ensures r.Err? ==> w.accepted == old(w.accepted) && cache.entries == old(cache.entries)
    ensures forall i :: 0 <= i < |via| ==> Permitted(cache.cfg, via[i])
    ensures via != [] ==> parsed.Some? && via == Chain(cache.cfg, upstream, [parsed.value])
    ensures via == [] && r.Ok? ==>
      && rawURL in old(cache.entries) && cache.entries == old(cache.entries)
      && Fresh(cache.entries[rawURL].fetchedAt, cache.entries[rawURL].ttl, checkedAt)
    ensures via != [] ==>
      match Captured(cache.cfg, Final(cache.cfg, upstream(via)))
      case Err(e) => r == Err(e)
      case Ok(c) => r.Ok? && Took(old(w.accepted), w.accepted, ServedFirst(c, statusText, orderOf), !r.value)
    ensures r.Ok? ==>
      && rawURL in cache.entries
      && Took(old(w.accepted), w.accepted, ServedNow(cache.entries[rawURL].resp, statusText, orderOf), !r.value)
    ensures r.Ok? && rawURL in old(cache.entries) && cache.entries[rawURL] == old(cache.entries[rawURL]) ==>
      var resp := cache.entries[rawURL].resp;
      && Framed(resp.header, |resp.body|) == old(Framed(resp.header, |resp.body|))
      && ServedNow(resp, statusText, orderOf) == old(ServedNow(resp, statusText, orderOf))
  {
    var fetched;
    fetched, via := cache.FetchResponse(rawURL, parsed, upstream, checkedAt, storedAt);
    if fetched.Err? {
      return Err(fetched.error), via;
    }
    var resp := fetched.value;
    if via != [] {
      FirstServing(resp, Captured(cache.cfg, Final(cache.cfg, upstream(via))).value, statusText, orderOf);
    }
    var failed := Serve(resp, statusText, orderOf, w);
    return Ok(!failed), via;
  }

  // ----- From the upstream to the reader

  /**
    A reader of the bytes served on a miss gets the upstream's own code and text, its body, and
    for every other field off the list exactly its values, whatever follows.
   */
  lemma ServedIsTheReply(cfg: ProxyCacheConfig, u: Upstream, c: Upstream, text: string, statusText: int -> string,
                         orderOf: Header -> seq<string>, after: string)
    requires Captured(cfg, Some(u)) == Ok(c) && u.status == Itoa(u.statusCode) + (" " + text)
    requires CleanHeader(u.header) && '\r' !in text && IsInt64(u.statusCode)
    requires forall h :: IsOrder(orderOf(h), h)
    ensures var read := ReadMessage(ServedFirst(c, statusText, orderOf) + after);
      && read.Some? && ReadStatus(read.value.0) == Some(("HTTP/1.1", u.statusCode, text)) && read.value.2 == c.body
      && ValuesOf(read.value.1, "Content-Length") == [Itoa(|c.body|)] && ValuesOf(read.value.1, "Connection") == ["close"]
      && forall name :: !IsOwnFraming(name) ==>
           ValuesOf(read.value.1, name) == if name in u.header && name !in HOP_BY_HOP then u.header[name] else []
  {
    KeptOfReply(cfg, u, c);
    ShownAsSent(c, text, statusText, orderOf);
    ServedAsSent(u, c, text, Framed(c.header, |c.body|), orderOf(Framed(c.header, |c.body|)), after);
  }

  lemma ServedAsSent(u: Upstream, c: Upstream, text: string, framed: Header, order: seq<string>, after: string)
    requires c.statusCode == u.statusCode && c.status == u.status == Itoa(u.statusCode) + (" " + text)
    requires c.header == Deleted(u.header, HOP_BY_HOP) && |c.body| < TWO_63 && CleanHeader(c.header)
    requires '\r' !in text && IsInt64(u.statusCode) && framed == Framed(c.header, |c.body|) && IsOrder(order, framed)
    ensures var read := ReadMessage(Served(c.statusCode, c.status, framed, order, c.body) + after);
      && read.Some? && ReadStatus(read.value.0) == Some(("HTTP/1.1", u.statusCode, text)) && read.value.2 == c.body
      && ValuesOf(read.value.1, "Content-Length") == [Itoa(|c.body|)] && ValuesOf(read.value.1, "Connection") == ["close"]
      && forall name :: !IsOwnFraming(name) ==>
           ValuesOf(read.value.1, name) == if name in u.header && name !in HOP_BY_HOP then u.header[name] else []
  {
    StatusTextAfterCode(u.statusCode, text);
    ReadServed(u.statusCode, u.status, text, c.header, c.body, order, after);
    OthersAsSent(u, c, framed);
  }

  lemma ShownAsSent(c: Upstream, text: string, statusText: int -> string, orderOf: Header -> seq<string>)
    requires c.status == Itoa(c.statusCode) + (" " + text) && forall h :: IsOrder(orderOf(h), h)
    ensures var framed := Framed(c.header, |c.body|);
      && IsOrder(orderOf(framed), framed)
      && ServedFirst(c, statusText, orderOf) == Served(c.statusCode, c.status, framed, orderOf(framed), c.body)
  {
    assert c.status != "";
  }

  lemma KeptOfReply(cfg: ProxyCacheConfig, u: Upstream, c: Upstream)
    requires Captured(cfg, Some(u)) == Ok(c)
    ensures c.statusCode == u.statusCode && c.status == u.status && c.header == Deleted(u.header, HOP_BY_HOP)
    ensures |c.body| < TWO_63 && (CleanHeader(u.header) ==> CleanHeader(c.header))
  {
  }

  lemma ReadServed(code: int, status: string, text: string, h: Header, body: string, order: seq<string>, after: string)
    requires StatusTextOnly(status) == text && '\r' !in text && IsInt64(code) && CleanHeader(h) && |body| < TWO_63
    requires IsOrder(order, Framed(h, |body|))
    ensures var framed := Framed(h, |body|);
      var read := ReadMessage(Served(code, status, framed, order, body) + after);
      && read.Some? && ReadStatus(read.value.0) == Some(("HTTP/1.1", code, text)) && read.value.2 == body
      && forall name :: ValuesOf(read.value.1, name) == if name in framed then framed[name] else []
  {
    StatusLineBack(code, text);
    NoReturnInStatus(code, text);
    ServedCanBeRead(code, status, h, order, body, after);
  }

  lemma NoReturnInStatus(code: int, text: string)
    requires '\r' !in text
    ensures '\r' !in StatusLine(code, text)
  {
    NoSpaceInNumber(code);
  }

  lemma OthersAsSent(u: Upstream, c: Upstream, framed: Header)
    requires c.header == Deleted(u.header, HOP_BY_HOP) && framed == Framed(c.header, |c.body|)
    ensures framed["Content-Length"] == [Itoa(|c.body|)] && framed["Connection"] == ["close"]
    ensures forall name :: !IsOwnFraming(name) ==>
      (if name in framed then framed[name] else []) == if name in u.header && name !in HOP_BY_HOP then u.header[name] else []
  {
    FramedNames(c.header, |c.body|);
  }
}
