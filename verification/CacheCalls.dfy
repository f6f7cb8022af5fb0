/**
  The cache object and the state machine of its callers: a call of `FetchResponse` that
  nothing interrupts is a few steps of the machine in a row.
 */
module CacheCalls {
  import opened CacheRuns
  import opened Config
  import opened Http
  import opened ProxyCache
  import opened Redirects
  import opened Sizes
  import opened Wrappers

  /** The checks before a fetch, and the limit, as the configuration sets them. */
  ghost function PolicyOf(cfg: ProxyCacheConfig, parse: string -> Option<Url>): Policy {
    Policy((url: string) => Precheck(cfg, parse(url)).None?, MaxResponseBytes(cfg.maxSize))
  }

  /** The object's entries are the machine's: the same times, bodies and shared headers. */
  ghost predicate Represents(cache: Cache, s: State)
    reads cache, cache.Responses()
  {
    && cache.entries.Keys == s.entries.Keys && |s.headers| == |s.fetches|
    && forall u :: u in s.entries ==> SameEntry(cache.entries[u], s.entries[u], s.headers)
  }

  ghost predicate SameEntry(entry: CacheEntry, e: Entry, headers: seq<Header>)
    reads entry.resp
  {
    && entry.fetchedAt == e.fetchedAt && entry.ttl == TTL
    && SameResponse(entry.resp, e.resp, headers)
  }

  ghost predicate SameResponse(resp: Response, cached: Cached, headers: seq<Header>)
    reads resp
  {
    cached.fetch < |headers| && resp.body == cached.body && resp.header == headers[cached.fetch]
  }

  ghost function RunFrom(p: Policy, s: State, steps: seq<Step>): Option<State>
    decreases steps
  {
    if steps == [] then Some(s)
    else if !Enabled(s, steps[0]) then None
    else RunFrom(p, Apply(p, s, steps[0]), steps[1..])
  }

  lemma OneStep(p: Policy, s: State, step: Step)
    requires Enabled(s, step)
    ensures RunFrom(p, s, [step]) == Some(Apply(p, s, step))
  {
    assert [step][1..] == [];
  }

  lemma StepThen(p: Policy, s: State, step: Step, rest: seq<Step>)
    requires Enabled(s, step)
    ensures RunFrom(p, s, [step] + rest) == RunFrom(p, Apply(p, s, step), rest)
  {
    assert ([step] + rest)[1..] == rest;
  }

  /** What the machine does for one call, given what the upstream brings. */
  ghost function StepsOf(p: Policy, s: State, c: Caller, url: string, got: Option<Upstream>): seq<Step> {
    if !p.permitted(url) || Hit(s, url) then [Check(c, url)]
    else if got.None? || got.value.readFails then [Check(c, url)] + [FetchFails(c)]
    else if |ReadLimited(got.value.body, p.limit)| > p.limit then
      [Check(c, url)] + [FetchArrives(c, got.value.body, got.value.header)]
    else [Check(c, url)] + ([FetchArrives(c, got.value.body, got.value.header)] + [Store(c)])
  }

  /** How the machine is left: one more return, and on a fetch that is kept one more entry and header. */
  ghost predicate LeftBy(p: Policy, s: State, t: State, c: Caller, url: string, got: Option<Upstream>) {
    if !p.permitted(url) then t == Return(s, c, url, Failed)
    else if Hit(s, url) then t == Return(s, c, url, FromCache(s.entries[url], s.now))
    else if got.None? || got.value.readFails || |ReadLimited(got.value.body, p.limit)| > p.limit then
      && t.entries == s.entries && t.headers == s.headers && t.fetches == s.fetches
      && t.returned == s.returned + [Returned(c, url, Failed)]
    else
      var resp := Cached(|s.fetches|, ReadLimited(got.value.body, p.limit));
      && t.entries == s.entries[url := Entry(resp, s.now)]
      && t.headers == s.headers + [Deleted(got.value.header, HOP_BY_HOP)] && |t.fetches| == |s.fetches| + 1
      && t.returned == s.returned + [Returned(c, url, FromUpstream(resp))]
  }

  lemma RunOfCall(p: Policy, s: State, c: Caller, url: string, got: Option<Upstream>)
    requires PlaceOf(s, c).Outside?
    ensures var t := RunFrom(p, s, StepsOf(p, s, c, url, got));
      t.Some? && LeftBy(p, s, t.value, c, url, got)
  {
    var check := Check(c, url);
    var checked := Apply(p, s, check);
    if !p.permitted(url) || Hit(s, url) {
      OneStep(p, s, check);
    } else if got.None? || got.value.readFails {
      StepThen(p, s, check, [FetchFails(c)]);
      OneStep(p, checked, FetchFails(c));
    } else {
      var arrives := FetchArrives(c, got.value.body, got.value.header);
      UninterruptedFetch(p, s, c, url, got.value.body, got.value.header);
      if |ReadLimited(got.value.body, p.limit)| > p.limit {
        StepThen(p, s, check, [arrives]);
        OneStep(p, checked, arrives);
      } else {
        StepThen(p, s, check, [arrives] + [Store(c)]);
        StepThen(p, checked, arrives, [Store(c)]);
        OneStep(p, Apply(p, checked, arrives), Store(c));
      }
    }
  }

  predicate HasFresh(entries: map<string, CacheEntry>, url: string, now: int) {
    url in entries && Fresh(entries[url].fetchedAt, entries[url].ttl, now)
  }

  /** The call at one instant, and what came back over the network if anything did. */
  method CallNow(cache: Cache, rawURL: string, parsed: Option<Url>, upstream: seq<Url> -> Reply<Upstream>, now: int)
    returns (r: Result<Response, FetchError>, ghost got: Option<Upstream>)
    requires cache.Valid()
    modifies cache`entries
    ensures cache.Valid()
    ensures Precheck(cache.cfg, parsed).Some? ==> r.Err? && cache.entries == old(cache.entries)
    ensures Precheck(cache.cfg, parsed).None? && old(HasFresh(cache.entries, rawURL, now)) ==>
      r == Ok(old(cache.entries[rawURL].resp)) && cache.entries == old(cache.entries)
    ensures Precheck(cache.cfg, parsed).None? && !old(HasFresh(cache.entries, rawURL, now)) ==>
      var captured := Captured(cache.cfg, got);
      && (captured.Err? ==> r.Err? && cache.entries == old(cache.entries))
      && (captured.Ok? ==>
            && r.Ok? && fresh(r.value) && cache.entries == old(cache.entries)[rawURL := CacheEntry(r.value, now, TTL)]
            && r.value.body == captured.value.body && r.value.header == captured.value.header)
  {
    ghost var via;
    r, via := cache.FetchResponse(rawURL, parsed, upstream, now, now);
    got := if via == [] then None else Final(cache.cfg, upstream(via));
  }

  /** The caller got what the machine's last return hands out, or nothing if it hands out nothing. */
  ghost predicate SameAnswer(r: Result<Response, FetchError>, s: State, t: State)
    reads if r.Ok? then {r.value} else {}
  {
    && |t.returned| == |s.returned| + 1
    && var handed := HandedOut(t.returned[|s.returned|].outcome);
    if r.Ok? then handed.Some? && SameResponse(r.value, handed.value, t.headers) else handed.None?
  }

  /** Whatever state is left as the machine would leave it, the object represents it. */
  method FetchAndMatch(cache: Cache, parse: string -> Option<Url>, rawURL: string, upstream: seq<Url> -> Reply<Upstream>,
                       now: int, ghost s: State, ghost c: Caller)
    returns (r: Result<Response, FetchError>, ghost got: Option<Upstream>)
    requires cache.Valid() && Represents(cache, s) && s.now == now
    modifies cache`entries
    ensures cache.Valid()
    ensures forall t :: LeftBy(PolicyOf(cache.cfg, parse), s, t, c, rawURL, got) ==>
      Represents(cache, t) && SameAnswer(r, s, t)
  {
    ghost var p := PolicyOf(cache.cfg, parse);
    r, got := CallNow(cache, rawURL, parse(rawURL), upstream, now);
    CapturedIs(cache.cfg, got);
    forall t | LeftBy(p, s, t, c, rawURL, got)
      ensures Represents(cache, t) && SameAnswer(r, s, t)
    {
      LastReturn(p, s, t, c, rawURL, got);
      if !p.permitted(rawURL) || Hit(s, rawURL) || r.Err? {
        SameEntries(p, s, t, c, rawURL, got);
      } else {
        NewEntry(cache.entries, s, t, rawURL);
      }
    }
  }

  /**
    A call of `FetchResponse` and the machine's steps for it end alike: the object still
    represents the machine, and the caller gets the response the machine hands out.
   */
  method FetchAsInARun(cache: Cache, parse: string -> Option<Url>, rawURL: string, upstream: seq<Url> -> Reply<Upstream>,
                       now: int, ghost s: State, ghost c: Caller)
    returns (r: Result<Response, FetchError>, ghost got: Option<Upstream>, ghost t: State)
    requires cache.Valid() && Represents(cache, s) && s.now == now && PlaceOf(s, c).Outside?
    modifies cache`entries
    ensures cache.Valid() && Represents(cache, t) && SameAnswer(r, s, t)
    ensures RunFrom(PolicyOf(cache.cfg, parse), s, StepsOf(PolicyOf(cache.cfg, parse), s, c, rawURL, got)) == Some(t)
  {
    ghost var p := PolicyOf(cache.cfg, parse);
    r, got := FetchAndMatch(cache, parse, rawURL, upstream, now, s, c);
    RunOfCall(p, s, c, rawURL, got);
    t := RunFrom(p, s, StepsOf(p, s, c, rawURL, got)).value;
    assert LeftBy(p, s, t, c, rawURL, got);
  }

  lemma CapturedIs(cfg: ProxyCacheConfig, got: Option<Upstream>)
    ensures var captured, limit := Captured(cfg, got), MaxResponseBytes(cfg.maxSize);
      && (captured.Ok? <==> got.Some? && !got.value.readFails && |ReadLimited(got.value.body, limit)| <= limit)
      && (captured.Ok? ==> captured.value.body == ReadLimited(got.value.body, limit)
                           && captured.value.header == Deleted(got.value.header, HOP_BY_HOP))
  {
  }

  lemma LastReturn(p: Policy, s: State, t: State, c: Caller, url: string, got: Option<Upstream>)
    requires LeftBy(p, s, t, c, url, got)
    ensures |t.returned| == |s.returned| + 1
    ensures t.returned[|s.returned|].outcome ==
            if !p.permitted(url) then Failed
            else if Hit(s, url) then FromCache(s.entries[url], s.now)
            else if got.None? || got.value.readFails || |ReadLimited(got.value.body, p.limit)| > p.limit then Failed
            else FromUpstream(Cached(|s.fetches|, ReadLimited(got.value.body, p.limit)))
  {
  }

  lemma SameEntries(p: Policy, s: State, t: State, c: Caller, url: string, got: Option<Upstream>)
    requires LeftBy(p, s, t, c, url, got)
    requires !p.permitted(url) || Hit(s, url) || got.None? || got.value.readFails
             || |ReadLimited(got.value.body, p.limit)| > p.limit
    ensures t.entries == s.entries && t.headers == s.headers && t.fetches == s.fetches
  {
  }

  /** The entry just stored, and those that were there, under the machine's longer list of headers. */
  lemma NewEntry(entries: map<string, CacheEntry>, s: State, t: State, url: string)
    requires url in entries && entries.Keys == s.entries.Keys + {url} && |s.headers| == |s.fetches|
    requires forall u :: u in s.entries && u != url ==> SameEntry(entries[u], s.entries[u], s.headers)
    requires url in t.entries && SameEntry(entries[url], t.entries[url], t.headers)
    requires t.entries == s.entries[url := t.entries[url]] && s.headers <= t.headers && |t.headers| == |t.fetches|
    ensures entries.Keys == t.entries.Keys
    ensures forall u :: u in t.entries ==> SameEntry(entries[u], t.entries[u], t.headers)
  {
    forall u | u in t.entries
      ensures SameEntry(entries[u], t.entries[u], t.headers)
    {
      if u != url {
        assert SameEntry(entries[u], s.entries[u], s.headers);
      }
    }
  }
}
