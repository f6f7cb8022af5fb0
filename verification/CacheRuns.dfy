/**
  Many callers of the cache at once. The lock covers the check and the store but not the
  fetch between them, so the three are separate steps that interleave freely; so are the
  steps of serving a response, which sets two fields of the header the cache holds and then
  ranges over it, with no lock at all.
 */
module CacheRuns {
  import opened Http
  import opened ProxyCache
  import opened Sizes
  import opened Strconv
  import opened Wrappers

  type Caller = nat

  /** A response object: the number of the fetch that brought it, and its body. */
  datatype Cached = Cached(fetch: nat, body: string)

  datatype Entry = Entry(resp: Cached, fetchedAt: int)

  /** Where a caller is: not fetching, waiting for the upstream, or about to store. */
  datatype Place = Outside | Fetching(url: string, checkedAt: int) | Storing(url: string, checkedAt: int, resp: Cached)

  /** A fetch whose body arrived and passed the size check, with the header as captured. */
  datatype Fetch = Fetch(caller: Caller, url: string, body: string, header: Header)

  datatype Outcome =
    | FromCache(entry: Entry, at: int)
    | FromUpstream(resp: Cached)
    | Failed

  datatype Returned = Returned(caller: Caller, url: string, outcome: Outcome)

  datatype Stored = Stored(url: string, at: int)

  /**
    Where a serving is. While it ranges it has a name or more to go, has gone through `order`
    and has written `written`; `since` is how often the header had been set when it began.
   */
  datatype Phase =
    | LengthSet
    | BothSet
    | Ranging(since: nat, todo: set<string>, order: seq<string>, written: seq<Field>)
    | Ended

  /** What a serving wrote, and whether the header was set while it ranged over it. */
  datatype Shown = Shown(serving: nat, changed: bool, written: seq<Field>)

  /** `headers` holds the one header of each response, `sets` how often it has been set. */
  datatype State = State(
    now: int,
    entries: map<string, Entry>,
    places: map<Caller, Place>,
    fetches: seq<Fetch>,
    headers: seq<Header>,
    sets: seq<nat>,
    stores: seq<Stored>,
    returned: seq<Returned>,
    servings: map<nat, Phase>,
    shown: seq<Shown>)

  function Initial(now: int): State {
    State(now, map[], map[], [], [], [], [], [], map[], [])
  }

  datatype Step =
    | Tick(nanoseconds: nat)
    | Check(caller: Caller, url: string)
    | FetchArrives(caller: Caller, body: string, header: Header)
    | FetchFails(caller: Caller)
    | Store(caller: Caller)
    | SetLength(serving: nat)
    | SetClose(serving: nat)
    | BeginRange(serving: nat)
    | NextName(serving: nat, name: string, fields: seq<Field>)
    | EndRange(serving: nat)

  /** Which URLs pass the checks, and how much of a body is read. */
  datatype Policy = Policy(permitted: string -> bool, limit: nat)

  function PlaceOf(s: State, c: Caller): Place {
    if c in s.places then s.places[c] else Outside
  }

  /** The response a caller was given, if any. */
  function HandedOut(outcome: Outcome): Option<Cached> {
    match outcome
    case FromCache(entry, _) => Some(entry.resp)
    case FromUpstream(resp) => Some(resp)
    case Failed => None
  }

  /** The response that a serving hands out. */
  function ResponseOf(s: State, serving: nat): Option<Cached> {
    if serving < |s.returned| then HandedOut(s.returned[serving].outcome) else None
  }

  predicate HasHeader(s: State, k: nat) {
    && ResponseOf(s, k).Some? && ResponseOf(s, k).value.fetch < |s.headers|
    && ResponseOf(s, k).value.fetch < |s.sets|
  }

  /** The number of the response that a serving hands out. */
  function FetchOf(s: State, k: nat): nat
    requires ResponseOf(s, k).Some?
  {
    ResponseOf(s, k).value.fetch
  }

  function HeaderOf(s: State, k: nat): Header
    requires HasHeader(s, k)
  {
    s.headers[FetchOf(s, k)]
  }

  function PhaseOf(s: State, k: nat): Option<Phase> {
    if k in s.servings then Some(s.servings[k]) else None
  }

  predicate IsRanging(s: State, k: nat) {
    k in s.servings && s.servings[k].Ranging?
  }

  /** The header has been set since the serving began to range over it. */
  predicate Changed(s: State, k: nat)
    requires HasHeader(s, k) && IsRanging(s, k)
  {
    s.servings[k].since != s.sets[FetchOf(s, k)]
  }

  /**
    The order of the names is any, and what a range over a map does once another session has
    set it is anything: Go leaves that undefined.
   */
  predicate Enabled(s: State, step: Step) {
    match step
    case Tick(_) => true
    case Check(c, _) => PlaceOf(s, c).Outside?
    case FetchArrives(c, _, _) => PlaceOf(s, c).Fetching?
    case FetchFails(c) => PlaceOf(s, c).Fetching?
    case Store(c) => PlaceOf(s, c).Storing?
    case SetLength(k) => HasHeader(s, k) && k !in s.servings
    case SetClose(k) => HasHeader(s, k) && PhaseOf(s, k) == Some(LengthSet)
    case BeginRange(k) => HasHeader(s, k) && PhaseOf(s, k) == Some(BothSet)
    case NextName(k, name, fields) =>
      && HasHeader(s, k) && IsRanging(s, k)
      && (Changed(s, k) || (name in s.servings[k].todo && name in HeaderOf(s, k) && fields == FieldsOf(name, HeaderOf(s, k)[name])))
    case EndRange(k) => HasHeader(s, k) && IsRanging(s, k) && (Changed(s, k) || s.servings[k].todo == {})
  }

  function Return(s: State, c: Caller, url: string, outcome: Outcome): State {
    s.(places := s.places[c := Outside], returned := s.returned + [Returned(c, url, outcome)])
  }

  /** Serving `k` sets the shared header. */
  function Set(s: State, k: nat, h: Header, phase: Phase): State
    requires HasHeader(s, k)
  {
    var f := FetchOf(s, k);
    s.(headers := s.headers[f := h], sets := s.sets[f := s.sets[f] + 1], servings := s.servings[k := phase])
  }

  predicate Hit(s: State, url: string) {
    url in s.entries && Fresh(s.entries[url].fetchedAt, TTL, s.now)
  }

  function Apply(p: Policy, s: State, step: Step): State
    requires Enabled(s, step)
  {
    match step
    case Tick(d) => s.(now := s.now + d)
    case Check(c, url) =>
      if !p.permitted(url) then Return(s, c, url, Failed)
      else if Hit(s, url) then Return(s, c, url, FromCache(s.entries[url], s.now))
      else s.(places := s.places[c := Fetching(url, s.now)])
    case FetchArrives(c, body, header) =>
      var url, read := PlaceOf(s, c).url, ReadLimited(body, p.limit);
      if |read| > p.limit then Return(s, c, url, Failed)
      else
        var captured := Deleted(header, HOP_BY_HOP);
        s.(fetches := s.fetches + [Fetch(c, url, read, captured)], headers := s.headers + [captured], sets := s.sets + [0],
           places := s.places[c := Storing(url, PlaceOf(s, c).checkedAt, Cached(|s.fetches|, read))])
    case FetchFails(c) => Return(s, c, PlaceOf(s, c).url, Failed)
    case Store(c) =>
      var url, resp := PlaceOf(s, c).url, PlaceOf(s, c).resp;
      var t := s.(entries := s.entries[url := Entry(resp, s.now)], stores := s.stores + [Stored(url, s.now)]);
      Return(t, c, url, FromUpstream(resp))
    case SetLength(k) => Set(s, k, HeaderOf(s, k)["Content-Length" := [Itoa(|ResponseOf(s, k).value.body|)]], LengthSet)
    case SetClose(k) => Set(s, k, HeaderOf(s, k)["Connection" := ["close"]], BothSet)
    case BeginRange(k) =>
      s.(servings := s.servings[k := Ranging(s.sets[FetchOf(s, k)], HeaderOf(s, k).Keys, [], [])])
    case NextName(k, name, fields) =>
      var Ranging(since, todo, order, written) := s.servings[k];
      s.(servings := s.servings[k := Ranging(since, todo - {name}, order + [name], written + fields)])
    case EndRange(k) =>
      s.(servings := s.servings[k := Ended], shown := s.shown + [Shown(k, Changed(s, k), s.servings[k].written)])
  }

  /** The state a run leads to, if each of its steps can be taken. */
  function After(p: Policy, start: int, steps: seq<Step>): Option<State> {
    if steps == [] then Some(Initial(start))
    else
      var n := |steps| - 1;
      var before := After(p, start, steps[..n]);
      if before.None? || !Enabled(before.value, steps[n]) then None
      else Some(Apply(p, before.value, steps[n]))
  }

  // ----- What every step keeps

  /** The response is what a completed fetch of this permitted URL brought, within the limit. */
  ghost predicate Genuine(p: Policy, s: State, url: string, resp: Cached) {
    && resp.fetch < |s.fetches| && p.permitted(url) && |resp.body| <= p.limit
    && s.fetches[resp.fetch].url == url && s.fetches[resp.fetch].body == resp.body
  }

  ghost predicate EntriesGenuine(p: Policy, s: State) {
    forall u :: u in s.entries ==> Genuine(p, s, u, s.entries[u].resp) && s.entries[u].fetchedAt <= s.now
  }

  ghost predicate PlaceGenuine(p: Policy, s: State, c: Caller, place: Place) {
    match place
    case Outside => true
    case Fetching(url, _) => p.permitted(url)
    case Storing(url, _, resp) => Genuine(p, s, url, resp) && s.fetches[resp.fetch].caller == c
  }

  ghost predicate PlacesGenuine(p: Policy, s: State) {
    forall c: Caller :: PlaceGenuine(p, s, c, PlaceOf(s, c))
  }

  /** A returned response is the caller's own fetch, or was at most a TTL old when checked. */
  ghost predicate ReturnGenuine(p: Policy, s: State, r: Returned) {
    match r.outcome
    case Failed => true
    case FromCache(entry, at) => Genuine(p, s, r.url, entry.resp) && 0 <= at - entry.fetchedAt <= TTL
    case FromUpstream(resp) => Genuine(p, s, r.url, resp) && s.fetches[resp.fetch].caller == r.caller
  }

  ghost predicate ReturnsGenuine(p: Policy, s: State) {
    forall i :: 0 <= i < |s.returned| ==> ReturnGenuine(p, s, s.returned[i])
  }

  lemma EntriesKept(p: Policy, s: State, step: Step)
    requires EntriesGenuine(p, s) && PlacesGenuine(p, s) && Enabled(s, step)
    ensures EntriesGenuine(p, Apply(p, s, step))
  {
  }

  lemma PlacesKept(p: Policy, s: State, step: Step)
    requires PlacesGenuine(p, s) && Enabled(s, step)
    ensures PlacesGenuine(p, Apply(p, s, step))
  {
    var t := Apply(p, s, step);
    forall c: Caller
      ensures PlaceGenuine(p, t, c, PlaceOf(t, c))
    {
      assert PlaceGenuine(p, s, c, PlaceOf(s, c));
    }
  }

  lemma ReturnsKept(p: Policy, s: State, step: Step)
    requires EntriesGenuine(p, s) && PlacesGenuine(p, s) && ReturnsGenuine(p, s) && Enabled(s, step)
    ensures ReturnsGenuine(p, Apply(p, s, step))
  {
  }

  /**
    Under every interleaving: what is cached, about to be stored or was returned came from a
    completed fetch of that same permitted URL within the limit, and what was served from
    the cache was not older than the TTL.
   */
  lemma {:induction false} EveryRunIsGenuine(p: Policy, start: int, steps: seq<Step>)
    requires After(p, start, steps).Some?
    ensures var s := After(p, start, steps).value;
      EntriesGenuine(p, s) && PlacesGenuine(p, s) && ReturnsGenuine(p, s)
  {
    if steps != [] {
      var n := |steps| - 1;
      EveryRunIsGenuine(p, start, steps[..n]);
      var s := After(p, start, steps[..n]).value;
      EntriesKept(p, s, steps[n]);
      PlacesKept(p, s, steps[n]);
      ReturnsKept(p, s, steps[n]);
    }
  }

  /** No entry is dropped, and none is replaced by one fetched earlier. */
  lemma {:induction false} FetchTimesNeverGoBack(p: Policy, start: int, steps: seq<Step>, k: nat, url: string)
    requires After(p, start, steps).Some? && k <= |steps|
    ensures After(p, start, steps[..k]).Some?
    ensures var early, late := After(p, start, steps[..k]).value, After(p, start, steps).value;
      url in early.entries ==> url in late.entries && early.entries[url].fetchedAt <= late.entries[url].fetchedAt
    decreases |steps|
  {
    if k == |steps| {
      assert steps[..k] == steps;
    } else {
      var n := |steps| - 1;
      FetchTimesNeverGoBack(p, start, steps[..n], k, url);
      assert steps[..n][..k] == steps[..k];
      EveryRunIsGenuine(p, start, steps[..n]);
      EntryStays(p, After(p, start, steps[..n]).value, steps[n], url);
    }
  }

  lemma EntryStays(p: Policy, s: State, step: Step, url: string)
    requires EntriesGenuine(p, s) && Enabled(s, step)
    ensures var t := Apply(p, s, step);
      url in s.entries ==> url in t.entries && s.entries[url].fetchedAt <= t.entries[url].fetchedAt
  {
  }

  // ----- Serving from the shared header

  /** The header a serving should show: as captured, with the daemon's framing. */
  function Target(f: Fetch): Header {
    Framed(f.header, |f.body|)
  }

  /** The header with only the length set. */
  function Halfway(f: Fetch): Header {
    f.header["Content-Length" := [Itoa(|f.body|)]]
  }

  ghost predicate HeadersKnown(s: State) {
    && |s.headers| == |s.sets| == |s.fetches|
    && forall n :: 0 <= n < |s.headers| ==>
         s.headers[n] == s.fetches[n].header || s.headers[n] == Halfway(s.fetches[n]) || s.headers[n] == Target(s.fetches[n])
  }

  /** A range over an unchanged header has written what it has gone through, and has the rest to go. */
  ghost predicate RangeKnown(h: Header, todo: set<string>, order: seq<string>, written: seq<Field>) {
    && (forall k :: k in order ==> k in h) && (forall k :: k in h <==> k in order || k in todo)
    && (forall k :: k in order ==> k !in todo) && (forall i, j :: 0 <= i < j < |order| ==> order[i] != order[j])
    && written == FieldsInOrder(h, order)
  }

  ghost predicate ServingKnown(s: State, k: nat, phase: Phase) {
    && HasHeader(s, k) && FetchOf(s, k) < |s.fetches|
    && var f, h := s.fetches[FetchOf(s, k)], HeaderOf(s, k);
    match phase
    case LengthSet => h == Halfway(f) || h == Target(f)
    case Ranging(since, todo, order, written) =>
      && h == Target(f) && since <= s.sets[FetchOf(s, k)]
      && (since == s.sets[FetchOf(s, k)] ==> RangeKnown(h, todo, order, written))
    case _ => h == Target(f)
  }

  ghost predicate ServingsKnown(s: State) {
    forall k :: k in s.servings ==> ServingKnown(s, k, s.servings[k])
  }

  /** What an undisturbed serving wrote: the fields of the header as it should be, in some order of its names. */
  ghost predicate ShownWhole(h: Header, written: seq<Field>) {
    exists order :: IsOrder(order, h) && written == FieldsInOrder(h, order)
  }

  ghost predicate ShownKnown(s: State, i: nat)
    requires i < |s.shown|
  {
    && HasHeader(s, s.shown[i].serving) && FetchOf(s, s.shown[i].serving) < |s.fetches|
    && (!s.shown[i].changed ==> ShownWhole(Target(s.fetches[FetchOf(s, s.shown[i].serving)]), s.shown[i].written))
  }

  ghost predicate AllShownKnown(s: State) {
    forall i :: 0 <= i < |s.shown| ==> ShownKnown(s, i)
  }

  lemma ResponseStays(p: Policy, s: State, step: Step, k: nat)
    requires Enabled(s, step) && ResponseOf(s, k).Some?
    ensures ResponseOf(Apply(p, s, step), k) == ResponseOf(s, k)
  {
  }

  lemma ResponseGenuine(p: Policy, s: State, k: nat)
    requires ReturnsGenuine(p, s) && ResponseOf(s, k).Some?
    ensures var resp := ResponseOf(s, k).value;
      resp.fetch < |s.fetches| && s.fetches[resp.fetch].body == resp.body
  {
    assert ReturnGenuine(p, s, s.returned[k]);
  }

  /** Setting a field to what it should be takes the header on its way, and never back. */
  lemma Settings(f: Fetch)
    ensures Halfway(f)["Content-Length" := [Itoa(|f.body|)]] == Halfway(f)
    ensures Target(f)["Content-Length" := [Itoa(|f.body|)]] == Target(f)
    ensures Halfway(f)["Connection" := ["close"]] == Target(f) == Target(f)["Connection" := ["close"]]
  {
    assert "Content-Length"[3] != "Connection"[3];
  }

  /** A set of a response's header, from where it may be to where it then is. */
  lemma SetGoesOn(p: Policy, s: State, step: Step)
    requires ReturnsGenuine(p, s) && HeadersKnown(s) && ServingsKnown(s) && Enabled(s, step)
    requires step.SetLength? || step.SetClose?
    ensures FetchOf(s, step.serving) < |s.fetches|
    ensures var f, h := s.fetches[FetchOf(s, step.serving)], Apply(p, s, step).headers[FetchOf(s, step.serving)];
      && (h == Target(f) || (step.SetLength? && h == Halfway(f)))
      && (HeaderOf(s, step.serving) == Target(f) ==> h == Target(f))
      && (HeaderOf(s, step.serving) == Halfway(f) ==> h == Halfway(f) || h == Target(f))
  {
    ResponseGenuine(p, s, step.serving);
    Settings(s.fetches[FetchOf(s, step.serving)]);
    if step.SetClose? {
      assert ServingKnown(s, step.serving, LengthSet);
    }
  }

  lemma HeadersKept(p: Policy, s: State, step: Step)
    requires ReturnsGenuine(p, s) && HeadersKnown(s) && ServingsKnown(s) && Enabled(s, step)
    ensures HeadersKnown(Apply(p, s, step))
  {
    if step.SetLength? || step.SetClose? {
      SetGoesOn(p, s, step);
    }
  }

  lemma OneMoreName(h: Header, todo: set<string>, order: seq<string>, written: seq<Field>, name: string)
    requires RangeKnown(h, todo, order, written) && name in todo && name in h
    ensures RangeKnown(h, todo - {name}, order + [name], written + FieldsOf(name, h[name]))
  {
    assert (order + [name])[..|order|] == order;
    assert forall k :: k in order + [name] <==> k in order || k == name;
  }

  /** What is known of a serving that the step does not move stays known. */
  lemma OtherServingKept(p: Policy, s: State, step: Step, k: nat)
    requires ReturnsGenuine(p, s) && HeadersKnown(s) && ServingsKnown(s) && Enabled(s, step)
    requires k in s.servings && Apply(p, s, step).servings[k] == s.servings[k]
    ensures ServingKnown(Apply(p, s, step), k, s.servings[k])
  {
    assert ServingKnown(s, k, s.servings[k]);
    ResponseStays(p, s, step, k);
    if step.SetLength? || step.SetClose? {
      SetGoesOn(p, s, step);
    } else {
      HeadersStay(p, s, step, FetchOf(s, k));
    }
  }

  /** Only a set touches a header that is there. */
  lemma HeadersStay(p: Policy, s: State, step: Step, fetch: nat)
    requires Enabled(s, step) && !step.SetLength? && !step.SetClose?
    requires |s.headers| == |s.sets| == |s.fetches| && fetch < |s.headers|
    ensures var t := Apply(p, s, step);
      && fetch < |t.headers| && fetch < |t.sets| && fetch < |t.fetches|
      && t.headers[fetch] == s.headers[fetch] && t.sets[fetch] == s.sets[fetch] && t.fetches[fetch] == s.fetches[fetch]
  {
  }

  lemma OwnServingKept(p: Policy, s: State, step: Step, k: nat)
    requires ReturnsGenuine(p, s) && HeadersKnown(s) && ServingsKnown(s) && Enabled(s, step)
    requires step.SetLength? || step.SetClose? || step.BeginRange? || step.NextName? || step.EndRange?
    requires step.serving == k
    ensures k in Apply(p, s, step).servings && ServingKnown(Apply(p, s, step), k, Apply(p, s, step).servings[k])
  {
    ResponseStays(p, s, step, k);
    ResponseGenuine(p, s, k);
    if step.SetLength? || step.SetClose? {
      SetGoesOn(p, s, step);
    } else {
      assert ServingKnown(s, k, s.servings[k]);
      if step.NextName? && !Changed(s, k) {
        var Ranging(since, todo, order, written) := s.servings[k];
        OneMoreName(HeaderOf(s, k), todo, order, written, step.name);
      }
    }
  }

  lemma ServingsKept(p: Policy, s: State, step: Step)
    requires ReturnsGenuine(p, s) && HeadersKnown(s) && ServingsKnown(s) && Enabled(s, step)
    ensures ServingsKnown(Apply(p, s, step))
  {
    var t := Apply(p, s, step);
    forall k | k in t.servings
      ensures ServingKnown(t, k, t.servings[k])
    {
      if k in s.servings && t.servings[k] == s.servings[k] {
        OtherServingKept(p, s, step, k);
      } else {
        OwnServingKept(p, s, step, k);
      }
    }
  }

  lemma RangeIsWhole(h: Header, order: seq<string>, written: seq<Field>)
    requires RangeKnown(h, {}, order, written)
    ensures ShownWhole(h, written)
  {
    assert IsOrder(order, h);
  }

  lemma ShownKept(p: Policy, s: State, step: Step)
    requires ReturnsGenuine(p, s) && HeadersKnown(s) && ServingsKnown(s) && AllShownKnown(s) && Enabled(s, step)
    ensures AllShownKnown(Apply(p, s, step))
  {
    var t := Apply(p, s, step);
    forall i | 0 <= i < |t.shown|
      ensures ShownKnown(t, i)
    {
      if i < |s.shown| {
        assert ShownKnown(s, i) && t.shown[i] == s.shown[i];
        ResponseStays(p, s, step, s.shown[i].serving);
      } else {
        var k := step.serving;
        ResponseStays(p, s, step, k);
        assert ServingKnown(s, k, s.servings[k]);
        if !Changed(s, k) {
          RangeIsWhole(HeaderOf(s, k), s.servings[k].order, s.servings[k].written);
        }
      }
    }
  }

  lemma {:induction false} RunServings(p: Policy, start: int, steps: seq<Step>)
    requires After(p, start, steps).Some?
    ensures var s := After(p, start, steps).value;
      HeadersKnown(s) && ServingsKnown(s) && AllShownKnown(s)
  {
    if steps != [] {
      var n := |steps| - 1;
      RunServings(p, start, steps[..n]);
      EveryRunIsGenuine(p, start, steps[..n]);
      var s := After(p, start, steps[..n]).value;
      HeadersKept(p, s, steps[n]);
      ServingsKept(p, s, steps[n]);
      ShownKept(p, s, steps[n]);
    }
  }

  // ----- Races

  /** A serving's set of a header falls inside another serving's range over it. */
  ghost predicate SetInsideRange(s: State, step: Step) {
    && (step.SetLength? || step.SetClose?) && Enabled(s, step)
    && exists j :: IsRanging(s, j) && HasHeader(s, j) && FetchOf(s, j) == FetchOf(s, step.serving)
  }

  ghost predicate NoSetInsideRange(p: Policy, start: int, steps: seq<Step>) {
    steps != [] ==>
      var n := |steps| - 1;
      var before := After(p, start, steps[..n]);
      NoSetInsideRange(p, start, steps[..n]) && (before.Some? ==> !SetInsideRange(before.value, steps[n]))
  }

  /** No range that is under way or has ended saw its header change. */
  ghost predicate Undisturbed(s: State) {
    && (forall k :: IsRanging(s, k) && HasHeader(s, k) ==> !Changed(s, k))
    && (forall i :: 0 <= i < |s.shown| ==> !s.shown[i].changed)
  }

  lemma UndisturbedStep(p: Policy, s: State, step: Step)
    requires ServingsKnown(s) && Enabled(s, step)
    ensures Undisturbed(Apply(p, s, step)) <==> Undisturbed(s) && !SetInsideRange(s, step)
  {
    if SetInsideRange(s, step) {
      DisturbedBySet(p, s, step);
    } else if Undisturbed(s) {
      NotDisturbed(p, s, step);
    } else {
      StaysDisturbed(p, s, step);
    }
  }

  lemma DisturbedBySet(p: Policy, s: State, step: Step)
    requires ServingsKnown(s) && SetInsideRange(s, step)
    ensures !Undisturbed(Apply(p, s, step))
  {
    var t := Apply(p, s, step);
    var j :| IsRanging(s, j) && HasHeader(s, j) && FetchOf(s, j) == FetchOf(s, step.serving);
    assert ServingKnown(s, j, s.servings[j]);
    ResponseStays(p, s, step, j);
    assert IsRanging(t, j) && HasHeader(t, j) && Changed(t, j);
  }

  lemma NotDisturbed(p: Policy, s: State, step: Step)
    requires Undisturbed(s) && ServingsKnown(s) && Enabled(s, step) && !SetInsideRange(s, step)
    ensures Undisturbed(Apply(p, s, step))
  {
    var t := Apply(p, s, step);
    forall k | IsRanging(t, k) && HasHeader(t, k)
      ensures !Changed(t, k)
    {
      if IsRanging(s, k) {
        assert ServingKnown(s, k, s.servings[k]);
        ResponseStays(p, s, step, k);
      } else {
        ResponseStays(p, s, step, k);
      }
    }
    assert forall i :: 0 <= i < |s.shown| ==> t.shown[i] == s.shown[i];
  }

  lemma StaysDisturbed(p: Policy, s: State, step: Step)
    requires !Undisturbed(s) && ServingsKnown(s) && Enabled(s, step)
    ensures !Undisturbed(Apply(p, s, step))
  {
    var t := Apply(p, s, step);
    if i :| 0 <= i < |s.shown| && s.shown[i].changed {
      assert t.shown[i] == s.shown[i];
    } else {
      var k :| IsRanging(s, k) && HasHeader(s, k) && Changed(s, k);
      if step.EndRange? && step.serving == k {
        assert t.shown[|s.shown|].changed;
      } else {
        RangeStaysChanged(p, s, step, k);
      }
    }
  }

  lemma RangeStaysChanged(p: Policy, s: State, step: Step, k: nat)
    requires ServingsKnown(s) && Enabled(s, step) && IsRanging(s, k) && HasHeader(s, k) && Changed(s, k)
    requires !(step.EndRange? && step.serving == k)
    ensures var t := Apply(p, s, step); IsRanging(t, k) && HasHeader(t, k) && Changed(t, k)
  {
    assert ServingKnown(s, k, s.servings[k]);
    ResponseStays(p, s, step, k);
  }

  /**
    No range sees its header change if and only if no serving sets the header of a response
    while another ranges over it. Nothing in the program prevents that.
   */
  lemma {:induction false} RaceFreeIff(p: Policy, start: int, steps: seq<Step>)
    requires After(p, start, steps).Some?
    ensures Undisturbed(After(p, start, steps).value) <==> NoSetInsideRange(p, start, steps)
  {
    if steps != [] {
      var n := |steps| - 1;
      RaceFreeIff(p, start, steps[..n]);
      RunServings(p, start, steps[..n]);
      UndisturbedStep(p, After(p, start, steps[..n]).value, steps[n]);
    }
  }

  /**
    In a run without such a race every serving that has ended wrote, for each name, exactly the
    values of the header as captured under the daemon's framing, however servings interleave.
   */
  lemma EveryServingShowsTheSame(p: Policy, start: int, steps: seq<Step>, i: nat, name: string)
    requires After(p, start, steps).Some? && NoSetInsideRange(p, start, steps)
    requires i < |After(p, start, steps).value.shown|
    ensures var s := After(p, start, steps).value;
      var resp := ResponseOf(s, s.shown[i].serving);
      && resp.Some? && resp.value.fetch < |s.fetches| && s.fetches[resp.value.fetch].body == resp.value.body
      && var h := Framed(s.fetches[resp.value.fetch].header, |resp.value.body|);
      ShownWhole(h, s.shown[i].written) && ValuesOf(s.shown[i].written, name) == if name in h then h[name] else []
  {
    RunServings(p, start, steps);
    RaceFreeIff(p, start, steps);
    EveryRunIsGenuine(p, start, steps);
    var s := After(p, start, steps).value;
    var k := s.shown[i].serving;
    assert ShownKnown(s, i);
    ResponseGenuine(p, s, k);
    WholeValues(Target(s.fetches[FetchOf(s, k)]), s.shown[i].written, name);
  }

  lemma WholeValues(h: Header, written: seq<Field>, name: string)
    requires ShownWhole(h, written)
    ensures ValuesOf(written, name) == if name in h then h[name] else []
  {
    var order :| IsOrder(order, h) && written == FieldsInOrder(h, order);
    ValuesInOrder(h, order, name);
  }

  // ----- With a race they need not show it

  /** A run in which one caller fetches a URL and asks for it again, so that two servings share a response. */
  lemma SharedResponse(p: Policy, start: int, url: string, c: Caller) returns (steps: seq<Step>)
    requires p.permitted(url)
    ensures After(p, start, steps).Some?
    ensures var s := After(p, start, steps).value;
      && |s.returned| == 2 && s.servings == map[] && |s.headers| == |s.sets| == 1
      && ResponseOf(s, 0) == ResponseOf(s, 1) == Some(Cached(0, ""))
  {
    steps := [Check(c, url)];
    OneMoreStep(p, start, [], Check(c, url));
    assert [] + [Check(c, url)] == steps;
    OneMoreStep(p, start, steps, FetchArrives(c, "", map[]));
    steps := steps + [FetchArrives(c, "", map[])];
    OneMoreStep(p, start, steps, Store(c));
    steps := steps + [Store(c)];
    AskedAgain(p, start, steps, url, c);
    steps := steps + [Check(c, url)];
  }

  lemma AskedAgain(p: Policy, start: int, steps: seq<Step>, url: string, c: Caller)
    requires p.permitted(url) && After(p, start, steps).Some?
    requires var s := After(p, start, steps).value;
      && PlaceOf(s, c).Outside? && url in s.entries && s.entries[url].fetchedAt == s.now
    ensures After(p, start, steps + [Check(c, url)]).Some?
    ensures var s := After(p, start, steps).value;
      After(p, start, steps + [Check(c, url)]).value == Return(s, c, url, FromCache(s.entries[url], s.now))
  {
    OneMoreStep(p, start, steps, Check(c, url));
    assert TTL >= 0;
  }

  /** Two servings of one response may race: nothing stops the second from setting the header the first ranges over. */
  lemma RaceHappens(p: Policy, start: int, url: string, c: Caller) returns (steps: seq<Step>)
    requires p.permitted(url)
    ensures After(p, start, steps).Some? && !NoSetInsideRange(p, start, steps)
  {
    steps := SharedResponse(p, start, url, c);
    OneMoreStep(p, start, steps, SetLength(0));
    steps := steps + [SetLength(0)];
    OneMoreStep(p, start, steps, SetClose(0));
    steps := steps + [SetClose(0)];
    OneMoreStep(p, start, steps, BeginRange(0));
    steps := steps + [BeginRange(0)];
    var s := After(p, start, steps).value;
    assert IsRanging(s, 0) && HasHeader(s, 0) && FetchOf(s, 0) == FetchOf(s, 1);
    OneMoreStep(p, start, steps, SetLength(1));
    RaceAtTheEnd(p, start, steps, SetLength(1));
    steps := steps + [SetLength(1)];
  }

  lemma RaceAtTheEnd(p: Policy, start: int, steps: seq<Step>, step: Step)
    requires After(p, start, steps).Some? && SetInsideRange(After(p, start, steps).value, step)
    ensures !NoSetInsideRange(p, start, steps + [step])
  {
    assert (steps + [step])[..|steps|] == steps;
  }

  /** And once a range has seen its header change, anything may be written for it. */
  lemma RacedMayShowAnything(p: Policy, start: int, steps: seq<Step>, k: nat, fields: seq<Field>) returns (longer: seq<Step>)
    requires After(p, start, steps).Some?
    requires var s := After(p, start, steps).value; HasHeader(s, k) && IsRanging(s, k) && Changed(s, k)
    ensures steps <= longer && After(p, start, longer).Some?
    ensures var s, t := After(p, start, steps).value, After(p, start, longer).value;
      t.shown == s.shown + [Shown(k, true, s.servings[k].written + fields)]
  {
    OneMoreStep(p, start, steps, NextName(k, "", fields));
    longer := steps + [NextName(k, "", fields)];
    var t := After(p, start, longer).value;
    ResponseStays(p, After(p, start, steps).value, NextName(k, "", fields), k);
    assert HasHeader(t, k) && IsRanging(t, k) && Changed(t, k);
    OneMoreStep(p, start, longer, EndRange(k));
    longer := longer + [EndRange(k)];
  }

  // ----- How far apart the fetches of one URL are

  /** The caller is between the check of the URL and its store. */
  predicate InFlight(s: State, c: Caller, url: string) {
    !PlaceOf(s, c).Outside? && PlaceOf(s, c).url == url
  }

  /** A URL is checked while another caller is in flight on it. */
  ghost predicate Overlaps(s: State, step: Step) {
    step.Check? && exists d: Caller :: d != step.caller && InFlight(s, d, step.url)
  }

  ghost predicate NoOverlap(p: Policy, start: int, steps: seq<Step>) {
    steps != [] ==>
      var n := |steps| - 1;
      var before := After(p, start, steps[..n]);
      NoOverlap(p, start, steps[..n]) && (before.Some? ==> !Overlaps(before.value, steps[n]))
  }

  /** The entry of a URL carries the time of its last store. */
  ghost predicate StoresBefore(s: State) {
    forall i :: 0 <= i < |s.stores| ==>
      s.stores[i].url in s.entries && s.stores[i].at <= s.entries[s.stores[i].url].fetchedAt
  }

  /** When `c` went to fetch, whatever was cached was more than a TTL old. */
  ghost predicate FetchWasDue(s: State, c: Caller) {
    var place := PlaceOf(s, c);
    !place.Outside? ==>
      && place.checkedAt <= s.now
      && (place.url in s.entries ==> place.checkedAt - s.entries[place.url].fetchedAt > TTL)
  }

  ghost predicate StoresApart(stores: seq<Stored>) {
    forall i, j :: 0 <= i < j < |stores| && stores[i].url == stores[j].url ==> stores[j].at - stores[i].at > TTL
  }

  ghost predicate OneInFlight(s: State) {
    forall c: Caller, d: Caller :: !PlaceOf(s, c).Outside? && InFlight(s, d, PlaceOf(s, c).url) ==> c == d
  }

  ghost predicate AllDue(s: State) {
    forall c: Caller :: FetchWasDue(s, c)
  }

  ghost predicate Apart(s: State) {
    StoresApart(s.stores) && StoresBefore(s) && OneInFlight(s) && AllDue(s)
  }

  lemma OneInFlightKept(p: Policy, s: State, step: Step)
    requires OneInFlight(s) && Enabled(s, step) && !Overlaps(s, step)
    ensures OneInFlight(Apply(p, s, step))
  {
    var t := Apply(p, s, step);
    forall c: Caller, d: Caller | !PlaceOf(t, c).Outside? && InFlight(t, d, PlaceOf(t, c).url)
      ensures c == d
    {
      if step.Check? && step.caller == c {
        assert d != c ==> InFlight(s, d, step.url);
      } else if step.Check? && step.caller == d {
        assert c != d ==> InFlight(s, c, step.url);
      } else {
        assert !PlaceOf(s, c).Outside? && InFlight(s, d, PlaceOf(s, c).url);
      }
    }
  }

  lemma AllDueKept(p: Policy, s: State, step: Step)
    requires OneInFlight(s) && AllDue(s) && Enabled(s, step)
    ensures AllDue(Apply(p, s, step))
  {
    var t := Apply(p, s, step);
    forall c: Caller
      ensures FetchWasDue(t, c)
    {
      assert FetchWasDue(s, c);
      if step.Store? && c != step.caller && !PlaceOf(s, c).Outside? {
        assert !InFlight(s, step.caller, PlaceOf(s, c).url);
      }
    }
  }

  lemma StoresKept(p: Policy, s: State, step: Step)
    requires StoresApart(s.stores) && StoresBefore(s) && AllDue(s) && Enabled(s, step)
    ensures StoresApart(Apply(p, s, step).stores) && StoresBefore(Apply(p, s, step))
  {
    if step.Store? {
      assert FetchWasDue(s, step.caller);
    }
  }

  /**
    If no URL is checked while another caller is between check and store of it, successful
    fetches of one URL are more than a TTL apart, whatever the number of callers.
   */
  lemma {:induction false} FetchesApartWithoutOverlap(p: Policy, start: int, steps: seq<Step>)
    requires After(p, start, steps).Some? && NoOverlap(p, start, steps)
    ensures Apart(After(p, start, steps).value) && StoresApart(After(p, start, steps).value.stores)
  {
    if steps != [] {
      var n := |steps| - 1;
      FetchesApartWithoutOverlap(p, start, steps[..n]);
      var s := After(p, start, steps[..n]).value;
      StoresKept(p, s, steps[n]);
      OneInFlightKept(p, s, steps[n]);
      AllDueKept(p, s, steps[n]);
    }
  }

  ghost predicate OnlyCaller(steps: seq<Step>, c: Caller) {
    forall i :: 0 <= i < |steps| ==>
      match steps[i]
      case Check(d, _) => d == c
      case _ => true
  }

  lemma {:induction false} OnlyCallerAlone(p: Policy, start: int, steps: seq<Step>, c: Caller)
    requires After(p, start, steps).Some? && OnlyCaller(steps, c)
    ensures NoOverlap(p, start, steps)
    ensures forall d: Caller :: d != c ==> PlaceOf(After(p, start, steps).value, d).Outside?
  {
    if steps != [] {
      var n := |steps| - 1;
      OnlyCallerAlone(p, start, steps[..n], c);
      var s := After(p, start, steps[..n]).value;
      assert steps[n].Check? ==> steps[n].caller == c;
      forall d: Caller | d != c
        ensures PlaceOf(Apply(p, s, steps[n]), d).Outside?
      {
        assert PlaceOf(s, d).Outside?;
      }
    }
  }

  /** A single caller never overlaps. */
  lemma SingleCallerFetchesApart(p: Policy, start: int, steps: seq<Step>, c: Caller)
    requires After(p, start, steps).Some? && OnlyCaller(steps, c)
    ensures StoresApart(After(p, start, steps).value.stores)
  {
    OnlyCallerAlone(p, start, steps, c);
    FetchesApartWithoutOverlap(p, start, steps);
  }

  // ----- With overlap they need not be

  lemma OneMoreStep(p: Policy, start: int, steps: seq<Step>, step: Step)
    requires After(p, start, steps).Some? && Enabled(After(p, start, steps).value, step)
    ensures After(p, start, steps + [step]) == Some(Apply(p, After(p, start, steps).value, step))
  {
    assert (steps + [step])[..|steps|] == steps;
  }

  /** A caller in flight may have an empty body arrive, and store it at once. */
  lemma MayStoreNow(p: Policy, start: int, steps: seq<Step>, c: Caller, url: string) returns (longer: seq<Step>)
    requires After(p, start, steps).Some? && InFlight(After(p, start, steps).value, c, url)
    ensures steps <= longer && After(p, start, longer).Some?
    ensures var s, t := After(p, start, steps).value, After(p, start, longer).value;
      && t.now == s.now && t.stores == s.stores + [Stored(url, s.now)]
      && forall d: Caller :: d != c ==> PlaceOf(t, d) == PlaceOf(s, d)
  {
    longer := steps;
    if PlaceOf(After(p, start, steps).value, c).Fetching? {
      OneMoreStep(p, start, longer, FetchArrives(c, "", map[]));
      longer := longer + [FetchArrives(c, "", map[])];
    }
    OneMoreStep(p, start, longer, Store(c));
    longer := longer + [Store(c)];
  }

  /**
    Without that condition nothing keeps them apart: from every reachable state with two
    callers in flight on one URL there is a continuation that stores it twice at one instant.
   */
  lemma OverlapMayFetchTwice(p: Policy, start: int, steps: seq<Step>, c: Caller, d: Caller, url: string)
    returns (longer: seq<Step>)
    requires After(p, start, steps).Some? && c != d
    requires InFlight(After(p, start, steps).value, c, url) && InFlight(After(p, start, steps).value, d, url)
    ensures steps <= longer && After(p, start, longer).Some? && !StoresApart(After(p, start, longer).value.stores)
  {
    longer := MayStoreNow(p, start, steps, c, url);
    longer := MayStoreNow(p, start, longer, d, url);
    var s := After(p, start, steps).value;
    SameInstant(After(p, start, longer).value.stores, s.stores, Stored(url, s.now));
  }

  lemma SameInstant(stores: seq<Stored>, before: seq<Stored>, one: Stored)
    requires stores == before + [one] + [one]
    ensures !StoresApart(stores)
  {
    var n := |before|;
    assert stores[n] == one && stores[n + 1] == one;
    assert TTL >= 0;
  }

  /** Such states are reached: any two callers may both miss any permitted URL. */
  lemma TwoCallersMayBothFetch(p: Policy, start: int, url: string, c: Caller, d: Caller) returns (steps: seq<Step>)
    requires p.permitted(url) && c != d
    ensures After(p, start, steps).Some? && !StoresApart(After(p, start, steps).value.stores)
  {
    OneMoreStep(p, start, [], Check(c, url));
    steps := [] + [Check(c, url)];
    OneMoreStep(p, start, steps, Check(d, url));
    steps := steps + [Check(d, url)];
    steps := OverlapMayFetchTwice(p, start, steps, c, d, url);
  }

  // ----- One call that nothing interrupts

  /**
    Check, fetch and store in a row do to the shared state what `Cache.FetchResponse` does
    to its entries: a refusal, a fresh entry, a body over the limit, or a new entry.
   */
  lemma UninterruptedFetch(p: Policy, s: State, c: Caller, url: string, body: string, header: Header)
    requires PlaceOf(s, c).Outside?
    ensures var checked := Apply(p, s, Check(c, url));
      && (!p.permitted(url) ==> checked == Return(s, c, url, Failed))
      && (p.permitted(url) && Hit(s, url) ==> checked == Return(s, c, url, FromCache(s.entries[url], s.now)))
      && (p.permitted(url) && !Hit(s, url) ==>
            && Enabled(checked, FetchArrives(c, body, header))
            && var fetched, read := Apply(p, checked, FetchArrives(c, body, header)), ReadLimited(body, p.limit);
            && (|read| > p.limit ==> fetched.entries == s.entries && PlaceOf(fetched, c).Outside?
                                     && fetched.returned == s.returned + [Returned(c, url, Failed)])
            && (|read| <= p.limit ==>
                  && Enabled(fetched, Store(c))
                  && var stored, resp := Apply(p, fetched, Store(c)), Cached(|s.fetches|, read);
                  && stored.entries == s.entries[url := Entry(resp, s.now)]
                  && stored.headers == s.headers + [Deleted(header, HOP_BY_HOP)]
                  && stored.fetches == s.fetches + [Fetch(c, url, read, Deleted(header, HOP_BY_HOP))]
                  && stored.returned == s.returned + [Returned(c, url, FromUpstream(resp))]))
  {
  }
}
