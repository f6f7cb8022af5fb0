/** Which upstream URLs the proxy may contact, on the first request and on every redirect. */
module Redirects {
  import opened Config
  import opened Strings
  import opened Wrappers

  const DEFAULT_MAX_REDIRECTS := 10

  /** The parts of a parsed URL the policy looks at. */
  datatype Url = Url(scheme: string, hasUser: bool, host: string, blockedLiteral: bool)

  predicate OriginMatches(allowed: string, host: string, denyAll: bool) {
    || (allowed == "*" && !denyAll)
    || allowed == host
    || (HasPrefix(allowed, "*.") && HasSuffix(host, allowed[1..]))
  }

  predicate IsAllowed(cfg: ProxyCacheConfig, host: string) {
    exists i :: 0 <= i < |cfg.allowedOrigins| && OriginMatches(cfg.allowedOrigins[i], host, cfg.denyAll)
  }

  /** A star allows every host unless that is denied, and nothing else then but itself. */
  lemma StarOrigin(host: string, denyAll: bool)
    ensures OriginMatches("*", host, denyAll) <==> !denyAll || host == "*"
  {
    assert !HasPrefix("*", "*.");
  }

  /** A starred domain allows the hosts under it, and not the domain itself. */
  lemma StarredOrigin(domain: string, host: string, denyAll: bool)
    ensures var allowed := "*" + ("." + domain);
      OriginMatches(allowed, host, denyAll) <==> exists sub :: host == sub + ("." + domain)
  {
    var allowed := "*" + ("." + domain);
    var suffix := "." + domain;
    assert allowed[1..] == suffix && HasPrefix(allowed, "*.") && |allowed| > 1;
    if HasSuffix(host, suffix) {
      assert host == host[..|host| - |suffix|] + suffix;
    }
    if sub :| host == sub + suffix {
      assert host[|host| - |suffix|..] == suffix;
    }
    assert allowed == "*" + suffix;
  }

  /** Any other origin allows exactly the host it names. */
  lemma NamedOrigin(allowed: string, host: string, denyAll: bool)
    requires allowed != "*" && !HasPrefix(allowed, "*.")
    ensures OriginMatches(allowed, host, denyAll) <==> host == allowed
  {
  }

  /** `isAllowed` */
  method FindOrigin(cfg: ProxyCacheConfig, host: string) returns (ok: bool)
    ensures ok <==> IsAllowed(cfg, host)
  {
    for n := 0 to |cfg.allowedOrigins|
      invariant forall i :: 0 <= i < n ==> !OriginMatches(cfg.allowedOrigins[i], host, cfg.denyAll)
    {
      var allowed := cfg.allowedOrigins[n];
      if allowed == "*" && !cfg.denyAll {
        assert OriginMatches(allowed, host, cfg.denyAll);
        return true;
      }
      if allowed == host {
        assert OriginMatches(allowed, host, cfg.denyAll);
        return true;
      }
      if HasPrefix(allowed, "*.") && HasSuffix(host, allowed[1..]) {
        assert OriginMatches(allowed, host, cfg.denyAll);
        return true;
      }
    }
    return false;
  }

  predicate Permitted(cfg: ProxyCacheConfig, u: Url) {
    (u.scheme == "http" || u.scheme == "https") && !u.hasUser && IsAllowed(cfg, u.host)
  }

  /** `max-redirects 0` does not disable redirects; it selects the default. */
  function Limit(cfg: ProxyCacheConfig): (n: nat)
    ensures n > 0
  {
    if cfg.maxRedirects <= 0 then DEFAULT_MAX_REDIRECTS else cfg.maxRedirects
  }

  predicate RedirectsDisabled(cfg: ProxyCacheConfig) {
    cfg.allowRedirects == Some(false)
  }

  datatype Verdict = Follow | UseLastResponse | Refuse

  /** `checkRedirect`, with the number of requests made so far. */
  function CheckRedirect(cfg: ProxyCacheConfig, u: Url, made: nat): Verdict {
    if RedirectsDisabled(cfg) then UseLastResponse
    else if made >= Limit(cfg) then Refuse
    else if u.scheme != "http" && u.scheme != "https" then Refuse
    else if u.hasUser then Refuse
    else if !IsAllowed(cfg, u.host) then Refuse
    else Follow
  }

  /** A redirect is followed exactly to a permitted URL, while requests are left and redirects are on. */
  lemma FollowIff(cfg: ProxyCacheConfig, u: Url, made: nat)
    ensures CheckRedirect(cfg, u, made) == Follow <==>
      && cfg.allowRedirects != Some(false) && made < (if cfg.maxRedirects > 0 then cfg.maxRedirects else 10)
      && (u.scheme == "http" || u.scheme == "https") && !u.hasUser && IsAllowed(cfg, u.host)
  {
  }

  /** What an upstream does with one request; `location` is where a redirect points. */
  datatype Reply<R> = NetworkError | Reply(resp: R, location: Option<Url>)

  /** `via` is a chain of requests that upstream's redirects lead along. */
  ghost predicate IsChain<R>(upstream: seq<Url> -> Reply<R>, via: seq<Url>) {
    && via != []
    && forall i :: 1 <= i < |via| ==> upstream(via[..i]).Reply? && upstream(via[..i]).location == Some(via[i])
  }

  /** The requests made from `via` on: redirects are followed while the policy says so. */
  function Chain<R>(cfg: ProxyCacheConfig, upstream: seq<Url> -> Reply<R>, via: seq<Url>): (r: seq<Url>)
    requires via != []
    ensures |r| >= |via|
    decreases Limit(cfg) - |via|
  {
    var reply := upstream(via);
    if reply.NetworkError? || reply.location.None? || CheckRedirect(cfg, reply.location.value, |via|) != Follow then via
    else Chain(cfg, upstream, via + [reply.location.value])
  }

  /**
    The request loop of Go's HTTP client under `checkRedirect`. The upstream may answer
    each request in the light of the whole chain before it.
   */
  method Get<R>(cfg: ProxyCacheConfig, first: Url, upstream: seq<Url> -> Reply<R>)
    returns (r: Option<R>, via: seq<Url>)
    requires Permitted(cfg, first)
    ensures via == Chain(cfg, upstream, [first])
    ensures IsChain(upstream, via) && via[0] == first && |via| <= Limit(cfg)
    ensures forall i :: 0 <= i < |via| ==> Permitted(cfg, via[i])
    ensures RedirectsDisabled(cfg) ==> |via| == 1
    ensures r.Some? <==> upstream(via).Reply? && (upstream(via).location.Some? ==> RedirectsDisabled(cfg))
    ensures r.Some? ==> r.value == upstream(via).resp
    ensures r.None? ==> upstream(via).NetworkError? || CheckRedirect(cfg, upstream(via).location.value, |via|) == Refuse
  {
    via := [first];
    while true
      invariant IsChain(upstream, via) && via[0] == first && |via| <= Limit(cfg)
      invariant Chain(cfg, upstream, via) == Chain(cfg, upstream, [first])
      invariant forall i :: 0 <= i < |via| ==> Permitted(cfg, via[i])
      invariant RedirectsDisabled(cfg) ==> |via| == 1
      decreases Limit(cfg) - |via|
    {
      var reply := upstream(via);
      if reply.NetworkError? {
        return None, via;
      }
      if reply.location.None? {
        return Some(reply.resp), via;
      }
      var verdict := CheckRedirect(cfg, reply.location.value, |via|);
      if verdict == UseLastResponse {
        return Some(reply.resp), via;
      }
      if verdict == Refuse {
        return None, via;
      }
      assert forall i :: 1 <= i < |via| ==> (via + [reply.location.value])[..i] == via[..i];
      assert (via + [reply.location.value])[..|via|] == via;
      via := via + [reply.location.value];
    }
  }

  // ----- How many requests there can be

  /** An upstream that answers every request with a redirect to one URL. */
  function Loop<R>(resp: R, to: Url): seq<Url> -> Reply<R> {
    (via: seq<Url>) => Reply(resp, Some(to))
  }

  lemma {:induction false} LoopUsesTheLimit<R>(cfg: ProxyCacheConfig, resp: R, to: Url, via: seq<Url>)
    requires Permitted(cfg, to) && !RedirectsDisabled(cfg) && 0 < |via| <= Limit(cfg)
    ensures |Chain(cfg, Loop(resp, to), via)| == Limit(cfg)
    decreases Limit(cfg) - |via|
  {
    if |via| < Limit(cfg) {
      assert CheckRedirect(cfg, to, |via|) == Follow;
      LoopUsesTheLimit(cfg, resp, to, via + [to]);
    }
  }

  /**
    Redirects are off, in the sense that every upstream gets exactly one request, if and only
    if they are disabled by name or limited to one. So `max-redirects 0` does not do it.
   */
  lemma OneRequestIff<R(!new)>(cfg: ProxyCacheConfig, first: Url, resp: R)
    requires Permitted(cfg, first)
    ensures (forall upstream: seq<Url> -> Reply<R> :: |Chain(cfg, upstream, [first])| == 1) <==>
            RedirectsDisabled(cfg) || cfg.maxRedirects == 1
  {
    if RedirectsDisabled(cfg) || cfg.maxRedirects == 1 {
      forall upstream: seq<Url> -> Reply<R>
        ensures |Chain(cfg, upstream, [first])| == 1
      {
        var reply := upstream([first]);
        assert reply.Reply? && reply.location.Some? ==> CheckRedirect(cfg, reply.location.value, 1) != Follow;
      }
    } else {
      LoopUsesTheLimit(cfg, resp, first, [first]);
      assert |Chain(cfg, Loop(resp, first), [first])| != 1;
    }
  }

  /** With `max-redirects 0` an upstream that goes on redirecting gets ten requests. */
  lemma MaxRedirectsZero<R>(cfg: ProxyCacheConfig, first: Url, resp: R)
    requires Permitted(cfg, first) && !RedirectsDisabled(cfg) && cfg.maxRedirects == 0
    ensures |Chain(cfg, Loop(resp, first), [first])| == 10
  {
    LoopUsesTheLimit(cfg, resp, first, [first]);
  }
}
