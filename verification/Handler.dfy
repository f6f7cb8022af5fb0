/** The command dispatcher: from the words of a command line to what is done about it. */
module Handler {
  import opened Auth
  import opened Bytes
  import opened Config
  import opened Routes
  import opened Strings
  import opened Wrappers

  datatype Session = Session(tier: string, fingerprint: string, publicKey: seq<byte>)

  /**
    A site's handler. `upper` and `equalFold` stand for Go's `strings.ToUpper` and `EqualFold`,
    and `content` tells which routes can be read and packed under the site's root.
   */
  datatype Handler = Handler(
    site: SiteConfig,
    hasBackend: bool,
    hasProxy: bool,
    hasMcp: bool,
    content: string -> bool,
    upper: string -> string,
    equalFold: (string, string) -> bool)

  datatype Action =
    | Denied
    | Unknown
    | Usage
    | NotConfigured
    | ShowCapabilities
    | ServePack(route: string, binary: bool)
    | FetchResource(path: string, session: Session)
    | NoContent
    | CallBackend(method_: string, path: string, body: string, session: Session)
    | FetchProxied(url: string, binary: bool)
    | ShowFeed(args: seq<string>)
    | ShowSitemap
    | ShowRobots
    | CallTool(tool: string, arguments: map<string, string>)

  // ----- Declared routes

  predicate Declares(h: Handler, c: CommandConfig, kind: string, method_: string, path: string) {
    && c.kind == kind
    && (kind == "api-call" ==> h.equalFold(c.method_, method_))
    && RouteMatches(c.route, path)
  }

  predicate SomeDeclares(h: Handler, commands: seq<CommandConfig>, kind: string, method_: string, path: string) {
    commands != [] && (Declares(h, commands[0], kind, method_, path) || SomeDeclares(h, commands[1..], kind, method_, path))
  }

  predicate RouteAllowed(h: Handler, kind: string, method_: string, path: string) {
    SomeDeclares(h, h.site.commands, kind, method_, path)
  }

  /** `routeAllowed` */
  method FindRoute(h: Handler, kind: string, method_: string, path: string) returns (ok: bool)
    ensures ok <==> RouteAllowed(h, kind, method_, path)
  {
    var commands := h.site.commands;
    for n := 0 to |commands|
      invariant RouteAllowed(h, kind, method_, path) == SomeDeclares(h, commands[n..], kind, method_, path)
    {
      assert commands[n..][1..] == commands[n + 1..];
      var cmd := commands[n];
      if cmd.kind != kind {
        continue;
      }
      if kind == "api-call" {
        if !h.equalFold(cmd.method_, method_) {
          continue;
        }
      }
      var matches := MatchRoute(cmd.route, path);
      if matches {
        return true;
      }
    }
    return false;
  }

  lemma {:induction false} SomeDeclaresIff(h: Handler, commands: seq<CommandConfig>, kind: string, method_: string, path: string)
    ensures SomeDeclares(h, commands, kind, method_, path) <==>
            exists c :: c in commands && Declares(h, c, kind, method_, path)
  {
    if commands != [] {
      SomeDeclaresIff(h, commands[1..], kind, method_, path);
      assert commands == [commands[0]] + commands[1..];
    }
  }

  /** A route is allowed exactly when a declared command of that kind, with the same method, matches the path. */
  lemma RouteAllowedIffDeclared(h: Handler, kind: string, method_: string, path: string)
    ensures RouteAllowed(h, kind, method_, path) <==>
            exists c :: c in h.site.commands && c.kind == kind && RouteMatches(c.route, path) &&
                        (kind == "api-call" ==> h.equalFold(c.method_, method_))
  {
    SomeDeclaresIff(h, h.site.commands, kind, method_, path);
    if c :| c in h.site.commands && Declares(h, c, kind, method_, path) {
      assert c.kind == kind;
    }
    if c :| c in h.site.commands && c.kind == kind && RouteMatches(c.route, path) &&
            (kind == "api-call" ==> h.equalFold(c.method_, method_)) {
      assert Declares(h, c, kind, method_, path);
    }
  }

  // ----- Tool arguments

  /** The pairs read off `key=value` words, later ones winning; `Err` is the first bad word. */
  function ParseArguments(words: seq<string>): Result<map<string, string>, string> {
    if words == [] then Ok(map[])
    else
      var n := |words| - 1;
      var before := ParseArguments(words[..n]);
      var eq := IndexOf(words[n], '=');
      if before.Err? then before
      else if eq <= 0 then Err(words[n])
      else Ok(before.value[words[n][..eq] := words[n][eq + 1..]])
  }

  /** The argument loop of `Handler.mcp`. */
  method ReadArguments(words: seq<string>) returns (r: Result<map<string, string>, string>)
    ensures r == ParseArguments(words)
  {
    var arguments: map<string, string> := map[];
    for i := 0 to |words|
      invariant ParseArguments(words[..i]) == Ok(arguments)
    {
      assert words[..i + 1][..i] == words[..i];
      var kv := words[i];
      var eq := IndexOf(kv, '=');
      if eq <= 0 {
        FirstBadWord(words, i);
        return Err(kv);
      }
      arguments := arguments[kv[..eq] := kv[eq + 1..]];
    }
    assert words[..|words|] == words;
    return Ok(arguments);
  }

  lemma FirstBadWord(words: seq<string>, i: nat)
    requires i < |words| && ParseArguments(words[..i]).Ok? && IndexOf(words[i], '=') <= 0
    ensures ParseArguments(words) == Err(words[i])
  {
    NextWord(words, i);
    StaysBad(words, i + 1, |words|, Err(words[i]));
    assert words[..|words|] == words;
  }

  /** What one more word does to the answer. */
  lemma NextWord(words: seq<string>, i: nat)
    requires i < |words|
    ensures ParseArguments(words[..i]).Err? ==> ParseArguments(words[..i + 1]) == ParseArguments(words[..i])
    ensures ParseArguments(words[..i]).Ok? && IndexOf(words[i], '=') <= 0 ==>
              ParseArguments(words[..i + 1]) == Err(words[i])
  {
    assert words[..i + 1][..i] == words[..i];
  }

  /** A bad word stays the answer, whatever comes after it. */
  lemma {:induction false} StaysBad(words: seq<string>, i: nat, k: nat, bad: Result<map<string, string>, string>)
    requires i <= k <= |words| && bad.Err? && ParseArguments(words[..i]) == bad
    ensures ParseArguments(words[..k]) == bad
    decreases k
  {
    if i < k {
      StaysBad(words, i, k - 1, bad);
      NextWord(words, k - 1);
    }
  }

  // ----- Dispatch

  function ApiCall(h: Handler, args: seq<string>, sess: Session): Action {
    if |args| < 2 then Usage
    else if !RouteAllowed(h, "api-call", h.upper(args[0]), args[1]) || !h.hasBackend then NotConfigured
    else CallBackend(h.upper(args[0]), args[1], Join(args[2..], " "), sess)
  }

  function ProxyCall(h: Handler, args: seq<string>, binary: bool): Action {
    if |args| < 2 || h.upper(args[0]) != "GET" then Usage
    else if !h.hasProxy then NotConfigured
    else FetchProxied(args[1], binary)
  }

  function McpCall(h: Handler, args: seq<string>): Action {
    if args == [] then Usage
    else if !h.hasMcp then NotConfigured
    else
      var arguments := ParseArguments(args[1..]);
      if arguments.Err? then Usage else CallTool(args[0], arguments.value)
  }

  function RouteOf(args: seq<string>): string {
    if args == [] then "/" else args[0]
  }

  /** Whether `buildPackfile` succeeds. */
  predicate Builds(h: Handler, route: string) {
    h.site.root != "" && h.content(route)
  }

  /** `receivePack`: a summary of the packfile. */
  function PackSummary(h: Handler, args: seq<string>): Action {
    if Builds(h, RouteOf(args)) then ServePack(RouteOf(args), false) else NoContent
  }

  /** `receivePackBinary`: the packfile's bytes, or what the backend has at that path. */
  function PackBytes(h: Handler, args: seq<string>, sess: Session): Action {
    if h.site.root != "" && h.content(RouteOf(args)) then ServePack(RouteOf(args), true)
    else if !h.hasBackend then NoContent
    else FetchResource(RouteOf(args), sess)
  }

  datatype Verb = Capabilities | ReceivePack | ApiCallVerb | ProxyCallVerb | RssFeed | Sitemap | Robots | Mcp | Other

  function VerbOf(cmd: string): (v: Verb)
    ensures v == Capabilities <==> cmd == "capabilities"
    ensures v == ApiCallVerb <==> cmd == "api-call"
  {
    if cmd == "capabilities" then Capabilities
    else if cmd == "receive-pack" then ReceivePack
    else if cmd == "api-call" then ApiCallVerb
    else if cmd == "proxy-call" then ProxyCallVerb
    else if cmd == "rss-feed" then RssFeed
    else if cmd == "sitemap" then Sitemap
    else if cmd == "robots" then Robots
    else if cmd == "mcp" then Mcp
    else Other
  }

  predicate MayRun(h: Handler, cmd: string, args: seq<string>, sess: Session) {
    VerbOf(cmd) == Capabilities || Allowed(sess.tier, JoinCommand(cmd, args), h.site.auth)
  }

  /** The switch at the end of `Execute`. */
  function Dispatch(h: Handler, verb: Verb, args: seq<string>, sess: Session): (a: Action)
    ensures a != Denied
    ensures a.CallBackend? <==> verb == ApiCallVerb && ApiCall(h, args, sess).CallBackend?
  {
    match verb
    case Capabilities => ShowCapabilities
    case ReceivePack => PackSummary(h, args)
    case ApiCallVerb => ApiCall(h, args, sess)
    case ProxyCallVerb => ProxyCall(h, args, false)
    case RssFeed => ShowFeed(args)
    case Sitemap => ShowSitemap
    case Robots => ShowRobots
    case Mcp => McpCall(h, args)
    case Other => Unknown
  }

  /** `Execute`, the text form. */
  function Execute(h: Handler, cmd: string, args: seq<string>, sess: Session): (a: Action)
    ensures a == Denied <==> !MayRun(h, cmd, args, sess)
  {
    if MayRun(h, cmd, args, sess) then Dispatch(h, VerbOf(cmd), args, sess) else Denied
  }

  /** `ExecuteBinary`, which falls back to the text form and then checks again. */
  function ExecuteBinary(h: Handler, cmd: string, args: seq<string>, sess: Session): (a: Action)
    ensures a == Denied <==> !MayRun(h, cmd, args, sess)
    ensures a.CallBackend? <==> Execute(h, cmd, args, sess).CallBackend?
  {
    if !MayRun(h, cmd, args, sess) then Denied
    else if VerbOf(cmd) == ReceivePack then PackBytes(h, args, sess)
    else if VerbOf(cmd) == ProxyCallVerb then ProxyCall(h, args, true)
    else Execute(h, cmd, args, sess)
  }

  /** The same action with binary output, where it has any. */
  function InBinary(a: Action): Action {
    match a
    case ServePack(route, _) => ServePack(route, true)
    case FetchProxied(url, _) => FetchProxied(url, true)
    case _ => a
  }

  /** A permitted `receive-pack` for which only the binary form has something to serve: the backend's answer. */
  predicate FallsBack(h: Handler, cmd: string, args: seq<string>, sess: Session) {
    MayRun(h, cmd, args, sess) && VerbOf(cmd) == ReceivePack && h.hasBackend && !Builds(h, RouteOf(args))
  }

  lemma PackForms(h: Handler, args: seq<string>, sess: Session)
    ensures InBinary(PackSummary(h, args)) == PackBytes(h, args, sess) <==> !h.hasBackend || Builds(h, RouteOf(args))
  {
  }

  lemma DispatchInBinary(h: Handler, verb: Verb, args: seq<string>, sess: Session)
    ensures InBinary(Dispatch(h, verb, args, sess)) ==
            if verb == ReceivePack then InBinary(PackSummary(h, args))
            else if verb == ProxyCallVerb then ProxyCall(h, args, true)
            else Dispatch(h, verb, args, sess)
  {
  }

  /**
    The two forms do the same, up to the output's form, if and only if the command is not a
    `receive-pack` that falls back; then the text form fails and the binary one asks the backend.
   */
  lemma FormsAgreeIff(h: Handler, cmd: string, args: seq<string>, sess: Session)
    ensures ExecuteBinary(h, cmd, args, sess) == InBinary(Execute(h, cmd, args, sess)) <==> !FallsBack(h, cmd, args, sess)
    ensures FallsBack(h, cmd, args, sess) ==>
      Execute(h, cmd, args, sess) == NoContent && ExecuteBinary(h, cmd, args, sess) == FetchResource(RouteOf(args), sess)
  {
    if MayRun(h, cmd, args, sess) {
      DispatchInBinary(h, VerbOf(cmd), args, sess);
      PackForms(h, args, sess);
    }
  }

  /** What the words of a line need to be permitted: some inherited entry covers them. */
  ghost predicate Covered(h: Handler, words: seq<string>, sess: Session)
    requires words != []
  {
    Covers(Granted(sess.tier, h.site.auth), words)
  }

  /** The actions that send the backend a request. */
  predicate AsksBackend(a: Action) {
    a.CallBackend? || a.FetchResource?
  }

  lemma Verbs(cmd: string)
    ensures VerbOf(cmd) == ProxyCallVerb <==> cmd == "proxy-call"
    ensures VerbOf(cmd) == ReceivePack <==> cmd == "receive-pack"
    ensures VerbOf(cmd) == ApiCallVerb <==> cmd == "api-call"
    ensures cmd == "proxy-call" || cmd == "receive-pack" || cmd == "api-call" ==> cmd != "capabilities"
  {
  }

  lemma BackendAction(h: Handler, cmd: string, args: seq<string>, sess: Session)
    ensures var a := ExecuteBinary(h, cmd, args, sess);
      && (a.CallBackend? <==> MayRun(h, cmd, args, sess) && VerbOf(cmd) == ApiCallVerb && ApiCall(h, args, sess).CallBackend?)
      && (a.CallBackend? ==> a == ApiCall(h, args, sess))
      && (a.FetchResource? <==> FallsBack(h, cmd, args, sess))
      && (a.FetchResource? ==> a == FetchResource(RouteOf(args), sess))
  {
    DispatchAsks(h, VerbOf(cmd), args, sess);
  }

  lemma DispatchAsks(h: Handler, verb: Verb, args: seq<string>, sess: Session)
    ensures !Dispatch(h, verb, args, sess).FetchResource?
    ensures Dispatch(h, verb, args, sess).CallBackend? ==> Dispatch(h, verb, args, sess) == ApiCall(h, args, sess)
  {
  }

  /** An api call that the operator declared. */
  predicate AsksDeclaredCall(h: Handler, words: seq<string>) {
    |words| >= 3 && words[0] == "api-call" && RouteAllowed(h, "api-call", h.upper(words[1]), words[2])
  }

  /** A `receive-pack` of something that cannot be packed. */
  predicate AsksUnpackable(h: Handler, words: seq<string>) {
    words != [] && words[0] == "receive-pack" && !Builds(h, RouteOf(words[1..]))
  }

  /**
    From the command line to the backend: it is sent a request exactly when there is one, an
    inherited entry covers the words of the line, and the line is a declared api call or a
    `receive-pack` of something that cannot be packed.
   */
  lemma BackendReachedIff(h: Handler, line: string, sess: Session)
    requires Fields(line) != []
    ensures var words := Fields(line);
      AsksBackend(ExecuteBinary(h, words[0], words[1..], sess)) <==>
        h.hasBackend && Covered(h, words, sess) && (AsksDeclaredCall(h, words) || AsksUnpackable(h, words))
  {
    var words := Fields(line);
    Verbs(words[0]);
    BackendAction(h, words[0], words[1..], sess);
    MayRunIffCovered(h, line, sess);
  }

  /** An api call is forwarded exactly when it is covered and declared and there is a backend. */
  lemma CallForwardedIff(h: Handler, line: string, sess: Session)
    requires Fields(line) != []
    ensures var words := Fields(line);
      ExecuteBinary(h, words[0], words[1..], sess).CallBackend? <==>
        h.hasBackend && Covered(h, words, sess) && AsksDeclaredCall(h, words)
  {
    var words := Fields(line);
    Verbs(words[0]);
    BackendAction(h, words[0], words[1..], sess);
    MayRunIffCovered(h, line, sess);
  }

  /**
    What the backend is sent: the method in upper case, the path as written, the other words
    with single spaces between them, and the session as it is.
   */
  lemma ForwardedAsAsked(h: Handler, line: string, sess: Session)
    requires Fields(line) != []
    requires ExecuteBinary(h, Fields(line)[0], Fields(line)[1..], sess).CallBackend?
    ensures var words, a := Fields(line), ExecuteBinary(h, Fields(line)[0], Fields(line)[1..], sess);
      && |words| >= 3 && a.method_ == h.upper(words[1]) && a.path == words[2] && a.session == sess
      && (if |words| == 3 then a.body == "" else Split(a.body, ' ') == words[3..])
  {
    FieldsAreTokens(line);
    CallIs(h, Fields(line), sess);
    OtherWords(Fields(line));
  }

  lemma CallIs(h: Handler, words: seq<string>, sess: Session)
    requires words != [] && ExecuteBinary(h, words[0], words[1..], sess).CallBackend?
    ensures |words| >= 3
    ensures ExecuteBinary(h, words[0], words[1..], sess) ==
            CallBackend(h.upper(words[1]), words[2], Join(words[3..], " "), sess)
  {
    BackendAction(h, words[0], words[1..], sess);
    assert words[1..][2..] == words[3..];
  }

  lemma OtherWords(words: seq<string>)
    requires |words| >= 3 && AllTokens(words)
    ensures if |words| == 3 then Join(words[3..], " ") == "" else Split(Join(words[3..], " "), ' ') == words[3..]
  {
    if |words| > 3 {
      NoSpaceInTokens(words[3..]);
      SplitOfJoin(words[3..], ' ');
    }
  }

  lemma NoSpaceInTokens(words: seq<string>)
    requires AllTokens(words)
    ensures forall i :: 0 <= i < |words| ==> ' ' !in words[i]
  {
  }

  lemma VerbsByValue(cmd: string)
    ensures VerbOf(cmd) == Capabilities <==> cmd == "capabilities"
    ensures VerbOf(cmd) == RssFeed <==> cmd == "rss-feed"
    ensures VerbOf(cmd) == Sitemap <==> cmd == "sitemap"
    ensures VerbOf(cmd) == Robots <==> cmd == "robots"
    ensures VerbOf(cmd) == Mcp <==> cmd == "mcp"
    ensures VerbOf(cmd) == Other <==>
      cmd !in {"capabilities", "receive-pack", "api-call", "proxy-call", "rss-feed", "sitemap", "robots", "mcp"}
  {
  }

  lemma PlainActions(h: Handler, cmd: string, args: seq<string>, sess: Session)
    requires MayRun(h, cmd, args, sess)
    ensures var a := ExecuteBinary(h, cmd, args, sess);
      && (VerbOf(cmd) == Capabilities ==> a == ShowCapabilities)
      && (VerbOf(cmd) == RssFeed ==> a == ShowFeed(args))
      && (VerbOf(cmd) == Sitemap ==> a == ShowSitemap)
      && (VerbOf(cmd) == Robots ==> a == ShowRobots)
      && (VerbOf(cmd) == Other ==> a == Unknown)
  {
  }

  /** What the verbs that only show something do, and that there are no others. */
  lemma EachVerb(h: Handler, line: string, sess: Session)
    requires Fields(line) != [] && (Covered(h, Fields(line), sess) || Fields(line)[0] == "capabilities")
    ensures var words, a := Fields(line), ExecuteBinary(h, Fields(line)[0], Fields(line)[1..], sess);
      && (words[0] == "capabilities" ==> a == ShowCapabilities)
      && (words[0] == "rss-feed" ==> a == ShowFeed(words[1..]))
      && (words[0] == "sitemap" ==> a == ShowSitemap)
      && (words[0] == "robots" ==> a == ShowRobots)
      && (words[0] !in {"capabilities", "receive-pack", "api-call", "proxy-call", "rss-feed", "sitemap", "robots", "mcp"} ==>
            a == Unknown)
  {
    var words := Fields(line);
    MayRunIffCovered(h, line, sess);
    VerbsByValue(words[0]);
    PlainActions(h, words[0], words[1..], sess);
  }

  /** `receive-pack` by itself is for `/`, and asks for the path it is given otherwise. */
  lemma PackedAsAsked(h: Handler, line: string, sess: Session)
    requires Fields(line) != [] && Fields(line)[0] == "receive-pack" && Covered(h, Fields(line), sess)
    ensures var words, a := Fields(line), ExecuteBinary(h, Fields(line)[0], Fields(line)[1..], sess);
      var route := if |words| > 1 then words[1] else "/";
      a == if h.site.root != "" && h.content(route) then ServePack(route, true)
           else if h.hasBackend then FetchResource(route, sess)
           else NoContent
  {
    var words := Fields(line);
    MayRunIffCovered(h, line, sess);
    Verbs(words[0]);
    PackAction(h, words[0], words[1..], sess);
  }

  lemma PackAction(h: Handler, cmd: string, args: seq<string>, sess: Session)
    requires MayRun(h, cmd, args, sess) && VerbOf(cmd) == ReceivePack
    ensures ExecuteBinary(h, cmd, args, sess) == PackBytes(h, args, sess)
  {
  }

  /** What is forwarded was declared: for a call its method and path, for a resource its path. */
  predicate ForwardsDeclared(h: Handler, a: Action) {
    match a
    case CallBackend(method_, path, _, _) => RouteAllowed(h, "api-call", method_, path)
    case FetchResource(path, _) => RouteAllowed(h, "receive-pack", "GET", path)
    case _ => true
  }

  /**
    The comment on `routeAllowed` says that only declared routes are forwarded. One that was
    not is forwarded exactly for a covered `receive-pack` that cannot be packed and that no
    `receive-pack` command declares, if there is a backend.
   */
  lemma UndeclaredForwardedIff(h: Handler, line: string, sess: Session)
    requires Fields(line) != []
    ensures var words := Fields(line);
      !ForwardsDeclared(h, ExecuteBinary(h, words[0], words[1..], sess)) <==>
        && h.hasBackend && Covered(h, words, sess) && AsksUnpackable(h, words)
        && !RouteAllowed(h, "receive-pack", "GET", RouteOf(words[1..]))
  {
    var words := Fields(line);
    Verbs(words[0]);
    UndeclaredAction(h, words[0], words[1..], sess);
    MayRunIffCovered(h, line, sess);
  }

  lemma UndeclaredAction(h: Handler, cmd: string, args: seq<string>, sess: Session)
    ensures !ForwardsDeclared(h, ExecuteBinary(h, cmd, args, sess)) <==>
            FallsBack(h, cmd, args, sess) && !RouteAllowed(h, "receive-pack", "GET", RouteOf(args))
  {
    BackendAction(h, cmd, args, sess);
    CallsAreDeclared(h, args, sess);
  }

  lemma CallsAreDeclared(h: Handler, args: seq<string>, sess: Session)
    ensures ForwardsDeclared(h, ApiCall(h, args, sess))
  {
  }

  /** An upstream is contacted only for a covered line that asks to fetch it. */
  lemma ProxyReachedIffPermitted(h: Handler, line: string, sess: Session)
    requires Fields(line) != []
    ensures var words := Fields(line);
      var a := ExecuteBinary(h, words[0], words[1..], sess);
      && (a.FetchProxied? <==>
            && |words| >= 3 && words[0] == "proxy-call" && h.upper(words[1]) == "GET" && h.hasProxy
            && Covered(h, words, sess))
      && (a.FetchProxied? ==> a == FetchProxied(words[2], true))
  {
    var words := Fields(line);
    MayRunIffCovered(h, line, sess);
    ProxyAction(h, words[0], words[1..], sess);
    Verbs(words[0]);
  }

  lemma ProxyAction(h: Handler, cmd: string, args: seq<string>, sess: Session)
    ensures var a := ExecuteBinary(h, cmd, args, sess);
      && (a.FetchProxied? <==> MayRun(h, cmd, args, sess) && VerbOf(cmd) == ProxyCallVerb
                               && |args| >= 2 && h.upper(args[0]) == "GET" && h.hasProxy)
      && (a.FetchProxied? ==> a == FetchProxied(args[1], true))
  {
    if VerbOf(cmd) == ProxyCallVerb {
      assert ExecuteBinary(h, cmd, args, sess) == if MayRun(h, cmd, args, sess) then ProxyCall(h, args, true) else Denied;
    } else {
      OthersDoNotFetch(h, VerbOf(cmd), args, sess);
    }
  }

  lemma OthersDoNotFetch(h: Handler, verb: Verb, args: seq<string>, sess: Session)
    requires verb != ProxyCallVerb
    ensures !Dispatch(h, verb, args, sess).FetchProxied?
  {
  }

  lemma MayRunIffCovered(h: Handler, line: string, sess: Session)
    requires Fields(line) != []
    ensures var words := Fields(line);
      MayRun(h, words[0], words[1..], sess) <==> words[0] == "capabilities" || Covered(h, words, sess)
  {
    FieldsAreTokens(line);
    RejoinedWords(Fields(line));
  }

  /**
    From the line on: where one entry of words is all that is granted, a line other than
    `capabilities` is permitted, to every tier, if and only if it begins with those words.
   */
  lemma OneEntryPermits(h: Handler, line: string, sess: Session, left: string, ws: seq<string>, gaps: seq<string>, right: string)
    requires Fields(line) != [] && Fields(line)[0] != "capabilities" && sess.tier in {"anonymous", "identified", "trusted"}
    requires ws != [] && |gaps| == |ws| && AllTokens(ws) && AllGaps(gaps) && AllSpace(left) && AllSpace(right)
    requires var last := ws[|ws| - 1]; last[|last| - 1] != '*'
    requires h.site.auth == AuthConfig([left + (Spaced(ws, gaps) + right)], [], [])
    ensures var words := Fields(line);
      ExecuteBinary(h, words[0], words[1..], sess) != Denied <==> ws <= words
  {
    var words, entry := Fields(line), left + (Spaced(ws, gaps) + right);
    EntryOfWords(left, ws, gaps, right, words);
    OnlyEntryOfWords(entry, ws, words);
    OneGranted(h, entry, sess);
    UncoveredLineDoesNothing(h, line, sess);
  }

  lemma OneGranted(h: Handler, entry: string, sess: Session)
    requires h.site.auth == AuthConfig([entry], [], []) && sess.tier in {"anonymous", "identified", "trusted"}
    ensures Granted(sess.tier, h.site.auth) == [entry]
  {
    GrantedByValue(h.site.auth);
    assert [entry] + [] == [entry];
  }

  /** Nothing but the capabilities is done for a line no inherited entry covers. */
  lemma UncoveredLineDoesNothing(h: Handler, line: string, sess: Session)
    requires Fields(line) != [] && Fields(line)[0] != "capabilities"
    ensures var words := Fields(line);
      && (ExecuteBinary(h, words[0], words[1..], sess) == Denied <==> !Covered(h, words, sess))
      && (Execute(h, words[0], words[1..], sess) == Denied <==> !Covered(h, words, sess))
  {
    MayRunIffCovered(h, line, sess);
  }

  // ----- A route that nobody declared

  /** No root, a backend, `receive-pack /` declared and granted to everybody. */
  predicate ResourcesOnly(h: Handler) {
    && h.site.root == "" && h.hasBackend
    && h.site.commands == [CommandConfig("receive-pack", "", "/")] && h.site.auth == AuthConfig(["receive-pack"], [], [])
  }

  lemma ReceivePackCovered(words: seq<string>, entries: seq<string>, entry: string)
    requires words != [] && words[0] == entry && IsToken(entry) && !HasSuffix(entry, "*") && entries == [entry]
    ensures Covers(entries, words)
  {
    VerbEntryMatches(entry, words);
    FirstCovers(entries, words, entry);
  }

  /** `/` declares nothing but itself among the paths of one segment. */
  lemma RootDeclaresNoSegment(root: string, segment: string)
    requires root == "/" && PlainSegments([segment])
    ensures !RouteMatches(root, Route([segment]))
  {
    assert [segment][0] == segment != "";
    SegmentsOfRoute([segment]);
    QueryFree(Route([segment]));
    RootSegments(root);
    EmptySegmentOnly("", segment);
    assert |Route([segment])| > |root|;
  }

  lemma EmptySegmentOnly(empty: string, segment: string)
    requires empty == "" && segment != ""
    ensures !SegmentsMatch([empty], [segment])
  {
    assert |"{"| == 1 && [empty][0] == empty;
    assert !IsCatchAll(empty) && !IsParameter(empty);
    assert !OpensWith([empty], [segment], 1);
  }

  lemma QueryFree(path: string)
    requires '?' !in path
    ensures WithoutQuery(path) == path
  {
  }

  lemma RootSegments(root: string)
    requires root == "/"
    ensures Segments(root) == [""]
  {
    assert root[1..] == "";
    assert TrimLeft(root, IsSlash) == "";
  }

  /** For one: such a site sends the backend any path of one segment. */
  lemma UndeclaredResource(h: Handler, segment: string, sess: Session)
    requires ResourcesOnly(h) && PlainSegments([segment]) && IsToken(segment) && sess.tier == TIER_ANONYMOUS
    ensures var words := Fields("receive-pack" + (" " + Route([segment])));
      && words == ["receive-pack", Route([segment])]
      && ExecuteBinary(h, words[0], words[1..], sess) == FetchResource(Route([segment]), sess)
      && !RouteAllowed(h, "receive-pack", "GET", Route([segment]))
  {
    var path := Route([segment]);
    FieldsOfTwo("receive-pack", path);
    ResourceAsked(h, "receive-pack" + (" " + path), "receive-pack", path, sess);
    RootDeclaresNoSegment("/", segment);
    OneCommand(h, h.site.commands[0], path);
  }

  lemma ResourceAsked(h: Handler, line: string, verb: string, path: string, sess: Session)
    requires ResourcesOnly(h) && verb == "receive-pack" && Fields(line) == [verb, path] && sess.tier == TIER_ANONYMOUS
    ensures ExecuteBinary(h, Fields(line)[0], Fields(line)[1..], sess) == FetchResource(path, sess)
  {
    var words := Fields(line);
    FieldsAreTokens(line);
    assert IsToken(words[0]);
    EndsInK(verb);
    ReceivePackCovered(words, h.site.auth.anonymous, verb);
    Inherited(h.site.auth);
    MayRunIffCovered(h, line, sess);
    Verbs(verb);
    BackendAction(h, verb, words[1..], sess);
  }

  lemma EndsInK(verb: string)
    requires verb == "receive-pack"
    ensures !HasSuffix(verb, "*")
  {
    assert verb[|verb| - 1..][0] == 'k';
  }

  lemma OneCommand(h: Handler, c: CommandConfig, path: string)
    requires h.site.commands == [c] && !RouteMatches(c.route, path)
    ensures !RouteAllowed(h, "receive-pack", "GET", path)
  {
    RouteAllowedIffDeclared(h, "receive-pack", "GET", path);
  }

  /** `/admin`, say. */
  lemma AdminIsForwarded(h: Handler, sess: Session)
    requires ResourcesOnly(h) && sess.tier == TIER_ANONYMOUS
    ensures var words := Fields("receive-pack" + (" " + Route(["admin"])));
      ExecuteBinary(h, words[0], words[1..], sess) == FetchResource("/admin", sess)
  {
    assert Route(["admin"]) == "/admin";
    UndeclaredResource(h, "admin", sess);
  }
}
