/**
  A printer for configurations, and the proof that the parser undoes it: one directive to a
  line, with any blank lines, indentation and comments between the directives.
 */
module ConfigPrinter {
  import opened Config
  import opened ConfigMeta
  import opened ConfigSyntax
  import opened Strconv
  import opened Strings
  import opened Wrappers

  // ----- Layout

  /** Blanks and whole comments. */
  predicate IsGap(g: string)
    decreases |g|
  {
    if g == "" then true
    else if g[0] == '#' then
      var n := Span(g, IsNewline);
      assert n > 0;
      n < |g| && IsGap(g[n..])
    else IsBlank(g[0]) && IsGap(g[1..])
  }

  /** What may end a directive: a newline or a comment, then more of the same. */
  predicate IsBreak(g: string) {
    g != "" && EndsLine(g[0]) && IsGap(g)
  }

  /** What to put at each line end, chosen by how much of the text is still to come. */
  type Layout = nat -> string

  ghost predicate GoodLayout(lay: Layout) {
    forall n :: IsBreak(lay(n))
  }

  function Break(lay: Layout, tail: string): string {
    lay(|tail|) + tail
  }

  // ----- What can be printed

  ghost predicate IsWord(w: string) {
    w != "" && forall i :: 0 <= i < |w| ==> !EndsWord(w[i])
  }

  ghost predicate IsOptionalWord(w: string) {
    w == "" || IsWord(w)
  }

  ghost predicate PrintableCommand(c: CommandConfig) {
    && IsWord(c.kind)
    && if c.kind == "api-call"
       then IsToken(c.method_) && IsToken(c.route) && OnOneLine(c.method_) && OnOneLine(c.route)
       else c.method_ == "" && Trimmed(c.route) && OnOneLine(c.route)
  }

  ghost predicate PrintableCommands(cmds: seq<CommandConfig>) {
    cmds == [] || (PrintableCommand(cmds[0]) && PrintableCommands(cmds[1..]))
  }

  ghost predicate PrintableItem(item: string) {
    item != "" && Trimmed(item) && item[0] != '#' && forall i :: 0 <= i < |item| ==> !EndsItem(item[i])
  }

  ghost predicate PrintableList(items: seq<string>) {
    items == [] || (PrintableItem(items[0]) && PrintableList(items[1..]))
  }

  ghost predicate PrintableAuth(auth: AuthConfig) {
    PrintableList(auth.anonymous) && PrintableList(auth.identified) && PrintableList(auth.trusted)
  }

  ghost predicate PrintableCache(pc: ProxyCacheConfig) {
    && (forall i :: 0 <= i < |pc.allowedOrigins| ==> IsWord(pc.allowedOrigins[i]))
    && IsOptionalWord(pc.ttl) && IsOptionalWord(pc.maxSize) && IsOptionalWord(pc.storagePath)
    && IsInt64(pc.maxRedirects)
  }

  ghost predicate PrintableLimits(l: LimitsConfig) {
    IsOptionalWord(l.anonymous) && IsOptionalWord(l.identified) && IsOptionalWord(l.trusted)
  }

  /** A `stdio` server may have any command, whatever characters it contains. */
  ghost predicate PrintableMcp(m: MCPConfig) {
    && PrintableAuth(m.auth)
    && if m.transport == "stdio" then m.url == "" else m.transport == "http" && IsWord(m.url) && m.command == ""
  }

  ghost predicate PrintableSite(site: SiteConfig) {
    && IsWord(site.host) && IsInt64(site.port)
    && IsOptionalWord(site.hostKey) && IsOptionalWord(site.root)
    && IsOptionalWord(site.backend) && IsOptionalWord(site.authorizedKeys)
    && PrintableCommands(site.commands)
    && PrintableCache(site.proxyCache) && PrintableAuth(site.auth) && PrintableLimits(site.limits)
    && (site.mcp.Some? ==> PrintableMcp(site.mcp.value))
    && PrintableMeta(site.meta)
  }

  ghost predicate Printable(cfg: Config) {
    forall i :: 0 <= i < |cfg.sites| ==> PrintableSite(cfg.sites[i])
  }

  // ----- The printer; `tail` is the text that comes after

  function Line(lay: Layout, keyword: string, value: string, tail: string): string {
    keyword + (" " + (value + Break(lay, tail)))
  }

  function OptionalLine(lay: Layout, keyword: string, value: string, tail: string): string {
    if value == "" then tail else Line(lay, keyword, value, tail)
  }

  function Opening(lay: Layout, keyword: string, tail: string): string {
    keyword + (" {" + Break(lay, tail))
  }

  function Closing(lay: Layout, tail: string): string {
    "}" + Break(lay, tail)
  }

  function CommandText(c: CommandConfig): string {
    if c.kind == "api-call" then c.method_ + (" " + c.route) else c.route
  }

  function CommandLines(lay: Layout, cmds: seq<CommandConfig>, tail: string): string {
    if cmds == [] then tail
    else Line(lay, cmds[0].kind, CommandText(cmds[0]), CommandLines(lay, cmds[1..], tail))
  }

  function ListText(items: seq<string>, tail: string): string {
    if items == [] then "]" + tail
    else items[0] + ((if |items| == 1 then "" else ", ") + ListText(items[1..], tail))
  }

  function GrantLine(lay: Layout, tier: string, items: seq<string>, tail: string): string {
    tier + (" [" + ListText(items, Break(lay, tail)))
  }

  function TierLine(lay: Layout, tier: string, items: seq<string>, tail: string): string {
    if items == [] then tail else GrantLine(lay, tier, items, tail)
  }

  function AuthLines(lay: Layout, auth: AuthConfig, tail: string): string {
    TierLine(lay, TIER_ANONYMOUS, auth.anonymous,
      TierLine(lay, TIER_IDENTIFIED, auth.identified,
        TierLine(lay, TIER_TRUSTED, auth.trusted, tail)))
  }

  function CacheName(keyword: CacheKeyword): string {
    match keyword
    case Allow => "allow"
    case Deny => "deny"
    case Ttl => "ttl"
    case MaxSize => "max-size"
    case Storage => "storage"
    case MaxRedirects => "max-redirects"
    case AllowPrivateIPs => "allow-private-ips"
    case AllowRedirects => "allow-redirects"
    case OtherKey => ""
  }

  function OriginLines(lay: Layout, origins: seq<string>, tail: string): string {
    if origins == [] then tail else Line(lay, CacheName(Allow), origins[0], OriginLines(lay, origins[1..], tail))
  }

  function BoolText(b: bool): string {
    if b then "true" else "false"
  }

  function CacheLines(lay: Layout, pc: ProxyCacheConfig, tail: string): string {
    OriginLines(lay, pc.allowedOrigins, DenyLine(lay, pc, SizeLines(lay, pc, RedirectLines(lay, pc, tail))))
  }

  function DenyLine(lay: Layout, pc: ProxyCacheConfig, tail: string): string {
    OptionalLine(lay, CacheName(Deny), if pc.denyAll then "*" else "", tail)
  }

  function SizeLines(lay: Layout, pc: ProxyCacheConfig, tail: string): string {
    OptionalLine(lay, CacheName(Ttl), pc.ttl,
      OptionalLine(lay, CacheName(MaxSize), pc.maxSize,
        OptionalLine(lay, CacheName(Storage), pc.storagePath, tail)))
  }

  function RedirectLines(lay: Layout, pc: ProxyCacheConfig, tail: string): string {
    Line(lay, CacheName(MaxRedirects), Itoa(pc.maxRedirects),
      Line(lay, CacheName(AllowPrivateIPs), BoolText(pc.allowPrivateIPs),
        OptionalLine(lay, CacheName(AllowRedirects), FollowText(pc), tail)))
  }

  function FollowText(pc: ProxyCacheConfig): string {
    match pc.allowRedirects
    case None => ""
    case Some(b) => BoolText(b)
  }

  function LimitLines(lay: Layout, l: LimitsConfig, tail: string): string {
    OptionalLine(lay, TIER_ANONYMOUS, l.anonymous,
      OptionalLine(lay, TIER_IDENTIFIED, l.identified,
        OptionalLine(lay, TIER_TRUSTED, l.trusted, tail)))
  }

  /** A quote or a backslash gets a backslash in front. */
  function Escaped(text: string, tail: string): string {
    if text == "" then tail
    else if text[0] == '"' || text[0] == '\\' then ['\\', text[0]] + Escaped(text[1..], tail)
    else [text[0]] + Escaped(text[1..], tail)
  }

  function Quoted(text: string, tail: string): string {
    "\"" + Escaped(text, "\"" + tail)
  }

  function ServerLine(lay: Layout, m: MCPConfig, tail: string): string {
    if m.transport == "stdio" then "server" + (" " + ("stdio" + (" " + Quoted(m.command, Break(lay, tail)))))
    else "server" + (" " + ("http" + (" " + (m.url + Break(lay, tail)))))
  }

  function McpLines(lay: Layout, m: MCPConfig, tail: string): string {
    ServerLine(lay, m, Opening(lay, "auth", AuthLines(lay, m.auth, Closing(lay, tail))))
  }

  function SiteName(keyword: SiteKeyword): string {
    match keyword
    case Port => "port"
    case HostKey => "host-key"
    case Root => "root"
    case Backend => "backend"
    case AuthorizedKeys => "authorized-keys"
    case Commands => "commands"
    case Meta => "meta"
    case Mcp => "mcp"
    case ProxyCache => "proxy-cache"
    case Auth => "auth"
    case Limits => "limits"
    case OtherWord => ""
  }

  function BlockLines(lay: Layout, site: SiteConfig, tail: string): string {
    Opening(lay, SiteName(Commands), CommandLines(lay, site.commands, Closing(lay,
      Opening(lay, SiteName(ProxyCache), CacheLines(lay, site.proxyCache, Closing(lay,
        Opening(lay, SiteName(Auth), AuthLines(lay, site.auth, Closing(lay,
          Opening(lay, SiteName(Limits), LimitLines(lay, site.limits, Closing(lay,
            McpText(lay, site.mcp, MetaText(lay, site.meta, tail))))))))))))))
  }

  function McpText(lay: Layout, mcp: Option<MCPConfig>, tail: string): string {
    match mcp
    case None => tail
    case Some(m) => Opening(lay, SiteName(Mcp), McpLines(lay, m, Closing(lay, tail)))
  }

  function FeedLines(lay: Layout, feeds: seq<FeedConfig>, tail: string): string {
    if feeds == [] then tail else Line(lay, RSS_FEED, FeedText(feeds[0]), FeedLines(lay, feeds[1..], tail))
  }

  function SitemapLines(lay: Layout, s: SitemapConfig, tail: string): string {
    if s.path == "" then tail else Line(lay, SITEMAP, SitemapText(s), tail)
  }

  function MetaLines(lay: Layout, m: MetaConfig, tail: string): string {
    FeedLines(lay, m.feeds, SitemapLines(lay, m.sitemap, Line(lay, ROBOTS, RobotsText(m.robots), tail)))
  }

  function MetaText(lay: Layout, m: MetaConfig, tail: string): string {
    Opening(lay, SiteName(Meta), MetaLines(lay, m, Closing(lay, tail)))
  }

  function SiteLines(lay: Layout, site: SiteConfig, tail: string): string {
    Line(lay, SiteName(Port), Itoa(site.port), WordLines(lay, site, BlockLines(lay, site, tail)))
  }

  function WordLines(lay: Layout, site: SiteConfig, tail: string): string {
    PathLines(lay, site, UpstreamLines(lay, site, tail))
  }

  function PathLines(lay: Layout, site: SiteConfig, tail: string): string {
    OptionalLine(lay, SiteName(HostKey), site.hostKey, OptionalLine(lay, SiteName(Root), site.root, tail))
  }

  function UpstreamLines(lay: Layout, site: SiteConfig, tail: string): string {
    OptionalLine(lay, SiteName(Backend), site.backend,
      OptionalLine(lay, SiteName(AuthorizedKeys), site.authorizedKeys, tail))
  }

  function SitesText(lay: Layout, sites: seq<SiteConfig>, tail: string): string {
    if sites == [] then tail
    else "site" + (" " + Opening(lay, sites[0].host, SiteLines(lay, sites[0], Closing(lay, SitesText(lay, sites[1..], tail)))))
  }

  function Print(lay: Layout, cfg: Config): string {
    Break(lay, SitesText(lay, cfg.sites, ""))
  }

  // ----- Scanning

  lemma {:induction false} SpanOf(a: string, b: string, stop: char -> bool)
    requires forall i :: 0 <= i < |a| ==> !stop(a[i])
    requires b == "" || stop(b[0])
    ensures Span(a + b, stop) == |a|
  {
    if a == "" {
      assert a + b == b;
    } else {
      assert (a + b)[1..] == a[1..] + b;
      SpanOf(a[1..], b, stop);
    }
  }

  lemma {:induction false} SpanInside(a: string, b: string, stop: char -> bool)
    requires Span(a, stop) < |a|
    ensures Span(a + b, stop) == Span(a, stop)
  {
    if !stop(a[0]) {
      assert (a + b)[1..] == a[1..] + b;
      SpanInside(a[1..], b, stop);
    }
  }

  /** The parser cannot tell whether a gap is there. */
  lemma {:induction false} SkipGap(g: string, s: string)
    requires IsGap(g)
    ensures SkipSpace(g + s) == SkipSpace(s)
    decreases |g|
  {
    if g == "" {
      assert g + s == s;
    } else if g[0] == '#' {
      var n := Span(g, IsNewline);
      SpanInside(g, s, IsNewline);
      assert (g + s)[n..] == g[n..] + s;
      SkipGap(g[n..], s);
    } else {
      assert (g + s)[1..] == g[1..] + s;
      SkipGap(g[1..], s);
    }
  }

  lemma FirstThenRest<T>(done: seq<T>, xs: seq<T>)
    requires xs != []
    ensures done + [xs[0]] + xs[1..] == done + xs
  {
  }

  lemma SkipBreak(lay: Layout, tail: string)
    requires GoodLayout(lay)
    ensures SkipSpace(Break(lay, tail)) == SkipSpace(tail)
    ensures Break(lay, tail) != "" && EndsLine(Break(lay, tail)[0])
  {
    assert IsBreak(lay(|tail|));
    SkipGap(lay(|tail|), tail);
  }

  lemma ReadWordOf(w: string, s: string)
    requires IsWord(w) && (s == "" || EndsWord(s[0]))
    ensures ReadWord(w + s) == (w, s) && SkipSpace(w + s) == w + s && w + s != ""
    ensures (w + s)[0] != '{' && (w + s)[0] != '}'
  {
    assert (w + s)[0] == w[0];
    SpanOf(w, s, EndsWord);
    assert (w + s)[..|w|] == w && (w + s)[|w|..] == s;
  }

  lemma ReadNextWord(w: string, s: string)
    requires IsWord(w) && (s == "" || EndsWord(s[0]))
    ensures ReadWord(" " + (w + s)) == (w, s)
  {
    ReadWordOf(w, s);
    assert (" " + (w + s))[1..] == w + s;
  }

  lemma ReadLineValue(text: string, s: string)
    requires Trimmed(text) && OnOneLine(text) && s != "" && EndsLine(s[0])
    ensures ReadUntilNewline(" " + (text + s)) == (text, s)
  {
    var padded := " " + text;
    SpanOf(padded, s, EndsLine);
    assert " " + (text + s) == padded + s;
    assert (padded + s)[..|padded|] == padded && (padded + s)[|padded|..] == s;
    TrimSpacePad(" ", text, "");
    assert text + "" == text;
  }

  lemma ExpectOpening(lay: Layout, tail: string)
    ensures ExpectByte(" {" + Break(lay, tail), '{') == Parsed((), Break(lay, tail))
  {
    var s := " {" + Break(lay, tail);
    assert s[1..] == "{" + Break(lay, tail);
    assert s[1..][1..] == Break(lay, tail);
    assert SkipSpace(s[1..]) == s[1..];
  }

  lemma SkipClosing(lay: Layout, tail: string)
    ensures SkipSpace(Closing(lay, tail)) == Closing(lay, tail)
    ensures Closing(lay, tail)[1..] == Break(lay, tail)
  {
  }

  lemma NumbersAreWords(n: int)
    ensures IsWord(Itoa(n))
  {
    var digits := Digits(if n < 0 then -n else n);
    assert AllDigits(digits);
  }

  lemma ReadNumberOf(n: int, s: string)
    requires IsInt64(n) && (s == "" || EndsWord(s[0]))
    ensures ReadNumber(" " + (Itoa(n) + s)) == Parsed(n, s)
  {
    NumbersAreWords(n);
    ReadNextWord(Itoa(n), s);
    AtoiOfItoa(n);
  }

  // ----- Lists

  lemma NothingToSkip(s: string)
    requires s != "" && !IsBlank(s[0]) && s[0] != '#'
    ensures SkipSpace(s) == s
  {
  }

  lemma SpanOfItem(item: string, s: string)
    requires PrintableItem(item) && s != "" && EndsItem(s[0])
    ensures Span(item + s, EndsItem) == |item|
    ensures SkipSpace(item + s) == item + s && item + s != "" && (item + s)[0] != ']'
  {
    assert (item + s)[0] == item[0];
    NothingToSkip(item + s);
    SpanOf(item, s, EndsItem);
  }

  lemma NextItemOf(item: string, s: string)
    requires PrintableItem(item) && s != "" && EndsItem(s[0])
    ensures NextItem(item + s) == (item, if s[0] == ',' then s[1..] else s)
  {
    SpanOfItem(item, s);
    assert (item + s)[..|item|] == item;
    assert (item + s)[|item|..] == s;
    assert (item + s)[|item| + 1..] == s[1..];
    TrimSpaceId(item);
  }

  lemma {:induction false} ListBack(items: seq<string>, tail: string, done: seq<string>)
    requires PrintableList(items)
    ensures ListItems(ListText(items, tail), done) == Parsed(done + items, tail)
    decreases |items|
  {
    if items == [] {
      assert ("]" + tail)[1..] == tail && done + items == done;
      NothingToSkip("]" + tail);
    } else {
      var rest := ListText(items[1..], tail);
      var s := (if |items| == 1 then "" else ", ") + rest;
      assert |items| == 1 ==> items[1..] == [] && s == rest == "]" + tail;
      assert |items| > 1 ==> s[1..] == " " + rest && (" " + rest)[1..] == rest;
      SpanOfItem(items[0], s);
      NextItemOf(items[0], s);
      ListBack(items[1..], tail, done + [items[0]]);
      FirstThenRest(done, items);
    }
  }

  lemma BracketListBack(items: seq<string>, tail: string)
    requires PrintableList(items)
    ensures ReadBracketList(" [" + ListText(items, tail)) == Parsed(items, tail)
  {
    var s := " [" + ListText(items, tail);
    assert s[1..][1..] == ListText(items, tail);
    assert SkipSpace(s) == SkipSpace(s[1..]) == s[1..];
    ListBack(items, tail, []);
    assert [] + items == items;
  }

  // ----- Auth blocks

  lemma TierWords()
    ensures IsWord(TIER_ANONYMOUS) && IsWord(TIER_IDENTIFIED) && IsWord(TIER_TRUSTED)
  {
  }

  lemma AuthStep(s: string, auth: AuthConfig, strict: bool, items: seq<string>, rest: string)
    requires s != "" && SkipSpace(s) == s && s[0] != '}'
    requires ReadBracketList(ReadWord(s).1) == Parsed(items, rest)
    requires GrantTo(auth, ReadWord(s).0, items, strict).Some?
    ensures AuthLoop(s, auth, strict) == AuthLoop(rest, GrantTo(auth, ReadWord(s).0, items, strict).value, strict)
  {
  }

  lemma AuthBreak(lay: Layout, tail: string, auth: AuthConfig, strict: bool)
    requires GoodLayout(lay)
    ensures AuthLoop(Break(lay, tail), auth, strict) == AuthLoop(tail, auth, strict)
  {
    SkipBreak(lay, tail);
  }

  lemma GrantLineBack(lay: Layout, tier: string, items: seq<string>, tail: string, auth: AuthConfig, strict: bool)
    requires GoodLayout(lay) && IsWord(tier) && PrintableList(items) && GrantTo(auth, tier, items, strict).Some?
    ensures AuthLoop(GrantLine(lay, tier, items, tail), auth, strict) ==
            AuthLoop(tail, GrantTo(auth, tier, items, strict).value, strict)
  {
    var s := " [" + ListText(items, Break(lay, tail));
    ReadWordOf(tier, s);
    BracketListBack(items, Break(lay, tail));
    AuthStep(tier + s, auth, strict, items, Break(lay, tail));
    AuthBreak(lay, tail, GrantTo(auth, tier, items, strict).value, strict);
  }

  lemma TierLineBack(lay: Layout, tier: string, items: seq<string>, tail: string, auth: AuthConfig, strict: bool)
    requires GoodLayout(lay) && IsWord(tier) && PrintableList(items)
    requires items != [] ==> GrantTo(auth, tier, items, strict).Some?
    ensures AuthLoop(TierLine(lay, tier, items, tail), auth, strict) ==
            AuthLoop(tail, if items == [] then auth else GrantTo(auth, tier, items, strict).value, strict)
  {
    if items != [] {
      GrantLineBack(lay, tier, items, tail, auth, strict);
    }
  }

  lemma AuthLinesBack(lay: Layout, auth: AuthConfig, tail: string, strict: bool)
    requires GoodLayout(lay) && PrintableAuth(auth)
    ensures AuthLoop(AuthLines(lay, auth, tail), NO_AUTH, strict) == AuthLoop(tail, auth, strict)
  {
    TierWords();
    TiersDiffer();
    var t3 := TierLine(lay, TIER_TRUSTED, auth.trusted, tail);
    var t2 := TierLine(lay, TIER_IDENTIFIED, auth.identified, t3);
    var a1 := NO_AUTH.(anonymous := auth.anonymous);
    var a2 := a1.(identified := auth.identified);
    TierLineBack(lay, TIER_ANONYMOUS, auth.anonymous, t2, NO_AUTH, strict);
    TierLineBack(lay, TIER_IDENTIFIED, auth.identified, t3, a1, strict);
    TierLineBack(lay, TIER_TRUSTED, auth.trusted, tail, a2, strict);
  }

  lemma AuthBlockBack(lay: Layout, auth: AuthConfig, tail: string, strict: bool)
    requires GoodLayout(lay) && PrintableAuth(auth)
    ensures ParseAuth(" {" + Break(lay, AuthLines(lay, auth, Closing(lay, tail))), strict) == Parsed(auth, Break(lay, tail))
  {
    var body := AuthLines(lay, auth, Closing(lay, tail));
    ExpectOpening(lay, body);
    SkipBreak(lay, body);
    AuthLinesBack(lay, auth, Closing(lay, tail), strict);
    SkipClosing(lay, tail);
  }

  // ----- The commands block

  lemma CallText(a: string, b: string)
    requires IsToken(a) && IsToken(b) && OnOneLine(a) && OnOneLine(b)
    ensures Trimmed(a + (" " + b)) && OnOneLine(a + (" " + b))
  {
    var text := a + (" " + b);
    assert text[0] == a[0] && text[|text| - 1] == b[|b| - 1];
  }

  lemma CommandBack(c: CommandConfig)
    requires PrintableCommand(c)
    ensures Trimmed(CommandText(c)) && OnOneLine(CommandText(c))
    ensures CommandOf(c.kind, CommandText(c)) == Some(c)
  {
    if c.kind == "api-call" {
      CallText(c.method_, c.route);
      FieldsOfTwo(c.method_, c.route);
    }
  }

  lemma CommandsStep(s: string, done: seq<CommandConfig>, rest: string, c: CommandConfig)
    requires s != "" && SkipSpace(s) == s && s[0] != '}'
    requires ReadUntilNewline(ReadWord(s).1).1 == rest
    requires CommandOf(ReadWord(s).0, ReadUntilNewline(ReadWord(s).1).0) == Some(c)
    ensures CommandsLoop(s, done) == CommandsLoop(rest, done + [c])
  {
  }

  lemma CommandsBreak(lay: Layout, tail: string, done: seq<CommandConfig>)
    requires GoodLayout(lay)
    ensures CommandsLoop(Break(lay, tail), done) == CommandsLoop(tail, done)
  {
    SkipBreak(lay, tail);
  }

  lemma {:induction false} CommandLinesBack(lay: Layout, cmds: seq<CommandConfig>, tail: string, done: seq<CommandConfig>)
    requires GoodLayout(lay) && PrintableCommands(cmds)
    ensures CommandsLoop(CommandLines(lay, cmds, tail), done) == CommandsLoop(tail, done + cmds)
  {
    if cmds == [] {
      assert done + cmds == done;
    } else {
      CommandLinesBack(lay, cmds[1..], tail, done + [cmds[0]]);
      CommandLineBack(lay, cmds[0], CommandLines(lay, cmds[1..], tail), done);
      FirstThenRest(done, cmds);
    }
  }

  lemma CommandLineBack(lay: Layout, c: CommandConfig, tail: string, done: seq<CommandConfig>)
    requires GoodLayout(lay) && PrintableCommand(c)
    ensures CommandsLoop(Line(lay, c.kind, CommandText(c), tail), done) == CommandsLoop(tail, done + [c])
  {
    SkipBreak(lay, tail);
    CommandBack(c);
    var after := " " + (CommandText(c) + Break(lay, tail));
    ReadWordOf(c.kind, after);
    ReadLineValue(CommandText(c), Break(lay, tail));
    CommandsStep(c.kind + after, done, Break(lay, tail), c);
    CommandsBreak(lay, tail, done + [c]);
  }

  lemma CommandsBlockBack(lay: Layout, cmds: seq<CommandConfig>, tail: string)
    requires GoodLayout(lay) && PrintableCommands(cmds)
    ensures ParseCommands(" {" + Break(lay, CommandLines(lay, cmds, Closing(lay, tail)))) == Parsed(cmds, Break(lay, tail))
  {
    var body := CommandLines(lay, cmds, Closing(lay, tail));
    ExpectOpening(lay, body);
    SkipBreak(lay, body);
    CommandLinesBack(lay, cmds, Closing(lay, tail), []);
    SkipClosing(lay, tail);
    assert [] + cmds == cmds;
  }

  // ----- The meta block

  lemma MetaStep(s: string, meta: MetaConfig, rest: string, next: MetaConfig)
    requires s != "" && SkipSpace(s) == s && s[0] != '}'
    requires ReadUntilNewline(ReadWord(s).1).1 == rest
    requires MetaLine(meta, ReadWord(s).0, ReadUntilNewline(ReadWord(s).1).0) == Some(next)
    ensures MetaLoop(s, meta) == MetaLoop(rest, next)
  {
  }

  lemma MetaWords()
    ensures IsWord(RSS_FEED) && IsWord(SITEMAP) && IsWord(ROBOTS)
  {
  }

  lemma MetaLineBack(lay: Layout, keyword: string, value: string, tail: string, meta: MetaConfig, next: MetaConfig)
    requires GoodLayout(lay) && IsWord(keyword) && Trimmed(value) && OnOneLine(value)
    requires MetaLine(meta, keyword, value) == Some(next)
    ensures MetaLoop(Line(lay, keyword, value, tail), meta) == MetaLoop(tail, next)
  {
    var after := " " + (value + Break(lay, tail));
    SkipBreak(lay, tail);
    ReadWordOf(keyword, after);
    ReadLineValue(value, Break(lay, tail));
    MetaStep(keyword + after, meta, Break(lay, tail), next);
    MetaBreak(lay, tail, next);
  }

  lemma MetaBreak(lay: Layout, tail: string, meta: MetaConfig)
    requires GoodLayout(lay)
    ensures MetaLoop(Break(lay, tail), meta) == MetaLoop(tail, meta)
  {
    SkipBreak(lay, tail);
  }

  lemma {:induction false} FeedLinesBack(lay: Layout, feeds: seq<FeedConfig>, tail: string, meta: MetaConfig)
    requires GoodLayout(lay) && PrintableFeeds(feeds)
    ensures MetaLoop(FeedLines(lay, feeds, tail), meta) == MetaLoop(tail, meta.(feeds := meta.feeds + feeds))
    decreases |feeds|
  {
    if feeds == [] {
      assert meta.feeds + feeds == meta.feeds;
    } else {
      var next := meta.(feeds := meta.feeds + [feeds[0]]);
      FeedLinesBack(lay, feeds[1..], tail, next);
      FeedLineBack(lay, feeds[0], FeedLines(lay, feeds[1..], tail), meta);
      FirstThenRest(meta.feeds, feeds);
    }
  }

  lemma FeedLineBack(lay: Layout, feed: FeedConfig, tail: string, meta: MetaConfig)
    requires GoodLayout(lay) && PrintableFeed(feed)
    ensures MetaLoop(Line(lay, RSS_FEED, FeedText(feed), tail), meta) ==
            MetaLoop(tail, meta.(feeds := meta.feeds + [feed]))
  {
    MetaWords();
    FeedTextFits(feed);
    FeedRead(meta, feed, RSS_FEED);
    MetaLineBack(lay, RSS_FEED, FeedText(feed), tail, meta, meta.(feeds := meta.feeds + [feed]));
  }

  lemma SitemapLinesBack(lay: Layout, s: SitemapConfig, tail: string, meta: MetaConfig)
    requires GoodLayout(lay) && PrintableSitemap(s) && meta.sitemap == NO_META.sitemap
    ensures MetaLoop(SitemapLines(lay, s, tail), meta) == MetaLoop(tail, meta.(sitemap := s))
  {
    if s.path != "" {
      MetaWords();
      SitemapTextFits(s);
      SitemapRead(meta, s, SITEMAP);
      MetaLineBack(lay, SITEMAP, SitemapText(s), tail, meta, meta.(sitemap := s));
    }
  }

  lemma RobotsLineBack(lay: Layout, r: RobotsConfig, tail: string, meta: MetaConfig)
    requires GoodLayout(lay) && PrintableRobots(r) && meta.robots == NO_META.robots
    ensures MetaLoop(Line(lay, ROBOTS, RobotsText(r), tail), meta) == MetaLoop(tail, meta.(robots := r))
  {
    MetaWords();
    RobotsTextFits(r);
    RobotsRead(meta, r, ROBOTS);
    MetaLineBack(lay, ROBOTS, RobotsText(r), tail, meta, meta.(robots := r));
  }

  lemma MetaLinesBack(lay: Layout, m: MetaConfig, tail: string, empty: MetaConfig)
    requires GoodLayout(lay) && PrintableMeta(m) && empty == NO_META
    ensures MetaLoop(MetaLines(lay, m, tail), empty) == MetaLoop(tail, m)
  {
    var t2 := Line(lay, ROBOTS, RobotsText(m.robots), tail);
    var m1 := empty.(feeds := m.feeds);
    FeedLinesBack(lay, m.feeds, SitemapLines(lay, m.sitemap, t2), empty);
    assert [] + m.feeds == m.feeds;
    SitemapLinesBack(lay, m.sitemap, t2, m1);
    RobotsLineBack(lay, m.robots, tail, m1.(sitemap := m.sitemap));
  }

  lemma MetaBlockBack(lay: Layout, m: MetaConfig, tail: string)
    requires GoodLayout(lay) && PrintableMeta(m)
    ensures ParseMeta(" {" + Break(lay, MetaLines(lay, m, Closing(lay, tail)))) == Parsed(m, Break(lay, tail))
  {
    var body := MetaLines(lay, m, Closing(lay, tail));
    ExpectOpening(lay, body);
    MetaBreak(lay, body, NO_META);
    MetaLinesBack(lay, m, Closing(lay, tail), NO_META);
    SkipClosing(lay, tail);
  }

  // ----- The proxy-cache block

  lemma CacheNames(keyword: CacheKeyword)
    requires keyword != OtherKey
    ensures IsWord(CacheName(keyword)) && CacheKeywordOf(CacheName(keyword)) == keyword
  {
    match keyword
    case Allow =>
    case Deny =>
    case Ttl =>
    case MaxSize =>
    case Storage =>
    case MaxRedirects =>
    case AllowPrivateIPs =>
    case AllowRedirects =>
  }

  lemma ParseBoolOfWord(word: string)
    requires Trimmed(word) && ToLower(word) == word
    ensures ParseBool(word) <==> word == "true" || word == "yes" || word == "on" || word == "1"
  {
    TrimSpaceId(word);
  }

  lemma BoolTextBack(b: bool, text: string)
    requires text == BoolText(b)
    ensures IsWord(text) && ParseBool(text) == b
  {
    assert forall i :: 0 <= i < |text| ==> 'a' <= text[i] <= 'z';
    ParseBoolOfWord(text);
  }

  lemma CacheStep(s: string, pc: ProxyCacheConfig, r: Outcome<ProxyCacheConfig>)
    requires s != "" && SkipSpace(s) == s && s[0] != '}'
    requires r == CacheDirective(CacheKeywordOf(ReadWord(s).0), ReadWord(s).1, pc) && r.Parsed?
    ensures CacheLoop(s, pc) == CacheLoop(r.rest, r.value)
  {
  }

  lemma CacheBreak(lay: Layout, tail: string, pc: ProxyCacheConfig)
    requires GoodLayout(lay)
    ensures CacheLoop(Break(lay, tail), pc) == CacheLoop(tail, pc)
  {
    SkipBreak(lay, tail);
  }

  lemma CacheWordBack(lay: Layout, keyword: CacheKeyword, word: string, tail: string, pc: ProxyCacheConfig)
    requires GoodLayout(lay) && IsWord(word) && keyword != OtherKey && keyword != MaxRedirects
    ensures CacheLoop(Line(lay, CacheName(keyword), word, tail), pc) == CacheLoop(tail, CacheSet(keyword, word, pc))
  {
    CacheNames(keyword);
    SkipBreak(lay, tail);
    var after := " " + (word + Break(lay, tail));
    ReadWordOf(CacheName(keyword), after);
    ReadNextWord(word, Break(lay, tail));
    assert CacheDirective(keyword, after, pc) == Parsed(CacheSet(keyword, word, pc), Break(lay, tail));
    CacheStep(CacheName(keyword) + after, pc, CacheDirective(keyword, after, pc));
    CacheBreak(lay, tail, CacheSet(keyword, word, pc));
  }

  lemma CacheOptionalBack(lay: Layout, keyword: CacheKeyword, word: string, tail: string, pc: ProxyCacheConfig)
    requires GoodLayout(lay) && IsOptionalWord(word) && keyword != OtherKey && keyword != MaxRedirects
    ensures CacheLoop(OptionalLine(lay, CacheName(keyword), word, tail), pc) ==
            CacheLoop(tail, if word == "" then pc else CacheSet(keyword, word, pc))
  {
    if word != "" {
      CacheWordBack(lay, keyword, word, tail, pc);
    }
  }

  lemma CacheNumberBack(lay: Layout, n: int, tail: string, pc: ProxyCacheConfig)
    requires GoodLayout(lay) && IsInt64(n)
    ensures CacheLoop(Line(lay, CacheName(MaxRedirects), Itoa(n), tail), pc) == CacheLoop(tail, pc.(maxRedirects := n))
  {
    CacheNames(MaxRedirects);
    SkipBreak(lay, tail);
    var after := " " + (Itoa(n) + Break(lay, tail));
    ReadWordOf(CacheName(MaxRedirects), after);
    ReadNumberOf(n, Break(lay, tail));
    CacheStep(CacheName(MaxRedirects) + after, pc, CacheDirective(MaxRedirects, after, pc));
    CacheBreak(lay, tail, pc.(maxRedirects := n));
  }

  lemma {:induction false} OriginLinesBack(lay: Layout, origins: seq<string>, tail: string, pc: ProxyCacheConfig)
    requires GoodLayout(lay) && forall i :: 0 <= i < |origins| ==> IsWord(origins[i])
    ensures CacheLoop(OriginLines(lay, origins, tail), pc) ==
            CacheLoop(tail, pc.(allowedOrigins := pc.allowedOrigins + origins))
  {
    if origins == [] {
      assert pc.allowedOrigins + origins == pc.allowedOrigins;
    } else {
      OriginLinesBack(lay, origins[1..], tail, CacheSet(Allow, origins[0], pc));
      CacheWordBack(lay, Allow, origins[0], OriginLines(lay, origins[1..], tail), pc);
      FirstThenRest(pc.allowedOrigins, origins);
    }
  }

  lemma RedirectLinesBack(lay: Layout, pc: ProxyCacheConfig, tail: string, p5: ProxyCacheConfig)
    requires GoodLayout(lay) && IsInt64(pc.maxRedirects)
    requires p5 == pc.(maxRedirects := 0, allowPrivateIPs := false, allowRedirects := None)
    ensures CacheLoop(RedirectLines(lay, pc, tail), p5) == CacheLoop(tail, pc)
  {
    var t7 := OptionalLine(lay, CacheName(AllowRedirects), FollowText(pc), tail);
    var t6 := Line(lay, CacheName(AllowPrivateIPs), BoolText(pc.allowPrivateIPs), t7);
    var p6 := p5.(maxRedirects := pc.maxRedirects);
    CacheNumberBack(lay, pc.maxRedirects, t6, p5);
    BoolTextBack(pc.allowPrivateIPs, BoolText(pc.allowPrivateIPs));
    CacheWordBack(lay, AllowPrivateIPs, BoolText(pc.allowPrivateIPs), t7, p6);
    FollowBack(lay, pc, tail, p6.(allowPrivateIPs := pc.allowPrivateIPs));
  }

  lemma FollowBack(lay: Layout, pc: ProxyCacheConfig, tail: string, p7: ProxyCacheConfig)
    requires GoodLayout(lay) && p7.allowRedirects == None
    ensures CacheLoop(OptionalLine(lay, CacheName(AllowRedirects), FollowText(pc), tail), p7) ==
            CacheLoop(tail, p7.(allowRedirects := pc.allowRedirects))
  {
    match pc.allowRedirects
    case None =>
    case Some(b) =>
      var text := BoolText(b);
      BoolTextBack(b, text);
      CacheOptionalBack(lay, AllowRedirects, text, tail, p7);
  }

  lemma SizeLinesBack(lay: Layout, pc: ProxyCacheConfig, tail: string, p2: ProxyCacheConfig)
    requires GoodLayout(lay) && PrintableCache(pc) && p2.ttl == p2.maxSize == p2.storagePath == ""
    ensures CacheLoop(SizeLines(lay, pc, tail), p2) ==
            CacheLoop(tail, p2.(ttl := pc.ttl, maxSize := pc.maxSize, storagePath := pc.storagePath))
  {
    var t4 := OptionalLine(lay, CacheName(Storage), pc.storagePath, tail);
    var t3 := OptionalLine(lay, CacheName(MaxSize), pc.maxSize, t4);
    var p3 := p2.(ttl := pc.ttl);
    var p4 := p3.(maxSize := pc.maxSize);
    CacheOptionalBack(lay, Ttl, pc.ttl, t3, p2);
    CacheOptionalBack(lay, MaxSize, pc.maxSize, t4, p3);
    CacheOptionalBack(lay, Storage, pc.storagePath, tail, p4);
  }

  lemma OriginsBack(lay: Layout, pc: ProxyCacheConfig, tail: string, empty: ProxyCacheConfig)
    requires GoodLayout(lay) && PrintableCache(pc) && empty.allowedOrigins == [] && !empty.denyAll
    ensures CacheLoop(OriginLines(lay, pc.allowedOrigins, DenyLine(lay, pc, tail)), empty) ==
            CacheLoop(tail, empty.(allowedOrigins := pc.allowedOrigins, denyAll := pc.denyAll))
  {
    OriginLinesBack(lay, pc.allowedOrigins, DenyLine(lay, pc, tail), empty);
    assert [] + pc.allowedOrigins == pc.allowedOrigins;
    DenyBack(lay, pc, tail, empty.(allowedOrigins := pc.allowedOrigins));
  }

  lemma DenyBack(lay: Layout, pc: ProxyCacheConfig, tail: string, p1: ProxyCacheConfig)
    requires GoodLayout(lay) && !p1.denyAll
    ensures CacheLoop(DenyLine(lay, pc, tail), p1) == CacheLoop(tail, p1.(denyAll := pc.denyAll))
  {
    if pc.denyAll {
      CacheWordBack(lay, Deny, "*", tail, p1);
    }
  }

  lemma CacheLinesBack(lay: Layout, pc: ProxyCacheConfig, tail: string)
    requires GoodLayout(lay) && PrintableCache(pc)
    ensures CacheLoop(CacheLines(lay, pc, tail), NO_PROXY_CACHE) == CacheLoop(tail, pc)
  {
    var t2 := RedirectLines(lay, pc, tail);
    var t1 := SizeLines(lay, pc, t2);
    OriginsBack(lay, pc, t1, NO_PROXY_CACHE);
    SizeLinesBack(lay, pc, t2, NO_PROXY_CACHE.(allowedOrigins := pc.allowedOrigins, denyAll := pc.denyAll));
    RedirectLinesBack(lay, pc, tail, pc.(maxRedirects := 0, allowPrivateIPs := false, allowRedirects := None));
  }

  lemma CacheBlockBack(lay: Layout, pc: ProxyCacheConfig, tail: string)
    requires GoodLayout(lay) && PrintableCache(pc)
    ensures ParseProxyCache(" {" + Break(lay, CacheLines(lay, pc, Closing(lay, tail)))) == Parsed(pc, Break(lay, tail))
  {
    var body := CacheLines(lay, pc, Closing(lay, tail));
    ExpectOpening(lay, body);
    CacheBreak(lay, body, NO_PROXY_CACHE);
    CacheLinesBack(lay, pc, Closing(lay, tail));
    SkipClosing(lay, tail);
  }

  // ----- The limits block

  lemma LimitsStep(s: string, limits: LimitsConfig, rest: string, value: string)
    requires s != "" && SkipSpace(s) == s && s[0] != '}' && s[0] != '{'
    requires ReadWord(ReadWord(s).1) == (value, rest)
    ensures LimitsLoop(s, limits) == LimitsLoop(rest, LimitTo(limits, ReadWord(s).0, value))
  {
  }

  lemma LimitBack(lay: Layout, tier: string, value: string, tail: string, limits: LimitsConfig)
    requires GoodLayout(lay) && IsWord(tier) && IsOptionalWord(value)
    ensures LimitsLoop(OptionalLine(lay, tier, value, tail), limits) ==
            LimitsLoop(tail, if value == "" then limits else LimitTo(limits, tier, value))
  {
    if value != "" {
      SkipBreak(lay, tail);
      var after := " " + (value + Break(lay, tail));
      ReadWordOf(tier, after);
      ReadNextWord(value, Break(lay, tail));
      LimitsStep(tier + after, limits, Break(lay, tail), value);
    }
  }

  lemma LimitsBlockBack(lay: Layout, limits: LimitsConfig, tail: string)
    requires GoodLayout(lay) && PrintableLimits(limits)
    ensures ParseLimits(" {" + Break(lay, LimitLines(lay, limits, Closing(lay, tail)))) == Parsed(limits, Break(lay, tail))
  {
    var end := Closing(lay, tail);
    var t2 := OptionalLine(lay, TIER_TRUSTED, limits.trusted, end);
    var t1 := OptionalLine(lay, TIER_IDENTIFIED, limits.identified, t2);
    var l1 := NO_LIMITS.(anonymous := limits.anonymous);
    var l2 := l1.(identified := limits.identified);
    TierWords();
    TiersDiffer();
    ExpectOpening(lay, LimitLines(lay, limits, end));
    SkipBreak(lay, LimitLines(lay, limits, end));
    LimitBack(lay, TIER_ANONYMOUS, limits.anonymous, t1, NO_LIMITS);
    LimitBack(lay, TIER_IDENTIFIED, limits.identified, t2, l1);
    LimitBack(lay, TIER_TRUSTED, limits.trusted, end, l2);
    SkipClosing(lay, tail);
  }

  // ----- The mcp block

  lemma {:induction false} QuotedBack(text: string, tail: string, read: string)
    ensures QuotedRest(Escaped(text, "\"" + tail), read) == Parsed(read + text, tail)
    decreases |text|
  {
    var s := Escaped(text, "\"" + tail);
    if text == "" {
      assert s[1..] == tail && read + text == read;
    } else {
      var rest := Escaped(text[1..], "\"" + tail);
      QuotedBack(text[1..], tail, read + [text[0]]);
      FirstThenRest(read, text);
      if text[0] == '"' || text[0] == '\\' {
        assert s[2..] == rest;
      } else {
        assert s[1..] == rest;
      }
    }
  }

  /** Every command survives quoting and unquoting. */
  lemma QuotedStringBack(text: string, tail: string)
    ensures ReadQuotedString(Quoted(text, tail)) == Parsed(text, tail)
    ensures SkipSpace(" " + Quoted(text, tail)) == Quoted(text, tail)
  {
    assert Quoted(text, tail)[1..] == Escaped(text, "\"" + tail);
    QuotedBack(text, tail, "");
    assert "" + text == text;
    assert (" " + Quoted(text, tail))[1..] == Quoted(text, tail);
    NothingToSkip(Quoted(text, tail));
  }

  lemma McpStep(s: string, mcp: MCPConfig, r: Outcome<MCPConfig>)
    requires s != "" && SkipSpace(s) == s && s[0] != '}'
    requires r == McpDirective(ReadWord(s).0, ReadWord(s).1, mcp) && r.Parsed?
    ensures McpLoop(s, mcp) == McpLoop(r.rest, r.value)
  {
  }

  lemma McpBreak(lay: Layout, tail: string, mcp: MCPConfig)
    requires GoodLayout(lay)
    ensures McpLoop(Break(lay, tail), mcp) == McpLoop(tail, mcp)
  {
    SkipBreak(lay, tail);
  }

  lemma StdioBack(lay: Layout, command: string, tail: string, mcp: MCPConfig)
    requires GoodLayout(lay)
    ensures McpDirective("server", " " + ("stdio" + (" " + Quoted(command, Break(lay, tail)))), mcp) ==
            Parsed(mcp.(transport := "stdio", command := command), Break(lay, tail))
  {
    ReadNextWord("stdio", " " + Quoted(command, Break(lay, tail)));
    QuotedStringBack(command, Break(lay, tail));
  }

  lemma HttpBack(lay: Layout, url: string, tail: string, mcp: MCPConfig)
    requires GoodLayout(lay) && IsWord(url)
    ensures McpDirective("server", " " + ("http" + (" " + (url + Break(lay, tail)))), mcp) ==
            Parsed(mcp.(transport := "http", url := url), Break(lay, tail))
  {
    SkipBreak(lay, tail);
    ReadNextWord("http", " " + (url + Break(lay, tail)));
    ReadNextWord(url, Break(lay, tail));
  }

  lemma ServerLineBack(lay: Layout, m: MCPConfig, tail: string)
    requires GoodLayout(lay) && PrintableMcp(m)
    ensures McpLoop(ServerLine(lay, m, tail), NO_MCP) == McpLoop(tail, m.(auth := NO_AUTH))
  {
    if m.transport == "stdio" {
      StdioBack(lay, m.command, tail, NO_MCP);
      ServerBack(lay, "stdio" + (" " + Quoted(m.command, Break(lay, tail))), tail, NO_MCP, m.(auth := NO_AUTH));
    } else {
      HttpBack(lay, m.url, tail, NO_MCP);
      ServerBack(lay, "http" + (" " + (m.url + Break(lay, tail))), tail, NO_MCP, m.(auth := NO_AUTH));
    }
  }

  lemma ServerBack(lay: Layout, text: string, tail: string, mcp: MCPConfig, next: MCPConfig)
    requires GoodLayout(lay) && McpDirective("server", " " + text, mcp) == Parsed(next, Break(lay, tail))
    ensures McpLoop("server" + (" " + text), mcp) == McpLoop(tail, next)
  {
    ReadWordOf("server", " " + text);
    McpStep("server" + (" " + text), mcp, McpDirective("server", " " + text, mcp));
    McpBreak(lay, tail, next);
  }

  lemma McpAuthBack(lay: Layout, m: MCPConfig, tail: string)
    requires GoodLayout(lay) && PrintableMcp(m)
    ensures McpLoop(Opening(lay, "auth", AuthLines(lay, m.auth, Closing(lay, tail))), m.(auth := NO_AUTH)) ==
            McpLoop(tail, m)
  {
    var after := " {" + Break(lay, AuthLines(lay, m.auth, Closing(lay, tail)));
    ReadWordOf("auth", after);
    AuthBlockBack(lay, m.auth, tail, true);
    McpStep("auth" + after, m.(auth := NO_AUTH), McpDirective("auth", after, m.(auth := NO_AUTH)));
    McpBreak(lay, tail, m);
  }

  lemma McpBlockBack(lay: Layout, m: MCPConfig, tail: string)
    requires GoodLayout(lay) && PrintableMcp(m)
    ensures ParseMcp(" {" + Break(lay, McpLines(lay, m, Closing(lay, tail)))) == Parsed(m, Break(lay, tail))
  {
    var end := Closing(lay, tail);
    var body := McpLines(lay, m, end);
    ExpectOpening(lay, body);
    McpBreak(lay, body, NO_MCP);
    ServerLineBack(lay, m, Opening(lay, "auth", AuthLines(lay, m.auth, Closing(lay, end))));
    McpAuthBack(lay, m, end);
    SkipClosing(lay, tail);
  }

  // ----- Sites

  lemma SiteNames(keyword: SiteKeyword)
    requires keyword != OtherWord
    ensures IsWord(SiteName(keyword)) && SiteKeywordOf(SiteName(keyword)) == keyword
  {
    match keyword
    case Port =>
    case HostKey =>
    case Root =>
    case Backend =>
    case AuthorizedKeys =>
    case Commands =>
    case Meta =>
    case Mcp =>
    case ProxyCache =>
    case Auth =>
    case Limits =>
  }

  lemma SiteBreak(lay: Layout, tail: string, site: SiteConfig)
    requires GoodLayout(lay)
    ensures SiteLoop(Break(lay, tail), site) == SiteLoop(tail, site)
  {
    SkipBreak(lay, tail);
  }

  /** A directive whose arguments parse, and the line end after it. */
  lemma SiteStep(lay: Layout, keyword: SiteKeyword, after: string, tail: string, site: SiteConfig, next: SiteConfig)
    requires GoodLayout(lay) && keyword != OtherWord && after != "" && EndsWord(after[0])
    requires SiteDirective(keyword, SiteName(keyword), after, site) == Parsed(next, Break(lay, tail))
    ensures SiteLoop(SiteName(keyword) + after, site) == SiteLoop(tail, next)
  {
    SiteNames(keyword);
    ReadWordOf(SiteName(keyword), after);
    SiteBreak(lay, tail, next);
  }

  function SiteSet(keyword: SiteKeyword, word: string, site: SiteConfig): SiteConfig {
    match keyword
    case HostKey => site.(hostKey := word)
    case Root => site.(root := word)
    case Backend => site.(backend := word)
    case AuthorizedKeys => site.(authorizedKeys := word)
    case _ => site
  }

  predicate TakesWord(keyword: SiteKeyword) {
    keyword == HostKey || keyword == Root || keyword == Backend || keyword == AuthorizedKeys
  }

  lemma SiteOptionalBack(lay: Layout, keyword: SiteKeyword, word: string, tail: string, site: SiteConfig, next: SiteConfig)
    requires GoodLayout(lay) && IsOptionalWord(word) && TakesWord(keyword)
    requires next == if word == "" then site else SiteSet(keyword, word, site)
    ensures SiteLoop(OptionalLine(lay, SiteName(keyword), word, tail), site) == SiteLoop(tail, next)
  {
    if word != "" {
      SkipBreak(lay, tail);
      ReadNextWord(word, Break(lay, tail));
      SiteStep(lay, keyword, " " + (word + Break(lay, tail)), tail, site, next);
    }
  }

  lemma PortBack(lay: Layout, port: int, tail: string, site: SiteConfig)
    requires GoodLayout(lay) && IsInt64(port)
    ensures SiteLoop(Line(lay, SiteName(Port), Itoa(port), tail), site) == SiteLoop(tail, site.(port := port))
  {
    SkipBreak(lay, tail);
    ReadNumberOf(port, Break(lay, tail));
    SiteStep(lay, Port, " " + (Itoa(port) + Break(lay, tail)), tail, site, site.(port := port));
  }

  function WithWords(site: SiteConfig): SiteConfig {
    NewSite(site.host).(port := site.port, hostKey := site.hostKey, root := site.root,
                        backend := site.backend, authorizedKeys := site.authorizedKeys)
  }

  lemma SiteWordsBack(lay: Layout, site: SiteConfig, tail: string)
    requires GoodLayout(lay) && PrintableSite(site)
    ensures SiteLoop(WordLines(lay, site, tail), NewSite(site.host).(port := site.port)) ==
            SiteLoop(tail, WithWords(site))
  {
    var s1 := NewSite(site.host).(port := site.port);
    PathWordsBack(lay, site, UpstreamLines(lay, site, tail), s1);
    UpstreamWordsBack(lay, site, tail, s1.(hostKey := site.hostKey, root := site.root));
  }

  lemma PathWordsBack(lay: Layout, site: SiteConfig, tail: string, s1: SiteConfig)
    requires GoodLayout(lay) && IsOptionalWord(site.hostKey) && IsOptionalWord(site.root) && s1.hostKey == s1.root == ""
    ensures SiteLoop(PathLines(lay, site, tail), s1) == SiteLoop(tail, s1.(hostKey := site.hostKey, root := site.root))
  {
    var s2 := s1.(hostKey := site.hostKey);
    SiteOptionalBack(lay, HostKey, site.hostKey, OptionalLine(lay, SiteName(Root), site.root, tail), s1, s2);
    SiteOptionalBack(lay, Root, site.root, tail, s2, s2.(root := site.root));
  }

  lemma UpstreamWordsBack(lay: Layout, site: SiteConfig, tail: string, s3: SiteConfig)
    requires GoodLayout(lay) && IsOptionalWord(site.backend) && IsOptionalWord(site.authorizedKeys)
    requires s3.backend == s3.authorizedKeys == ""
    ensures SiteLoop(UpstreamLines(lay, site, tail), s3) ==
            SiteLoop(tail, s3.(backend := site.backend, authorizedKeys := site.authorizedKeys))
  {
    var s4 := s3.(backend := site.backend);
    SiteOptionalBack(lay, Backend, site.backend, OptionalLine(lay, SiteName(AuthorizedKeys), site.authorizedKeys, tail), s3, s4);
    SiteOptionalBack(lay, AuthorizedKeys, site.authorizedKeys, tail, s4, s4.(authorizedKeys := site.authorizedKeys));
  }

  lemma McpTextBack(lay: Layout, mcp: Option<MCPConfig>, tail: string, site: SiteConfig)
    requires GoodLayout(lay) && (mcp.Some? ==> PrintableMcp(mcp.value)) && site.mcp == None
    ensures SiteLoop(McpText(lay, mcp, tail), site) == SiteLoop(tail, site.(mcp := mcp))
  {
    if mcp.Some? {
      var after := " {" + Break(lay, McpLines(lay, mcp.value, Closing(lay, tail)));
      McpBlockBack(lay, mcp.value, tail);
      McpDirectiveBack(after, site, mcp.value, Break(lay, tail));
      SiteStep(lay, Mcp, after, tail, site, site.(mcp := mcp));
    }
  }

  lemma McpDirectiveBack(after: string, site: SiteConfig, mcp: MCPConfig, rest: string)
    requires ParseMcp(after) == Parsed(mcp, rest)
    ensures SiteDirective(Mcp, SiteName(Mcp), after, site) == Parsed(site.(mcp := Some(mcp)), rest)
  {
  }

  lemma CommandsTextBack(lay: Layout, cmds: seq<CommandConfig>, tail: string, site: SiteConfig)
    requires GoodLayout(lay) && PrintableCommands(cmds)
    ensures SiteLoop(Opening(lay, SiteName(Commands), CommandLines(lay, cmds, Closing(lay, tail))), site) ==
            SiteLoop(tail, site.(commands := cmds))
  {
    var after := " {" + Break(lay, CommandLines(lay, cmds, Closing(lay, tail)));
    CommandsBlockBack(lay, cmds, tail);
    CommandsDirectiveBack(after, site, cmds, Break(lay, tail));
    SiteStep(lay, Commands, after, tail, site, site.(commands := cmds));
  }

  lemma CommandsDirectiveBack(after: string, site: SiteConfig, cmds: seq<CommandConfig>, rest: string)
    requires ParseCommands(after) == Parsed(cmds, rest)
    ensures SiteDirective(Commands, SiteName(Commands), after, site) == Parsed(site.(commands := cmds), rest)
  {
  }

  lemma CacheTextBack(lay: Layout, pc: ProxyCacheConfig, tail: string, site: SiteConfig)
    requires GoodLayout(lay) && PrintableCache(pc)
    ensures SiteLoop(Opening(lay, SiteName(ProxyCache), CacheLines(lay, pc, Closing(lay, tail))), site) ==
            SiteLoop(tail, site.(proxyCache := pc))
  {
    var after := " {" + Break(lay, CacheLines(lay, pc, Closing(lay, tail)));
    CacheBlockBack(lay, pc, tail);
    CacheDirectiveBack(after, site, pc, Break(lay, tail));
    SiteStep(lay, ProxyCache, after, tail, site, site.(proxyCache := pc));
  }

  lemma CacheDirectiveBack(after: string, site: SiteConfig, pc: ProxyCacheConfig, rest: string)
    requires ParseProxyCache(after) == Parsed(pc, rest)
    ensures SiteDirective(ProxyCache, SiteName(ProxyCache), after, site) == Parsed(site.(proxyCache := pc), rest)
  {
  }

  lemma AuthTextBack(lay: Layout, auth: AuthConfig, tail: string, site: SiteConfig)
    requires GoodLayout(lay) && PrintableAuth(auth)
    ensures SiteLoop(Opening(lay, SiteName(Auth), AuthLines(lay, auth, Closing(lay, tail))), site) ==
            SiteLoop(tail, site.(auth := auth))
  {
    var after := " {" + Break(lay, AuthLines(lay, auth, Closing(lay, tail)));
    AuthBlockBack(lay, auth, tail, false);
    AuthDirectiveBack(after, site, auth, Break(lay, tail));
    SiteStep(lay, Auth, after, tail, site, site.(auth := auth));
  }

  lemma AuthDirectiveBack(after: string, site: SiteConfig, auth: AuthConfig, rest: string)
    requires ParseAuth(after, false) == Parsed(auth, rest)
    ensures SiteDirective(Auth, SiteName(Auth), after, site) == Parsed(site.(auth := auth), rest)
  {
  }

  lemma LimitsTextBack(lay: Layout, limits: LimitsConfig, tail: string, site: SiteConfig)
    requires GoodLayout(lay) && PrintableLimits(limits)
    ensures SiteLoop(Opening(lay, SiteName(Limits), LimitLines(lay, limits, Closing(lay, tail))), site) ==
            SiteLoop(tail, site.(limits := limits))
  {
    var after := " {" + Break(lay, LimitLines(lay, limits, Closing(lay, tail)));
    LimitsBlockBack(lay, limits, tail);
    LimitsDirectiveBack(after, site, limits, Break(lay, tail));
    SiteStep(lay, Limits, after, tail, site, site.(limits := limits));
  }

  lemma LimitsDirectiveBack(after: string, site: SiteConfig, limits: LimitsConfig, rest: string)
    requires ParseLimits(after) == Parsed(limits, rest)
    ensures SiteDirective(Limits, SiteName(Limits), after, site) == Parsed(site.(limits := limits), rest)
  {
  }

  lemma MetaTextBack(lay: Layout, meta: MetaConfig, tail: string, site: SiteConfig)
    requires GoodLayout(lay) && PrintableMeta(meta)
    ensures SiteLoop(MetaText(lay, meta, tail), site) == SiteLoop(tail, site.(meta := meta))
  {
    var after := " {" + Break(lay, MetaLines(lay, meta, Closing(lay, tail)));
    MetaBlockBack(lay, meta, tail);
    MetaDirectiveBack(after, site, meta, Break(lay, tail));
    SiteStep(lay, Meta, after, tail, site, site.(meta := meta));
  }

  lemma MetaDirectiveBack(after: string, site: SiteConfig, meta: MetaConfig, rest: string)
    requires ParseMeta(after) == Parsed(meta, rest)
    ensures SiteDirective(Meta, SiteName(Meta), after, site) == Parsed(site.(meta := meta), rest)
  {
  }

  lemma BlocksBack(lay: Layout, site: SiteConfig, tail: string, s0: SiteConfig)
    requires GoodLayout(lay) && PrintableSite(site) && s0.mcp == None
    ensures SiteLoop(BlockLines(lay, site, tail), s0) ==
            SiteLoop(tail, s0.(commands := site.commands, proxyCache := site.proxyCache, auth := site.auth,
                               limits := site.limits, mcp := site.mcp, meta := site.meta))
  {
    var t5 := MetaText(lay, site.meta, tail);
    var t4 := McpText(lay, site.mcp, t5);
    var t3 := Opening(lay, SiteName(Limits), LimitLines(lay, site.limits, Closing(lay, t4)));
    var t2 := Opening(lay, SiteName(Auth), AuthLines(lay, site.auth, Closing(lay, t3)));
    var t1 := Opening(lay, SiteName(ProxyCache), CacheLines(lay, site.proxyCache, Closing(lay, t2)));
    var s1 := s0.(commands := site.commands);
    var s2 := s1.(proxyCache := site.proxyCache);
    var s3 := s2.(auth := site.auth);
    var s4 := s3.(limits := site.limits);
    CommandsTextBack(lay, site.commands, t1, s0);
    CacheTextBack(lay, site.proxyCache, t2, s1);
    AuthTextBack(lay, site.auth, t3, s2);
    LimitsTextBack(lay, site.limits, t4, s3);
    McpTextBack(lay, site.mcp, t5, s4);
    MetaTextBack(lay, site.meta, tail, s4.(mcp := site.mcp));
  }

  lemma SiteBack(lay: Layout, site: SiteConfig, tail: string)
    requires GoodLayout(lay) && PrintableSite(site)
    ensures ParseSite(" " + Opening(lay, site.host, SiteLines(lay, site, Closing(lay, tail)))) ==
            Parsed(site, Break(lay, tail))
  {
    var body := SiteLines(lay, site, Closing(lay, tail));
    ReadNextWord(site.host, " {" + Break(lay, body));
    ExpectOpening(lay, body);
    SiteBreak(lay, body, NewSite(site.host));
    PortBack(lay, site.port, WordLines(lay, site, BlockLines(lay, site, Closing(lay, tail))), NewSite(site.host));
    SiteWordsBack(lay, site, BlockLines(lay, site, Closing(lay, tail)));
    BlocksBack(lay, site, Closing(lay, tail), WithWords(site));
    SkipClosing(lay, tail);
  }

  lemma ConfigBreak(lay: Layout, tail: string, sites: seq<SiteConfig>)
    requires GoodLayout(lay)
    ensures ConfigLoop(Break(lay, tail), sites) == ConfigLoop(tail, sites)
  {
    SkipBreak(lay, tail);
  }

  lemma ConfigStep(after: string, sites: seq<SiteConfig>, site: SiteConfig, rest: string)
    requires after != "" && EndsWord(after[0]) && ParseSite(after) == Parsed(site, rest)
    ensures ConfigLoop("site" + after, sites) == ConfigLoop(rest, sites + [site])
  {
    ReadWordOf("site", after);
  }

  lemma {:induction false} SitesBack(lay: Layout, sites: seq<SiteConfig>, done: seq<SiteConfig>)
    requires GoodLayout(lay) && forall i :: 0 <= i < |sites| ==> PrintableSite(sites[i])
    ensures ConfigLoop(SitesText(lay, sites, ""), done) == Parsed(Config(done + sites), "")
    decreases |sites|
  {
    if sites == [] {
      assert done + sites == done;
    } else {
      SitesBack(lay, sites[1..], done + [sites[0]]);
      FirstSiteBack(lay, sites[0], SitesText(lay, sites[1..], ""), done);
      FirstThenRest(done, sites);
    }
  }

  lemma FirstSiteBack(lay: Layout, site: SiteConfig, tail: string, done: seq<SiteConfig>)
    requires GoodLayout(lay) && PrintableSite(site)
    ensures ConfigLoop("site" + (" " + Opening(lay, site.host, SiteLines(lay, site, Closing(lay, tail)))), done) ==
            ConfigLoop(tail, done + [site])
  {
    var after := " " + Opening(lay, site.host, SiteLines(lay, site, Closing(lay, tail)));
    SiteBack(lay, site, tail);
    ConfigStep(after, done, site, Break(lay, tail));
    ConfigBreak(lay, tail, done + [site]);
  }

  /**
    The parser undoes the printer, under every layout: any blank lines, indentation and
    comments between the directives, and all of the text consumed.
   */
  lemma ParseOfPrint(lay: Layout, cfg: Config)
    requires GoodLayout(lay) && Printable(cfg)
    ensures ParseConfig(Print(lay, cfg)) == Parsed(cfg, "")
  {
    ConfigBreak(lay, SitesText(lay, cfg.sites, ""), []);
    SitesBack(lay, cfg.sites, []);
    assert [] + cfg.sites == cfg.sites;
  }
}
