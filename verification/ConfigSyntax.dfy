/**
  What the configuration parser computes, as functions of the input that is left. The
  cursor's position is the length of the input less that of the rest.
 */
module ConfigSyntax {
  import opened Config
  import opened Strconv
  import opened Strings
  import opened Wrappers

  datatype Problem =
    | Expected(c: char)
    | UnexpectedEnd
    | UnknownKeyword(word: string)
    | BadNumber(word: string)
    | MissingHost
    | MissingRoute
    | MissingServer
    | UnknownTransport(word: string)
    | UnknownTier(word: string)
    | UnterminatedString

  /**
    A value or a problem, each with what is left of the input; or the loop that never ends,
    since some blocks do not test for the end of the input; or an index out of range.
   */
  datatype Outcome<T> = Parsed(value: T, rest: string) | Refused(problem: Problem, rest: string) | Diverges | Panics

  /** The outcomes in which the parser returns to its caller. */
  predicate Returns<T>(o: Outcome<T>) {
    o.Parsed? || o.Refused?
  }

  /** A refusal or worse, seen by a caller that was after something else. */
  function Fail<T, U>(o: Outcome<T>): Outcome<U>
    requires !o.Parsed?
  {
    match o
    case Refused(problem, rest) => Refused(problem, rest)
    case Diverges => Diverges
    case Panics => Panics
  }

  // ----- Lexical elements

  predicate IsBlank(c: char) {
    c == ' ' || c == '\t' || c == '\n' || c == '\r'
  }

  predicate EndsWord(c: char) {
    IsBlank(c) || c == '{' || c == '}' || c == '#'
  }

  predicate EndsLine(c: char) {
    c == '\n' || c == '#'
  }

  ghost predicate OnOneLine(s: string) {
    forall i :: 0 <= i < |s| ==> !EndsLine(s[i])
  }

  predicate EndsItem(c: char) {
    c == ',' || c == ']'
  }

  /** How many characters come before the first that `stop` holds of. */
  function Span(s: string, stop: char -> bool): (n: nat)
    ensures n <= |s|
    ensures forall i :: 0 <= i < n ==> !stop(s[i])
    ensures n < |s| ==> stop(s[n])
  {
    if s == "" || stop(s[0]) then 0 else 1 + Span(s[1..], stop)
  }

  predicate IsNewline(c: char) {
    c == '\n'
  }

  /** Past blanks and comments. */
  function SkipSpace(s: string): (r: string)
    ensures |r| <= |s|
    ensures r != "" ==> !IsBlank(r[0]) && r[0] != '#'
    decreases |s|
  {
    if s == "" then s
    else if s[0] == '#' then
      assert Span(s, IsNewline) > 0;
      SkipSpace(s[Span(s, IsNewline)..])
    else if IsBlank(s[0]) then SkipSpace(s[1..])
    else s
  }

  function ReadWord(s: string): (r: (string, string))
    ensures |r.1| <= |s|
    ensures r.0 != "" ==> |r.1| < |s|
  {
    var t := SkipSpace(s);
    var n := Span(t, EndsWord);
    (t[..n], t[n..])
  }

  function ReadUntilNewline(s: string): (r: (string, string))
    ensures |r.1| <= |s|
    ensures s != "" && !EndsLine(s[0]) ==> |r.1| < |s|
  {
    var n := Span(s, EndsLine);
    (TrimSpace(s[..n]), s[n..])
  }

  function ExpectByte(s: string, c: char): (r: Outcome<()>)
    ensures r.Parsed? ==> |r.rest| < |s|
  {
    var t := SkipSpace(s);
    if t == "" || t[0] != c then Refused(Expected(c), t) else Parsed((), t[1..])
  }

  /** One item, up to a comma, which is taken, or a closing bracket, which is not. */
  function NextItem(t: string): (r: (string, string))
    ensures |r.1| <= |t|
    ensures t != "" && t[0] != ']' ==> |r.1| < |t|
  {
    var n := Span(t, EndsItem);
    (TrimSpace(t[..n]), if n < |t| && t[n] == ',' then t[n + 1..] else t[n..])
  }

  function ListItems(s: string, items: seq<string>): (r: Outcome<seq<string>>)
    ensures r.Parsed? ==> |r.rest| < |s|
    decreases |s|
  {
    var t := SkipSpace(s);
    if t == "" then Diverges
    else if t[0] == ']' then Parsed(items, t[1..])
    else
      var (item, after) := NextItem(t);
      ListItems(after, if item != "" then items + [item] else items)
  }

  function ReadBracketList(s: string): (r: Outcome<seq<string>>)
    ensures r.Parsed? ==> |r.rest| < |s|
  {
    var t := SkipSpace(s);
    if t == "" || t[0] != '[' then Refused(Expected('['), t) else ListItems(t[1..], [])
  }

  function QuotedRest(s: string, read: string): (r: Outcome<string>)
    ensures r.Parsed? ==> |r.rest| < |s|
    decreases |s|
  {
    if s == "" then Refused(UnterminatedString, s)
    else if s[0] == '\\' && |s| > 1 then QuotedRest(s[2..], read + [s[1]])
    else if s[0] == '"' then Parsed(read, s[1..])
    else QuotedRest(s[1..], read + [s[0]])
  }

  function ReadQuotedString(s: string): (r: Outcome<string>)
    ensures r.Parsed? ==> |r.rest| < |s|
  {
    if s == "" || s[0] != '"' then Refused(Expected('"'), s) else QuotedRest(s[1..], "")
  }

  function ParseBool(s: string): bool {
    var t := ToLower(TrimSpace(s));
    t == "true" || t == "yes" || t == "on" || t == "1"
  }

  function ReadNumber(s: string): (r: Outcome<int>)
    ensures r.Parsed? ==> |r.rest| < |s|
  {
    var (word, rest) := ReadWord(s);
    var n := Atoi(word);
    if n.None? then Refused(BadNumber(word), rest) else Parsed(n.value, rest)
  }

  // ----- The commands block

  function CommandOf(kind: string, rest: string): Option<CommandConfig> {
    if kind == "api-call" then
      var parts := Fields(rest);
      if |parts| < 2 then None else Some(CommandConfig(kind, parts[0], parts[1]))
    else Some(CommandConfig(kind, "", rest))
  }

  function CommandsLoop(s: string, cmds: seq<CommandConfig>): (r: Outcome<seq<CommandConfig>>)
    ensures r.Parsed? ==> |r.rest| < |s|
    decreases |s|
  {
    var t := SkipSpace(s);
    if t == "" then Diverges
    else if t[0] == '}' then Parsed(cmds, t[1..])
    else
      var (kind, u) := ReadWord(t);
      var (rest, v) := ReadUntilNewline(u);
      assert |v| < |t| by { LineProgress(t); }
      var c := CommandOf(kind, rest);
      if c.None? then Refused(MissingRoute, v) else CommandsLoop(v, cmds + [c.value])
  }

  /** A word and the rest of its line always take something, brace or not. */
  lemma LineProgress(t: string)
    requires t != "" && t == SkipSpace(t) && t[0] != '}'
    ensures |ReadUntilNewline(ReadWord(t).1).1| < |t|
  {
    if ReadWord(t).0 == "" {
      assert Span(t, EndsWord) == 0;
      assert ReadWord(t).1 == t;
    }
  }

  function ParseCommands(s: string): (r: Outcome<seq<CommandConfig>>)
    ensures r.Parsed? ==> |r.rest| < |s|
  {
    var open := ExpectByte(s, '{');
    if !open.Parsed? then Fail(open) else CommandsLoop(open.rest, [])
  }

  // ----- The meta block

  function AfterPrefix(s: string, p: string): Option<string> {
    if HasPrefix(s, p) then Some(s[|p|..]) else None
  }

  /** The value `strconv.Atoi` returns beside an error: 0, or the nearest number in range. */
  function AtoiValue(s: string): int {
    match Atoi(s)
    case Some(n) => n
    case None =>
      var signed := s != [] && (s[0] == '-' || s[0] == '+');
      var digits := if signed then s[1..] else s;
      if digits == [] || !AllDigits(digits) then 0 else if s[0] == '-' then -TWO_63 else TWO_63 - 1
  }

  /** The last `format=` part. */
  function FeedFormat(parts: seq<string>): string {
    if parts == [] then ""
    else
      var n := |parts| - 1;
      match AfterPrefix(parts[n], "format=")
      case Some(format) => format
      case None => FeedFormat(parts[..n])
  }

  predicate IsBracket(c: char) {
    c == '[' || c == ']'
  }

  predicate IsQuote(c: char) {
    c == '"'
  }

  function PathOf(item: string): string {
    Trim(TrimSpace(item), IsQuote)
  }

  /** The items as `clean` leaves them, without those of which nothing is left. */
  function Cleaned(items: seq<string>, clean: string -> string): seq<string> {
    if items == [] then []
    else
      var item := clean(items[|items| - 1]);
      Cleaned(items[..|items| - 1], clean) + if item != "" then [item] else []
  }

  lemma CleanedNext(items: seq<string>, i: nat, clean: string -> string)
    requires i < |items|
    ensures var item := clean(items[i]);
      Cleaned(items[..i + 1], clean) == Cleaned(items[..i], clean) + if item != "" then [item] else []
  {
    assert items[..i + 1][..i] == items[..i];
  }

  function RobotsPart(robots: RobotsConfig, part: string): RobotsConfig {
    match AfterPrefix(part, "crawl-delay=")
    case Some(value) => robots.(crawlDelay := AtoiValue(value))
    case None =>
      match AfterPrefix(part, "allow=")
      case Some(list) => robots.(allowedPaths := robots.allowedPaths + Cleaned(Split(Trim(list, IsBracket), ','), PathOf))
      case None => robots
  }

  function RobotsParts(robots: RobotsConfig, parts: seq<string>): RobotsConfig {
    if parts == [] then robots
    else RobotsPart(RobotsParts(robots, parts[..|parts| - 1]), parts[|parts| - 1])
  }

  /** One line of the block; `None` when a path is missing and the program fails. */
  function MetaLine(meta: MetaConfig, keyword: string, rest: string): Option<MetaConfig> {
    var parts := Fields(rest);
    if keyword == "rss-feed" then
      if parts == [] then None
      else Some(meta.(feeds := meta.feeds + [FeedConfig(parts[0], FeedFormat(parts[1..]))]))
    else if keyword == "sitemap" then
      if parts == [] then None
      else Some(meta.(sitemap := SitemapConfig(parts[0], meta.sitemap.dynamic || "dynamic=true" in parts[1..])))
    else if keyword == "robots" then Some(meta.(robots := RobotsParts(meta.robots, parts)))
    else Some(meta)
  }

  function MetaLoop(s: string, meta: MetaConfig): (r: Outcome<MetaConfig>)
    ensures r.Parsed? ==> |r.rest| < |s|
    decreases |s|
  {
    var t := SkipSpace(s);
    if t == "" then Diverges
    else if t[0] == '}' then Parsed(meta, t[1..])
    else
      var (keyword, u) := ReadWord(t);
      var (rest, v) := ReadUntilNewline(u);
      assert |v| < |t| by { LineProgress(t); }
      var m := MetaLine(meta, keyword, rest);
      if m.None? then Panics else MetaLoop(v, m.value)
  }

  function ParseMeta(s: string): (r: Outcome<MetaConfig>)
    ensures r.Parsed? ==> |r.rest| < |s|
  {
    var open := ExpectByte(s, '{');
    if !open.Parsed? then Fail(open) else MetaLoop(open.rest, NO_META)
  }

  // ----- The two auth blocks

  /** The block inside `mcp` is strict: it refuses a tier it does not know. */
  function GrantTo(auth: AuthConfig, tier: string, list: seq<string>, strict: bool): Option<AuthConfig> {
    if tier == TIER_ANONYMOUS then Some(auth.(anonymous := list))
    else if tier == TIER_IDENTIFIED then Some(auth.(identified := list))
    else if tier == TIER_TRUSTED then Some(auth.(trusted := list))
    else if strict then None
    else Some(auth)
  }

  function AuthLoop(s: string, auth: AuthConfig, strict: bool): (r: Outcome<AuthConfig>)
    ensures r.Parsed? ==> |r.rest| < |s|
    decreases |s|
  {
    var t := SkipSpace(s);
    if t != "" && t[0] == '}' then Parsed(auth, t[1..])
    else
      var (tier, u) := ReadWord(t);
      var list := ReadBracketList(u);
      if !list.Parsed? then Fail(list)
      else
        var granted := GrantTo(auth, tier, list.value, strict);
        if granted.None? then Refused(UnknownTier(tier), list.rest)
        else AuthLoop(list.rest, granted.value, strict)
  }

  function ParseAuth(s: string, strict: bool): (r: Outcome<AuthConfig>)
    ensures r.Parsed? ==> |r.rest| < |s|
  {
    var open := ExpectByte(s, '{');
    if !open.Parsed? then Fail(open) else AuthLoop(open.rest, NO_AUTH, strict)
  }

  // ----- The mcp block

  const NO_MCP := MCPConfig("", "", "", NO_AUTH)

  function McpDirective(keyword: string, s: string, mcp: MCPConfig): (r: Outcome<MCPConfig>)
    ensures r.Parsed? ==> |r.rest| <= |s|
  {
    if keyword == "server" then
      var (transport, u) := ReadWord(s);
      if transport == "stdio" then
        var command := ReadQuotedString(SkipSpace(u));
        if !command.Parsed? then Fail(command)
        else Parsed(mcp.(transport := "stdio", command := command.value), command.rest)
      else if transport == "http" then
        var (url, v) := ReadWord(u);
        Parsed(mcp.(transport := "http", url := url), v)
      else Refused(UnknownTransport(transport), u)
    else if keyword == "auth" then
      var auth := ParseAuth(s, true);
      if !auth.Parsed? then Fail(auth) else Parsed(mcp.(auth := auth.value), auth.rest)
    else Refused(UnknownKeyword(keyword), s)
  }

  lemma McpKeyword(keyword: string, s: string, mcp: MCPConfig)
    requires McpDirective(keyword, s, mcp).Parsed?
    ensures keyword == "server" || keyword == "auth"
  {
  }

  function McpLoop(s: string, mcp: MCPConfig): (r: Outcome<MCPConfig>)
    ensures r.Parsed? ==> |r.rest| < |s|
    decreases |s|
  {
    var t := SkipSpace(s);
    if t != "" && t[0] == '}' then
      if mcp.transport == "" then Refused(MissingServer, t[1..]) else Parsed(mcp, t[1..])
    else
      var (keyword, u) := ReadWord(t);
      var m := McpDirective(keyword, u, mcp);
      if !m.Parsed? then m
      else
        assert keyword != "" by { McpKeyword(keyword, u, mcp); }
        McpLoop(m.rest, m.value)
  }

  function ParseMcp(s: string): (r: Outcome<MCPConfig>)
    ensures r.Parsed? ==> |r.rest| < |s|
  {
    var open := ExpectByte(s, '{');
    if !open.Parsed? then Fail(open) else McpLoop(open.rest, NO_MCP)
  }

  // ----- The proxy-cache block

  datatype CacheKeyword = Allow | Deny | Ttl | MaxSize | Storage | MaxRedirects | AllowPrivateIPs | AllowRedirects | OtherKey

  function CacheKeywordOf(word: string): CacheKeyword {
    if word == "allow" then Allow
    else if word == "deny" then Deny
    else if word == "ttl" then Ttl
    else if word == "max-size" then MaxSize
    else if word == "storage" then Storage
    else if word == "max-redirects" then MaxRedirects
    else if word == "allow-private-ips" then AllowPrivateIPs
    else if word == "allow-redirects" then AllowRedirects
    else OtherKey
  }

  /** What one `keyword word` line does to the block. */
  function CacheSet(keyword: CacheKeyword, word: string, pc: ProxyCacheConfig): ProxyCacheConfig {
    match keyword
    case Allow => pc.(allowedOrigins := pc.allowedOrigins + [word])
    case Deny => if word == "*" then pc.(denyAll := true) else pc
    case Ttl => pc.(ttl := word)
    case MaxSize => pc.(maxSize := word)
    case Storage => pc.(storagePath := word)
    case AllowPrivateIPs => pc.(allowPrivateIPs := ParseBool(word))
    case AllowRedirects => pc.(allowRedirects := Some(ParseBool(word)))
    case _ => pc
  }

  function CacheDirective(keyword: CacheKeyword, s: string, pc: ProxyCacheConfig): (r: Outcome<ProxyCacheConfig>)
    ensures r.Parsed? ==> |r.rest| <= |s|
  {
    if keyword == OtherKey then Parsed(pc, ReadUntilNewline(s).1)
    else if keyword == MaxRedirects then
      var n := ReadNumber(s);
      if !n.Parsed? then Fail(n) else Parsed(pc.(maxRedirects := n.value), n.rest)
    else
      var (word, rest) := ReadWord(s);
      Parsed(CacheSet(keyword, word, pc), rest)
  }

  lemma CacheProgress(t: string, keyword: CacheKeyword, pc: ProxyCacheConfig)
    requires t != "" && t == SkipSpace(t) && t[0] != '}'
    requires ReadWord(t).0 == "" ==> keyword == OtherKey
    ensures var p := CacheDirective(keyword, ReadWord(t).1, pc);
      p.Parsed? ==> |p.rest| < |t|
  {
    if ReadWord(t).0 == "" {
      LineProgress(t);
    }
  }

  function CacheLoop(s: string, pc: ProxyCacheConfig): (r: Outcome<ProxyCacheConfig>)
    ensures r.Parsed? ==> |r.rest| < |s|
    decreases |s|
  {
    var t := SkipSpace(s);
    if t == "" then Diverges
    else if t[0] == '}' then Parsed(pc, t[1..])
    else
      var (keyword, u) := ReadWord(t);
      var p := CacheDirective(CacheKeywordOf(keyword), u, pc);
      if !p.Parsed? then p
      else
        assert |p.rest| < |t| by { CacheProgress(t, CacheKeywordOf(keyword), pc); }
        CacheLoop(p.rest, p.value)
  }

  function ParseProxyCache(s: string): (r: Outcome<ProxyCacheConfig>)
    ensures r.Parsed? ==> |r.rest| < |s|
  {
    var open := ExpectByte(s, '{');
    if !open.Parsed? then Fail(open) else CacheLoop(open.rest, NO_PROXY_CACHE)
  }

  // ----- The limits block

  function LimitTo(limits: LimitsConfig, tier: string, value: string): LimitsConfig {
    if tier == TIER_ANONYMOUS then limits.(anonymous := value)
    else if tier == TIER_IDENTIFIED then limits.(identified := value)
    else if tier == TIER_TRUSTED then limits.(trusted := value)
    else limits
  }

  /** At the end of the input, and at a stray `{`, both words are empty and nothing moves. */
  function LimitsLoop(s: string, limits: LimitsConfig): (r: Outcome<LimitsConfig>)
    ensures r.Parsed? ==> |r.rest| < |s|
    decreases |s|
  {
    var t := SkipSpace(s);
    if t == "" || t[0] == '{' then Diverges
    else if t[0] == '}' then Parsed(limits, t[1..])
    else
      var (tier, u) := ReadWord(t);
      var (value, v) := ReadWord(u);
      assert tier != "" by {
        assert Span(t, EndsWord) > 0;
      }
      LimitsLoop(v, LimitTo(limits, tier, value))
  }

  function ParseLimits(s: string): (r: Outcome<LimitsConfig>)
    ensures r.Parsed? ==> |r.rest| < |s|
  {
    var open := ExpectByte(s, '{');
    if !open.Parsed? then Fail(open) else LimitsLoop(open.rest, NO_LIMITS)
  }

  // ----- Sites

  datatype SiteKeyword =
    | Port | HostKey | Root | Backend | AuthorizedKeys | Commands | Meta | Mcp | ProxyCache | Auth | Limits | OtherWord

  function SiteKeywordOf(word: string): SiteKeyword {
    if word == "port" then Port
    else if word == "host-key" then HostKey
    else if word == "root" then Root
    else if word == "backend" then Backend
    else if word == "authorized-keys" then AuthorizedKeys
    else if word == "commands" then Commands
    else if word == "meta" then Meta
    else if word == "mcp" then Mcp
    else if word == "proxy-cache" then ProxyCache
    else if word == "auth" then Auth
    else if word == "limits" then Limits
    else OtherWord
  }

  function SiteDirective(keyword: SiteKeyword, word: string, s: string, site: SiteConfig): (r: Outcome<SiteConfig>)
    ensures r.Parsed? ==> |r.rest| <= |s|
    ensures keyword == OtherWord ==> r.Refused?
  {
    match keyword
    case Port =>
      var n := ReadNumber(s);
      if !n.Parsed? then Fail(n) else Parsed(site.(port := n.value), n.rest)
    case HostKey => Parsed(site.(hostKey := ReadWord(s).0), ReadWord(s).1)
    case Root => Parsed(site.(root := ReadWord(s).0), ReadWord(s).1)
    case Backend => Parsed(site.(backend := ReadWord(s).0), ReadWord(s).1)
    case AuthorizedKeys => Parsed(site.(authorizedKeys := ReadWord(s).0), ReadWord(s).1)
    case Commands =>
      var c := ParseCommands(s);
      if !c.Parsed? then Fail(c) else Parsed(site.(commands := c.value), c.rest)
    case Meta =>
      var m := ParseMeta(s);
      if !m.Parsed? then Fail(m) else Parsed(site.(meta := m.value), m.rest)
    case Mcp =>
      var m := ParseMcp(s);
      if !m.Parsed? then Fail(m) else Parsed(site.(mcp := Some(m.value)), m.rest)
    case ProxyCache =>
      var p := ParseProxyCache(s);
      if !p.Parsed? then Fail(p) else Parsed(site.(proxyCache := p.value), p.rest)
    case Auth =>
      var a := ParseAuth(s, false);
      if !a.Parsed? then Fail(a) else Parsed(site.(auth := a.value), a.rest)
    case Limits =>
      var l := ParseLimits(s);
      if !l.Parsed? then Fail(l) else Parsed(site.(limits := l.value), l.rest)
    case OtherWord => Refused(UnknownKeyword(word), s)
  }

  function SiteLoop(s: string, site: SiteConfig): (r: Outcome<SiteConfig>)
    ensures r.Parsed? ==> |r.rest| < |s|
    decreases |s|
  {
    var t := SkipSpace(s);
    if t == "" then Refused(UnexpectedEnd, t)
    else if t[0] == '}' then Parsed(site, t[1..])
    else
      var (word, u) := ReadWord(t);
      var r := SiteDirective(SiteKeywordOf(word), word, u, site);
      if !r.Parsed? then r
      else
        assert word != "";
        SiteLoop(r.rest, r.value)
  }

  function ParseSite(s: string): (r: Outcome<SiteConfig>)
    ensures r.Parsed? ==> |r.rest| < |s|
  {
    var (host, u) := ReadWord(s);
    if host == "" then Refused(MissingHost, u)
    else
      var open := ExpectByte(u, '{');
      if !open.Parsed? then Fail(open) else SiteLoop(open.rest, NewSite(host))
  }

  function ConfigLoop(s: string, sites: seq<SiteConfig>): (r: Outcome<Config>)
    ensures r.Parsed? ==> r.rest == ""
    decreases |s|
  {
    var t := SkipSpace(s);
    if t == "" then Parsed(Config(sites), "")
    else
      var (keyword, u) := ReadWord(t);
      if keyword != "site" then Refused(UnknownKeyword(keyword), u)
      else
        var site := ParseSite(u);
        if !site.Parsed? then Fail(site) else ConfigLoop(site.rest, sites + [site.value])
  }

  /** Success means the whole input was consumed. */
  function ParseConfig(input: string): (r: Outcome<Config>)
    ensures r.Parsed? ==> r.rest == ""
  {
    ConfigLoop(input, [])
  }
}
