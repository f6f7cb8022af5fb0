/**
  Configurations written directive by directive: any of them, in any order, any number of
  times or not at all. What the parser makes of them is stated with every keyword and every
  default spelt out.
 */
module ConfigDirectives {
  import opened Config
  import opened ConfigMeta
  import opened ConfigPrinter
  import opened ConfigSyntax
  import opened Strconv
  import opened Strings
  import opened Wrappers

  datatype Block = Block(host: string, directives: seq<Directive>)

  datatype Directive =
    | PortIs(port: int)
    | HostKeyIs(word: string)
    | RootIs(word: string)
    | BackendIs(word: string)
    | KeysAre(word: string)
    | CommandsAre(commands: seq<CommandConfig>)
    | CacheIs(cache: seq<CacheEntry>)
    | AuthIs(grants: seq<Grant>)
    | LimitsAre(limits: seq<Limit>)
    | McpIs(mcp: seq<McpEntry>)
    | MetaIs(meta: seq<MetaEntry>)

  datatype CacheEntry =
    | AllowOf(origin: string)
    | DenyOf(word: string)
    | TtlOf(word: string)
    | MaxSizeOf(word: string)
    | StorageOf(word: string)
    | MaxRedirectsOf(number: int)
    | PrivateIPsOf(answer: string)
    | RedirectsOf(answer: string)
    | UnknownOf(keyword: string, text: string)

  datatype Grant = Grant(tier: string, names: seq<string>)

  datatype Limit = Limit(tier: string, spec: string)

  datatype McpEntry = StdioServer(command: string) | HttpServer(url: string) | McpAuth(grants: seq<Grant>)

  datatype MetaEntry =
    | FeedAt(path: string, format: Option<string>)
    | SitemapAt(path: string, dynamic: bool)
    | RobotsOf(delay: Option<int>, paths: seq<string>)

  // ----- What they mean

  predicate IsYes(answer: string) {
    answer == "true" || answer == "yes" || answer == "on" || answer == "1"
  }

  predicate IsNo(answer: string) {
    answer == "false" || answer == "no" || answer == "off" || answer == "0"
  }

  function CacheWith(e: CacheEntry, pc: ProxyCacheConfig): ProxyCacheConfig {
    match e
    case AllowOf(origin) => pc.(allowedOrigins := pc.allowedOrigins + [origin])
    case DenyOf(word) => pc.(denyAll := pc.denyAll || word == "*")
    case TtlOf(word) => pc.(ttl := word)
    case MaxSizeOf(word) => pc.(maxSize := word)
    case StorageOf(word) => pc.(storagePath := word)
    case MaxRedirectsOf(number) => pc.(maxRedirects := number)
    case PrivateIPsOf(answer) => pc.(allowPrivateIPs := IsYes(answer))
    case RedirectsOf(answer) => pc.(allowRedirects := Some(IsYes(answer)))
    case UnknownOf(_, _) => pc
  }

  function CacheOf(entries: seq<CacheEntry>, pc: ProxyCacheConfig): ProxyCacheConfig {
    if entries == [] then pc else CacheOf(entries[1..], CacheWith(entries[0], pc))
  }

  function AuthWith(g: Grant, auth: AuthConfig): AuthConfig {
    if g.tier == "anonymous" then auth.(anonymous := g.names)
    else if g.tier == "identified" then auth.(identified := g.names)
    else if g.tier == "trusted" then auth.(trusted := g.names)
    else auth
  }

  function AuthOf(grants: seq<Grant>, auth: AuthConfig): AuthConfig {
    if grants == [] then auth else AuthOf(grants[1..], AuthWith(grants[0], auth))
  }

  function LimitsWith(l: Limit, limits: LimitsConfig): LimitsConfig {
    if l.tier == "anonymous" then limits.(anonymous := l.spec)
    else if l.tier == "identified" then limits.(identified := l.spec)
    else if l.tier == "trusted" then limits.(trusted := l.spec)
    else limits
  }

  function LimitsOf(ls: seq<Limit>, limits: LimitsConfig): LimitsConfig {
    if ls == [] then limits else LimitsOf(ls[1..], LimitsWith(ls[0], limits))
  }

  /** A second server of the other kind keeps the command or the address of the first. */
  function McpWith(e: McpEntry, mcp: MCPConfig): MCPConfig {
    match e
    case StdioServer(command) => mcp.(transport := "stdio", command := command)
    case HttpServer(url) => mcp.(transport := "http", url := url)
    case McpAuth(grants) => mcp.(auth := AuthOf(grants, AuthConfig([], [], [])))
  }

  function McpOf(entries: seq<McpEntry>, mcp: MCPConfig): MCPConfig {
    if entries == [] then mcp else McpOf(entries[1..], McpWith(entries[0], mcp))
  }

  /** Robots paths add up over the lines, and a dynamic site map stays dynamic. */
  function MetaWith(e: MetaEntry, meta: MetaConfig): MetaConfig {
    match e
    case FeedAt(path, format) =>
      meta.(feeds := meta.feeds + [FeedConfig(path, if format.Some? then format.value else "")])
    case SitemapAt(path, dynamic) => meta.(sitemap := SitemapConfig(path, meta.sitemap.dynamic || dynamic))
    case RobotsOf(delay, paths) =>
      meta.(robots := RobotsConfig(if delay.Some? then delay.value else meta.robots.crawlDelay,
                                   meta.robots.allowedPaths + paths))
  }

  function MetaOf(entries: seq<MetaEntry>, meta: MetaConfig): MetaConfig {
    if entries == [] then meta else MetaOf(entries[1..], MetaWith(entries[0], meta))
  }

  /** What one directive does to a site: a block replaces all that an earlier one of its kind said. */
  function Apply(d: Directive, site: SiteConfig): SiteConfig {
    match d
    case PortIs(port) => site.(port := port)
    case HostKeyIs(word) => site.(hostKey := word)
    case RootIs(word) => site.(root := word)
    case BackendIs(word) => site.(backend := word)
    case KeysAre(word) => site.(authorizedKeys := word)
    case CommandsAre(commands) => site.(commands := commands)
    case CacheIs(entries) =>
      site.(proxyCache := CacheOf(entries, ProxyCacheConfig([], false, "", "", "", 0, false, None)))
    case AuthIs(grants) => site.(auth := AuthOf(grants, AuthConfig([], [], [])))
    case LimitsAre(ls) => site.(limits := LimitsOf(ls, LimitsConfig("", "", "")))
    case McpIs(entries) => site.(mcp := Some(McpOf(entries, MCPConfig("", "", "", AuthConfig([], [], [])))))
    case MetaIs(entries) =>
      site.(meta := MetaOf(entries, MetaConfig([], SitemapConfig("", false), RobotsConfig(0, []))))
  }

  function Applied(ds: seq<Directive>, site: SiteConfig): SiteConfig {
    if ds == [] then site else Applied(ds[1..], Apply(ds[0], site))
  }

  function SiteOf(b: Block): SiteConfig {
    Applied(b.directives,
      SiteConfig(b.host, 22443, "", "", "", "", [],
        ProxyCacheConfig([], false, "", "", "", 0, false, None),
        AuthConfig([], [], []),
        LimitsConfig("", "", ""),
        None,
        MetaConfig([], SitemapConfig("", false), RobotsConfig(0, []))))
  }

  function SitesOf(blocks: seq<Block>): seq<SiteConfig> {
    if blocks == [] then [] else [SiteOf(blocks[0])] + SitesOf(blocks[1..])
  }

  // ----- How they are written; `tail` is the text that comes after

  function CacheEntryText(lay: Layout, e: CacheEntry, tail: string): string {
    match e
    case AllowOf(origin) => Line(lay, "allow", origin, tail)
    case DenyOf(word) => Line(lay, "deny", word, tail)
    case TtlOf(word) => Line(lay, "ttl", word, tail)
    case MaxSizeOf(word) => Line(lay, "max-size", word, tail)
    case StorageOf(word) => Line(lay, "storage", word, tail)
    case MaxRedirectsOf(number) => Line(lay, "max-redirects", Itoa(number), tail)
    case PrivateIPsOf(answer) => Line(lay, "allow-private-ips", answer, tail)
    case RedirectsOf(answer) => Line(lay, "allow-redirects", answer, tail)
    case UnknownOf(keyword, text) => Line(lay, keyword, text, tail)
  }

  function CacheText(lay: Layout, entries: seq<CacheEntry>, tail: string): string {
    if entries == [] then tail else CacheEntryText(lay, entries[0], CacheText(lay, entries[1..], tail))
  }

  function GrantsText(lay: Layout, grants: seq<Grant>, tail: string): string {
    if grants == [] then tail
    else GrantLine(lay, grants[0].tier, grants[0].names, GrantsText(lay, grants[1..], tail))
  }

  function LimitsText(lay: Layout, ls: seq<Limit>, tail: string): string {
    if ls == [] then tail else Line(lay, ls[0].tier, ls[0].spec, LimitsText(lay, ls[1..], tail))
  }

  function McpEntryText(lay: Layout, e: McpEntry, tail: string): string {
    match e
    case StdioServer(command) => "server" + (" " + ("stdio" + (" " + Quoted(command, Break(lay, tail)))))
    case HttpServer(url) => "server" + (" " + ("http" + (" " + (url + Break(lay, tail)))))
    case McpAuth(grants) => Opening(lay, "auth", GrantsText(lay, grants, Closing(lay, tail)))
  }

  function McpEntriesText(lay: Layout, entries: seq<McpEntry>, tail: string): string {
    if entries == [] then tail else McpEntryText(lay, entries[0], McpEntriesText(lay, entries[1..], tail))
  }

  function MetaKeyword(e: MetaEntry): string {
    match e
    case FeedAt(_, _) => "rss-feed"
    case SitemapAt(_, _) => "sitemap"
    case RobotsOf(_, _) => "robots"
  }

  function AllowText(paths: seq<string>): string {
    "allow=" + ("[" + (Join(paths, ",") + "]"))
  }

  function RobotsValue(delay: Option<int>, paths: seq<string>): string {
    if delay.None? then (if paths == [] then "" else AllowText(paths))
    else if paths == [] then "crawl-delay=" + Itoa(delay.value)
    else "crawl-delay=" + Itoa(delay.value) + (" " + AllowText(paths))
  }

  function MetaValue(e: MetaEntry): string {
    match e
    case FeedAt(path, format) => if format.None? then path else path + (" " + ("format=" + format.value))
    case SitemapAt(path, dynamic) => if dynamic then path + (" " + "dynamic=true") else path
    case RobotsOf(delay, paths) => RobotsValue(delay, paths)
  }

  function MetaEntriesText(lay: Layout, entries: seq<MetaEntry>, tail: string): string {
    if entries == [] then tail
    else Line(lay, MetaKeyword(entries[0]), MetaValue(entries[0]), MetaEntriesText(lay, entries[1..], tail))
  }

  function BlockName(d: Directive): string {
    match d
    case CommandsAre(_) => "commands"
    case CacheIs(_) => "proxy-cache"
    case AuthIs(_) => "auth"
    case LimitsAre(_) => "limits"
    case McpIs(_) => "mcp"
    case MetaIs(_) => "meta"
    case _ => ""
  }

  function BlockText(lay: Layout, d: Directive, tail: string): string {
    match d
    case CommandsAre(commands) => CommandLines(lay, commands, tail)
    case CacheIs(entries) => CacheText(lay, entries, tail)
    case AuthIs(grants) => GrantsText(lay, grants, tail)
    case LimitsAre(ls) => LimitsText(lay, ls, tail)
    case McpIs(entries) => McpEntriesText(lay, entries, tail)
    case MetaIs(entries) => MetaEntriesText(lay, entries, tail)
    case _ => ""
  }

  function DirectiveText(lay: Layout, d: Directive, tail: string): string {
    match d
    case PortIs(port) => Line(lay, "port", Itoa(port), tail)
    case HostKeyIs(word) => Line(lay, "host-key", word, tail)
    case RootIs(word) => Line(lay, "root", word, tail)
    case BackendIs(word) => Line(lay, "backend", word, tail)
    case KeysAre(word) => Line(lay, "authorized-keys", word, tail)
    case _ => Opening(lay, BlockName(d), BlockText(lay, d, Closing(lay, tail)))
  }

  function DirectivesText(lay: Layout, ds: seq<Directive>, tail: string): string {
    if ds == [] then tail else DirectiveText(lay, ds[0], DirectivesText(lay, ds[1..], tail))
  }

  function BlocksText(lay: Layout, blocks: seq<Block>): string {
    if blocks == [] then ""
    else
      var after := Closing(lay, BlocksText(lay, blocks[1..]));
      "site" + (" " + Opening(lay, blocks[0].host, DirectivesText(lay, blocks[0].directives, after)))
  }

  // ----- What can be written

  ghost predicate GoodCacheEntry(e: CacheEntry) {
    match e
    case AllowOf(origin) => IsWord(origin)
    case DenyOf(word) => IsWord(word)
    case TtlOf(word) => IsWord(word)
    case MaxSizeOf(word) => IsWord(word)
    case StorageOf(word) => IsWord(word)
    case MaxRedirectsOf(number) => IsInt64(number)
    case PrivateIPsOf(answer) => IsYes(answer) || IsNo(answer)
    case RedirectsOf(answer) => IsYes(answer) || IsNo(answer)
    case UnknownOf(keyword, text) =>
      IsWord(keyword) && CacheKeywordOf(keyword) == OtherKey && Trimmed(text) && OnOneLine(text)
  }

  ghost predicate GoodCache(entries: seq<CacheEntry>) {
    entries == [] || (GoodCacheEntry(entries[0]) && GoodCache(entries[1..]))
  }

  predicate IsTier(tier: string) {
    tier == "anonymous" || tier == "identified" || tier == "trusted"
  }

  /** Outside `mcp` a tier the parser does not know is read and dropped. */
  ghost predicate GoodGrants(grants: seq<Grant>, strict: bool) {
    grants == [] ||
    (IsWord(grants[0].tier) && (strict ==> IsTier(grants[0].tier)) && PrintableList(grants[0].names) &&
     GoodGrants(grants[1..], strict))
  }

  ghost predicate GoodLimits(ls: seq<Limit>) {
    ls == [] || (IsWord(ls[0].tier) && IsWord(ls[0].spec) && GoodLimits(ls[1..]))
  }

  ghost predicate GoodMcpEntry(e: McpEntry) {
    match e
    case StdioServer(_) => true
    case HttpServer(url) => IsWord(url)
    case McpAuth(grants) => GoodGrants(grants, true)
  }

  ghost predicate GoodMcp(entries: seq<McpEntry>) {
    entries == [] || (GoodMcpEntry(entries[0]) && GoodMcp(entries[1..]))
  }

  predicate HasServer(entries: seq<McpEntry>) {
    entries != [] && (!entries[0].McpAuth? || HasServer(entries[1..]))
  }

  ghost predicate GoodMetaEntry(e: MetaEntry) {
    match e
    case FeedAt(path, format) => PrintableFeed(FeedConfig(path, if format.Some? then format.value else ""))
    case SitemapAt(path, dynamic) => path != "" && PrintableSitemap(SitemapConfig(path, dynamic))
    case RobotsOf(delay, paths) => PrintableRobots(RobotsConfig(if delay.Some? then delay.value else 0, paths))
  }

  ghost predicate GoodMeta(entries: seq<MetaEntry>) {
    entries == [] || (GoodMetaEntry(entries[0]) && GoodMeta(entries[1..]))
  }

  ghost predicate GoodDirective(d: Directive) {
    match d
    case PortIs(port) => IsInt64(port)
    case HostKeyIs(word) => IsWord(word)
    case RootIs(word) => IsWord(word)
    case BackendIs(word) => IsWord(word)
    case KeysAre(word) => IsWord(word)
    case CommandsAre(commands) => PrintableCommands(commands)
    case CacheIs(entries) => GoodCache(entries)
    case AuthIs(grants) => GoodGrants(grants, false)
    case LimitsAre(ls) => GoodLimits(ls)
    case McpIs(entries) => GoodMcp(entries) && HasServer(entries)
    case MetaIs(entries) => GoodMeta(entries)
  }

  ghost predicate GoodDirectives(ds: seq<Directive>) {
    ds == [] || (GoodDirective(ds[0]) && GoodDirectives(ds[1..]))
  }

  ghost predicate GoodBlocks(blocks: seq<Block>) {
    blocks == [] || (IsWord(blocks[0].host) && GoodDirectives(blocks[0].directives) && GoodBlocks(blocks[1..]))
  }

  // ----- The proxy-cache block

  lemma AnswerBack(answer: string)
    requires IsYes(answer) || IsNo(answer)
    ensures IsWord(answer) && ParseBool(answer) == IsYes(answer)
  {
    AnswerIsPlain(answer);
    ParseBoolOfWord(answer);
  }

  lemma AnswerIsPlain(answer: string)
    requires IsYes(answer) || IsNo(answer)
    ensures IsWord(answer) && Trimmed(answer) && ToLower(answer) == answer
  {
    assert forall i :: 0 <= i < |answer| ==> 'a' <= answer[i] <= 'z' || '0' <= answer[i] <= '9';
  }

  lemma UnknownBack(lay: Layout, keyword: string, text: string, tail: string, pc: ProxyCacheConfig)
    requires GoodLayout(lay) && GoodCacheEntry(UnknownOf(keyword, text))
    ensures CacheLoop(Line(lay, keyword, text, tail), pc) == CacheLoop(tail, pc)
  {
    SkipBreak(lay, tail);
    var after := " " + (text + Break(lay, tail));
    ReadWordOf(keyword, after);
    ReadLineValue(text, Break(lay, tail));
    CacheStep(keyword + after, pc, CacheDirective(OtherKey, after, pc));
    CacheBreak(lay, tail, pc);
  }

  /** The lines that consist of a keyword the parser knows and a word. */
  lemma CacheEntryIs(lay: Layout, e: CacheEntry, tail: string, pc: ProxyCacheConfig)
    returns (keyword: CacheKeyword, word: string)
    requires GoodCacheEntry(e) && !e.MaxRedirectsOf? && !e.UnknownOf?
    ensures IsWord(word) && keyword != OtherKey && keyword != MaxRedirects
    ensures CacheEntryText(lay, e, tail) == Line(lay, CacheName(keyword), word, tail)
    ensures CacheWith(e, pc) == CacheSet(keyword, word, pc)
  {
    if e.PrivateIPsOf? || e.RedirectsOf? {
      keyword, word := CacheAnswerIs(lay, e, tail, pc);
    } else {
      keyword, word := CacheWordIs(lay, e, tail, pc);
    }
  }

  lemma CacheWordIs(lay: Layout, e: CacheEntry, tail: string, pc: ProxyCacheConfig)
    returns (keyword: CacheKeyword, word: string)
    requires GoodCacheEntry(e) && (e.AllowOf? || e.DenyOf? || e.TtlOf? || e.MaxSizeOf? || e.StorageOf?)
    ensures IsWord(word) && keyword != OtherKey && keyword != MaxRedirects
    ensures CacheEntryText(lay, e, tail) == Line(lay, CacheName(keyword), word, tail)
    ensures CacheWith(e, pc) == CacheSet(keyword, word, pc)
  {
    match e
    case AllowOf(origin) => keyword, word := Allow, origin;
    case DenyOf(w) => keyword, word := Deny, w;
    case TtlOf(w) => keyword, word := Ttl, w;
    case MaxSizeOf(w) => keyword, word := MaxSize, w;
    case StorageOf(w) => keyword, word := Storage, w;
    case _ =>
  }

  lemma CacheAnswerIs(lay: Layout, e: CacheEntry, tail: string, pc: ProxyCacheConfig)
    returns (keyword: CacheKeyword, word: string)
    requires GoodCacheEntry(e) && (e.PrivateIPsOf? || e.RedirectsOf?)
    ensures IsWord(word) && keyword != OtherKey && keyword != MaxRedirects
    ensures CacheEntryText(lay, e, tail) == Line(lay, CacheName(keyword), word, tail)
    ensures CacheWith(e, pc) == CacheSet(keyword, word, pc)
  {
    word := e.answer;
    AnswerBack(word);
    AnswerSets(word, pc, IsYes(word));
    AnswerMeans(e, pc, IsYes(word));
    keyword := AnswerText(lay, e, tail);
  }

  lemma AnswerText(lay: Layout, e: CacheEntry, tail: string) returns (keyword: CacheKeyword)
    requires e.PrivateIPsOf? || e.RedirectsOf?
    ensures keyword == if e.PrivateIPsOf? then AllowPrivateIPs else AllowRedirects
    ensures CacheEntryText(lay, e, tail) == Line(lay, CacheName(keyword), e.answer, tail)
  {
    keyword := if e.PrivateIPsOf? then AllowPrivateIPs else AllowRedirects;
  }

  lemma AnswerSets(answer: string, pc: ProxyCacheConfig, yes: bool)
    requires ParseBool(answer) == yes
    ensures CacheSet(AllowPrivateIPs, answer, pc) == pc.(allowPrivateIPs := yes)
    ensures CacheSet(AllowRedirects, answer, pc) == pc.(allowRedirects := Some(yes))
  {
  }

  lemma AnswerMeans(e: CacheEntry, pc: ProxyCacheConfig, yes: bool)
    requires (e.PrivateIPsOf? || e.RedirectsOf?) && yes == IsYes(e.answer)
    ensures e.PrivateIPsOf? ==> CacheWith(e, pc) == pc.(allowPrivateIPs := yes)
    ensures e.RedirectsOf? ==> CacheWith(e, pc) == pc.(allowRedirects := Some(yes))
  {
  }

  lemma CacheLineBack(lay: Layout, e: CacheEntry, tail: string, pc: ProxyCacheConfig)
    requires GoodLayout(lay) && GoodCacheEntry(e) && !e.MaxRedirectsOf? && !e.UnknownOf?
    ensures CacheLoop(CacheEntryText(lay, e, tail), pc) == CacheLoop(tail, CacheWith(e, pc))
  {
    var keyword, word := CacheEntryIs(lay, e, tail, pc);
    CacheWordBack(lay, keyword, word, tail, pc);
  }

  lemma CacheNumberIs(lay: Layout, e: CacheEntry, tail: string)
    requires e.MaxRedirectsOf?
    ensures CacheEntryText(lay, e, tail) == Line(lay, CacheName(MaxRedirects), Itoa(e.number), tail)
  {
  }

  lemma CacheNumberLineBack(lay: Layout, e: CacheEntry, tail: string, pc: ProxyCacheConfig)
    requires GoodLayout(lay) && GoodCacheEntry(e) && e.MaxRedirectsOf?
    ensures CacheLoop(CacheEntryText(lay, e, tail), pc) == CacheLoop(tail, CacheWith(e, pc))
  {
    CacheNumberIs(lay, e, tail);
    CacheNumberBack(lay, e.number, tail, pc);
  }

  lemma CacheUnknownLineBack(lay: Layout, e: CacheEntry, tail: string, pc: ProxyCacheConfig)
    requires GoodLayout(lay) && GoodCacheEntry(e) && e.UnknownOf?
    ensures CacheLoop(CacheEntryText(lay, e, tail), pc) == CacheLoop(tail, CacheWith(e, pc))
  {
    UnknownBack(lay, e.keyword, e.text, tail, pc);
  }

  lemma CacheEntryBack(lay: Layout, e: CacheEntry, tail: string, pc: ProxyCacheConfig)
    requires GoodLayout(lay) && GoodCacheEntry(e)
    ensures CacheLoop(CacheEntryText(lay, e, tail), pc) == CacheLoop(tail, CacheWith(e, pc))
  {
    if e.MaxRedirectsOf? {
      CacheNumberLineBack(lay, e, tail, pc);
    } else if e.UnknownOf? {
      CacheUnknownLineBack(lay, e, tail, pc);
    } else {
      CacheLineBack(lay, e, tail, pc);
    }
  }

  lemma {:induction false} CacheEntriesBack(lay: Layout, entries: seq<CacheEntry>, tail: string, pc: ProxyCacheConfig)
    requires GoodLayout(lay) && GoodCache(entries)
    ensures CacheLoop(CacheText(lay, entries, tail), pc) == CacheLoop(tail, CacheOf(entries, pc))
    decreases |entries|
  {
    if entries != [] {
      CacheEntryBack(lay, entries[0], CacheText(lay, entries[1..], tail), pc);
      CacheEntriesBack(lay, entries[1..], tail, CacheWith(entries[0], pc));
    }
  }

  lemma CacheBack(lay: Layout, entries: seq<CacheEntry>, tail: string, none: ProxyCacheConfig)
    requires GoodLayout(lay) && GoodCache(entries) && none == ProxyCacheConfig([], false, "", "", "", 0, false, None)
    ensures ParseProxyCache(" {" + Break(lay, CacheText(lay, entries, Closing(lay, tail)))) ==
            Parsed(CacheOf(entries, none), Break(lay, tail))
  {
    var body := CacheText(lay, entries, Closing(lay, tail));
    ExpectOpening(lay, body);
    CacheBreak(lay, body, none);
    CacheEntriesBack(lay, entries, Closing(lay, tail), none);
    SkipClosing(lay, tail);
  }

  // ----- The auth blocks

  lemma {:induction false} GrantsBack(lay: Layout, grants: seq<Grant>, tail: string, auth: AuthConfig, strict: bool)
    requires GoodLayout(lay) && GoodGrants(grants, strict)
    ensures AuthLoop(GrantsText(lay, grants, tail), auth, strict) == AuthLoop(tail, AuthOf(grants, auth), strict)
    decreases |grants|
  {
    if grants != [] {
      GrantMeans(grants[0], auth, strict);
      GrantLineBack(lay, grants[0].tier, grants[0].names, GrantsText(lay, grants[1..], tail), auth, strict);
      GrantsBack(lay, grants[1..], tail, AuthWith(grants[0], auth), strict);
    }
  }

  lemma GrantMeans(g: Grant, auth: AuthConfig, strict: bool)
    requires strict ==> IsTier(g.tier)
    ensures GrantTo(auth, g.tier, g.names, strict) == Some(AuthWith(g, auth))
  {
  }

  lemma AuthBack(lay: Layout, grants: seq<Grant>, tail: string, strict: bool, none: AuthConfig)
    requires GoodLayout(lay) && GoodGrants(grants, strict) && none == AuthConfig([], [], [])
    ensures ParseAuth(" {" + Break(lay, GrantsText(lay, grants, Closing(lay, tail))), strict) ==
            Parsed(AuthOf(grants, none), Break(lay, tail))
  {
    var body := GrantsText(lay, grants, Closing(lay, tail));
    ExpectOpening(lay, body);
    AuthBreak(lay, body, none, strict);
    GrantsBack(lay, grants, Closing(lay, tail), none, strict);
    SkipClosing(lay, tail);
  }

  // ----- The limits block

  lemma LimitLineBack(lay: Layout, l: Limit, tail: string, limits: LimitsConfig)
    requires GoodLayout(lay) && IsWord(l.tier) && IsWord(l.spec)
    ensures LimitsLoop(Line(lay, l.tier, l.spec, tail), limits) == LimitsLoop(tail, LimitsWith(l, limits))
  {
    LimitBack(lay, l.tier, l.spec, tail, limits);
    LimitMeans(l, limits);
  }

  lemma LimitMeans(l: Limit, limits: LimitsConfig)
    ensures LimitTo(limits, l.tier, l.spec) == LimitsWith(l, limits)
  {
  }

  lemma {:induction false} LimitEntriesBack(lay: Layout, ls: seq<Limit>, tail: string, limits: LimitsConfig)
    requires GoodLayout(lay) && GoodLimits(ls)
    ensures LimitsLoop(LimitsText(lay, ls, tail), limits) == LimitsLoop(tail, LimitsOf(ls, limits))
    decreases |ls|
  {
    if ls != [] {
      LimitLineBack(lay, ls[0], LimitsText(lay, ls[1..], tail), limits);
      LimitEntriesBack(lay, ls[1..], tail, LimitsWith(ls[0], limits));
    }
  }

  lemma LimitsBack(lay: Layout, ls: seq<Limit>, tail: string, none: LimitsConfig)
    requires GoodLayout(lay) && GoodLimits(ls) && none == LimitsConfig("", "", "")
    ensures ParseLimits(" {" + Break(lay, LimitsText(lay, ls, Closing(lay, tail)))) ==
            Parsed(LimitsOf(ls, none), Break(lay, tail))
  {
    var body := LimitsText(lay, ls, Closing(lay, tail));
    ExpectOpening(lay, body);
    SkipBreak(lay, body);
    LimitEntriesBack(lay, ls, Closing(lay, tail), none);
    SkipClosing(lay, tail);
  }

  // ----- The mcp block

  lemma McpEntryBack(lay: Layout, e: McpEntry, tail: string, mcp: MCPConfig)
    requires GoodLayout(lay) && GoodMcpEntry(e)
    ensures McpLoop(McpEntryText(lay, e, tail), mcp) == McpLoop(tail, McpWith(e, mcp))
  {
    match e
    case StdioServer(command) =>
      StdioBack(lay, command, tail, mcp);
      ServerBack(lay, "stdio" + (" " + Quoted(command, Break(lay, tail))), tail, mcp, McpWith(e, mcp));
    case HttpServer(url) =>
      HttpBack(lay, url, tail, mcp);
      ServerBack(lay, "http" + (" " + (url + Break(lay, tail))), tail, mcp, McpWith(e, mcp));
    case McpAuth(grants) =>
      McpGrantsBack(lay, grants, tail, mcp, AuthConfig([], [], []));
  }

  lemma McpGrantsBack(lay: Layout, grants: seq<Grant>, tail: string, mcp: MCPConfig, none: AuthConfig)
    requires GoodLayout(lay) && GoodGrants(grants, true) && none == AuthConfig([], [], [])
    ensures McpLoop(Opening(lay, "auth", GrantsText(lay, grants, Closing(lay, tail))), mcp) ==
            McpLoop(tail, mcp.(auth := AuthOf(grants, none)))
  {
    var after := " {" + Break(lay, GrantsText(lay, grants, Closing(lay, tail)));
    ReadWordOf("auth", after);
    AuthBack(lay, grants, tail, true, none);
    McpStep("auth" + after, mcp, McpDirective("auth", after, mcp));
    McpBreak(lay, tail, mcp.(auth := AuthOf(grants, none)));
  }

  lemma {:induction false} McpEntriesBack(lay: Layout, entries: seq<McpEntry>, tail: string, mcp: MCPConfig)
    requires GoodLayout(lay) && GoodMcp(entries)
    ensures McpLoop(McpEntriesText(lay, entries, tail), mcp) == McpLoop(tail, McpOf(entries, mcp))
    decreases |entries|
  {
    if entries != [] {
      McpEntryBack(lay, entries[0], McpEntriesText(lay, entries[1..], tail), mcp);
      McpEntriesBack(lay, entries[1..], tail, McpWith(entries[0], mcp));
    }
  }

  lemma {:induction false} TransportGiven(entries: seq<McpEntry>, mcp: MCPConfig)
    ensures McpOf(entries, mcp).transport == "" <==> mcp.transport == "" && !HasServer(entries)
    decreases |entries|
  {
    if entries != [] {
      TransportGiven(entries[1..], McpWith(entries[0], mcp));
    }
  }

  /** Without a `server` line the block is refused, whatever else it says. */
  lemma McpBack(lay: Layout, entries: seq<McpEntry>, tail: string, none: MCPConfig)
    requires GoodLayout(lay) && GoodMcp(entries) && none == MCPConfig("", "", "", AuthConfig([], [], []))
    ensures ParseMcp(" {" + Break(lay, McpEntriesText(lay, entries, Closing(lay, tail)))) ==
            if HasServer(entries) then Parsed(McpOf(entries, none), Break(lay, tail))
            else Refused(MissingServer, Break(lay, tail))
  {
    var body := McpEntriesText(lay, entries, Closing(lay, tail));
    ExpectOpening(lay, body);
    McpBreak(lay, body, none);
    McpEntriesBack(lay, entries, Closing(lay, tail), none);
    SkipClosing(lay, tail);
    TransportGiven(entries, none);
  }

  // ----- The meta block

  lemma FeedAtRead(e: MetaEntry, meta: MetaConfig, keyword: string)
    requires e.FeedAt? && GoodMetaEntry(e) && keyword == "rss-feed"
    ensures Trimmed(MetaValue(e)) && OnOneLine(MetaValue(e))
    ensures MetaLine(meta, keyword, MetaValue(e)) == Some(MetaWith(e, meta))
  {
    if e.format.None? {
      OneWordFits(e.path);
      assert FeedFormat([]) == "";
      assert [e.path][1..] == [];
    } else {
      var f := FeedConfig(e.path, e.format.value);
      FeedTextFits(f);
      FeedRead(meta, f, keyword);
    }
  }

  lemma SitemapAtRead(e: MetaEntry, meta: MetaConfig, keyword: string)
    requires e.SitemapAt? && GoodMetaEntry(e) && keyword == "sitemap"
    ensures Trimmed(MetaValue(e)) && OnOneLine(MetaValue(e))
    ensures MetaLine(meta, keyword, MetaValue(e)) == Some(MetaWith(e, meta))
  {
    var s := SitemapConfig(e.path, e.dynamic);
    SitemapTextFits(s);
    DynamicListed(s, Fields(SitemapText(s)));
    SitemapLine(meta, keyword, SitemapText(s));
  }

  lemma NoParts(robots: RobotsConfig)
    ensures Trimmed("") && OnOneLine("") && Fields("") == [] && RobotsParts(robots, []) == robots
  {
  }

  lemma OnePart(robots: RobotsConfig, part: string)
    requires IsToken(part) && OnOneLine(part)
    ensures Trimmed(part) && Fields(part) == [part] && RobotsParts(robots, [part]) == RobotsPart(robots, part)
  {
    OneWordFits(part);
    RobotsSnoc(robots, [], part);
    assert [] + [part] == [part];
  }

  lemma TwoParts(robots: RobotsConfig, a: string, b: string)
    requires IsToken(a) && IsToken(b) && OnOneLine(a) && OnOneLine(b)
    ensures Trimmed(a + (" " + b)) && OnOneLine(a + (" " + b)) && Fields(a + (" " + b)) == [a, b]
    ensures RobotsParts(robots, [a, b]) == RobotsPart(RobotsPart(robots, a), b)
  {
    TwoWordsFit(a, b);
    FieldsOfTwo(a, b);
    TwoRobotsParts(robots, a, b);
  }

  lemma RobotsValueRead(delay: Option<int>, paths: seq<string>, robots: RobotsConfig)
    requires GoodMetaEntry(RobotsOf(delay, paths))
    ensures Trimmed(RobotsValue(delay, paths)) && OnOneLine(RobotsValue(delay, paths))
    ensures RobotsParts(robots, Fields(RobotsValue(delay, paths))) ==
            RobotsConfig(if delay.Some? then delay.value else robots.crawlDelay, robots.allowedPaths + paths)
  {
    var n := if delay.Some? then delay.value else 0;
    var r := RobotsConfig(n, paths);
    AllowPartFits(r);
    DelayPartFits(n);
    assert robots.allowedPaths + [] == robots.allowedPaths;
    if delay.None? {
      if paths == [] {
        NoParts(robots);
      } else {
        OnePart(robots, AllowPart(paths));
        AllowRead(robots, r);
      }
    } else if paths == [] {
      OnePart(robots, DelayPart(n));
      DelayRead(robots, n);
    } else {
      TwoParts(robots, DelayPart(n), AllowPart(paths));
      DelayRead(robots, n);
      AllowRead(robots.(crawlDelay := n), r);
    }
  }

  lemma RobotsOfRead(e: MetaEntry, meta: MetaConfig, keyword: string)
    requires e.RobotsOf? && GoodMetaEntry(e) && keyword == "robots"
    ensures Trimmed(MetaValue(e)) && OnOneLine(MetaValue(e))
    ensures MetaLine(meta, keyword, MetaValue(e)) == Some(MetaWith(e, meta))
  {
    RobotsValueRead(e.delay, e.paths, meta.robots);
    RobotsLine(meta, keyword, RobotsValue(e.delay, e.paths), MetaWith(e, meta).robots);
  }

  lemma MetaEntryRead(e: MetaEntry, meta: MetaConfig)
    requires GoodMetaEntry(e)
    ensures IsWord(MetaKeyword(e)) && Trimmed(MetaValue(e)) && OnOneLine(MetaValue(e))
    ensures MetaLine(meta, MetaKeyword(e), MetaValue(e)) == Some(MetaWith(e, meta))
  {
    MetaWords();
    match e
    case FeedAt(_, _) => FeedAtRead(e, meta, MetaKeyword(e));
    case SitemapAt(_, _) => SitemapAtRead(e, meta, MetaKeyword(e));
    case RobotsOf(_, _) => RobotsOfRead(e, meta, MetaKeyword(e));
  }

  lemma MetaEntryBack(lay: Layout, e: MetaEntry, tail: string, meta: MetaConfig)
    requires GoodLayout(lay) && GoodMetaEntry(e)
    ensures MetaLoop(Line(lay, MetaKeyword(e), MetaValue(e), tail), meta) == MetaLoop(tail, MetaWith(e, meta))
  {
    MetaEntryRead(e, meta);
    MetaLineBack(lay, MetaKeyword(e), MetaValue(e), tail, meta, MetaWith(e, meta));
  }

  lemma {:induction false} MetaEntriesBack(lay: Layout, entries: seq<MetaEntry>, tail: string, meta: MetaConfig)
    requires GoodLayout(lay) && GoodMeta(entries)
    ensures MetaLoop(MetaEntriesText(lay, entries, tail), meta) == MetaLoop(tail, MetaOf(entries, meta))
    decreases |entries|
  {
    if entries != [] {
      MetaEntryBack(lay, entries[0], MetaEntriesText(lay, entries[1..], tail), meta);
      MetaEntriesBack(lay, entries[1..], tail, MetaWith(entries[0], meta));
    }
  }

  lemma MetaBack(lay: Layout, entries: seq<MetaEntry>, tail: string, none: MetaConfig)
    requires GoodLayout(lay) && GoodMeta(entries)
    requires none == MetaConfig([], SitemapConfig("", false), RobotsConfig(0, []))
    ensures ParseMeta(" {" + Break(lay, MetaEntriesText(lay, entries, Closing(lay, tail)))) ==
            Parsed(MetaOf(entries, none), Break(lay, tail))
  {
    var body := MetaEntriesText(lay, entries, Closing(lay, tail));
    ExpectOpening(lay, body);
    MetaBreak(lay, body, none);
    MetaEntriesBack(lay, entries, Closing(lay, tail), none);
    SkipClosing(lay, tail);
  }

  // ----- Sites

  lemma WordDirectiveBack(lay: Layout, keyword: SiteKeyword, word: string, tail: string, site: SiteConfig)
    requires GoodLayout(lay) && IsWord(word) && TakesWord(keyword)
    ensures SiteLoop(Line(lay, SiteName(keyword), word, tail), site) == SiteLoop(tail, SiteSet(keyword, word, site))
  {
    SiteOptionalBack(lay, keyword, word, tail, site, SiteSet(keyword, word, site));
  }

  predicate IsWordLine(d: Directive) {
    d.HostKeyIs? || d.RootIs? || d.BackendIs? || d.KeysAre?
  }

  lemma WordLineIs(lay: Layout, d: Directive, tail: string, site: SiteConfig) returns (keyword: SiteKeyword)
    requires IsWordLine(d)
    ensures TakesWord(keyword)
    ensures DirectiveText(lay, d, tail) == Line(lay, SiteName(keyword), d.word, tail)
    ensures Apply(d, site) == SiteSet(keyword, d.word, site)
  {
    match d
    case HostKeyIs(_) => keyword := HostKey;
    case RootIs(_) => keyword := Root;
    case BackendIs(_) => keyword := Backend;
    case KeysAre(_) => keyword := AuthorizedKeys;
    case _ =>
  }

  lemma LineBack(lay: Layout, d: Directive, tail: string, site: SiteConfig)
    requires GoodLayout(lay) && GoodDirective(d) && (d.PortIs? || IsWordLine(d))
    ensures SiteLoop(DirectiveText(lay, d, tail), site) == SiteLoop(tail, Apply(d, site))
  {
    if d.PortIs? {
      PortBack(lay, d.port, tail, site);
    } else {
      var keyword := WordLineIs(lay, d, tail, site);
      WordDirectiveBack(lay, keyword, d.word, tail, site);
    }
  }

  function BlockKeyword(d: Directive): SiteKeyword {
    match d
    case CommandsAre(_) => Commands
    case CacheIs(_) => ProxyCache
    case AuthIs(_) => Auth
    case LimitsAre(_) => Limits
    case McpIs(_) => Mcp
    case MetaIs(_) => Meta
    case _ => OtherWord
  }

  /** The block's name and the brace after it: what the parser is left with once it has read the name. */
  function AfterName(lay: Layout, d: Directive, tail: string): string {
    " {" + Break(lay, BlockText(lay, d, Closing(lay, tail)))
  }

  predicate IsBlock(d: Directive) {
    !d.PortIs? && !IsWordLine(d)
  }

  lemma BlockIsNamed(lay: Layout, d: Directive, tail: string)
    requires IsBlock(d)
    ensures BlockKeyword(d) != OtherWord
    ensures DirectiveText(lay, d, tail) == SiteName(BlockKeyword(d)) + AfterName(lay, d, tail)
  {
  }

  lemma AccessRead(lay: Layout, d: Directive, tail: string, site: SiteConfig, word: string)
    requires GoodLayout(lay) && GoodDirective(d) && (d.CommandsAre? || d.AuthIs? || d.LimitsAre?)
    ensures SiteDirective(BlockKeyword(d), word, AfterName(lay, d, tail), site) == Parsed(Apply(d, site), Break(lay, tail))
  {
    if d.CommandsAre? {
      CommandsBlockBack(lay, d.commands, tail);
    } else if d.AuthIs? {
      AuthBack(lay, d.grants, tail, false, AuthConfig([], [], []));
    } else {
      LimitsBack(lay, d.limits, tail, LimitsConfig("", "", ""));
    }
  }

  lemma ServicesRead(lay: Layout, d: Directive, tail: string, site: SiteConfig, word: string)
    requires GoodLayout(lay) && GoodDirective(d) && (d.CacheIs? || d.McpIs? || d.MetaIs?)
    ensures SiteDirective(BlockKeyword(d), word, AfterName(lay, d, tail), site) == Parsed(Apply(d, site), Break(lay, tail))
  {
    if d.CacheIs? {
      CacheBack(lay, d.cache, tail, ProxyCacheConfig([], false, "", "", "", 0, false, None));
    } else if d.McpIs? {
      McpBack(lay, d.mcp, tail, MCPConfig("", "", "", AuthConfig([], [], [])));
    } else {
      MetaBack(lay, d.meta, tail, MetaConfig([], SitemapConfig("", false), RobotsConfig(0, [])));
    }
  }

  lemma BlockRead(lay: Layout, d: Directive, tail: string, site: SiteConfig, word: string)
    requires GoodLayout(lay) && GoodDirective(d) && IsBlock(d)
    ensures SiteDirective(BlockKeyword(d), word, AfterName(lay, d, tail), site) == Parsed(Apply(d, site), Break(lay, tail))
  {
    if d.CommandsAre? || d.AuthIs? || d.LimitsAre? {
      AccessRead(lay, d, tail, site, word);
    } else {
      ServicesRead(lay, d, tail, site, word);
    }
  }

  lemma DirectiveBack(lay: Layout, d: Directive, tail: string, site: SiteConfig)
    requires GoodLayout(lay) && GoodDirective(d)
    ensures SiteLoop(DirectiveText(lay, d, tail), site) == SiteLoop(tail, Apply(d, site))
  {
    if IsBlock(d) {
      BlockIsNamed(lay, d, tail);
      BlockRead(lay, d, tail, site, SiteName(BlockKeyword(d)));
      SiteStep(lay, BlockKeyword(d), AfterName(lay, d, tail), tail, site, Apply(d, site));
    } else {
      LineBack(lay, d, tail, site);
    }
  }

  lemma {:induction false} DirectivesBack(lay: Layout, ds: seq<Directive>, tail: string, site: SiteConfig)
    requires GoodLayout(lay) && GoodDirectives(ds)
    ensures SiteLoop(DirectivesText(lay, ds, tail), site) == SiteLoop(tail, Applied(ds, site))
    decreases |ds|
  {
    if ds != [] {
      DirectiveBack(lay, ds[0], DirectivesText(lay, ds[1..], tail), site);
      DirectivesBack(lay, ds[1..], tail, Apply(ds[0], site));
    }
  }

  lemma BlockBack(lay: Layout, b: Block, tail: string, site: SiteConfig)
    requires GoodLayout(lay) && IsWord(b.host) && GoodDirectives(b.directives)
    requires site == NewSite(b.host)
    ensures ParseSite(" " + Opening(lay, b.host, DirectivesText(lay, b.directives, Closing(lay, tail)))) ==
            Parsed(Applied(b.directives, site), Break(lay, tail))
  {
    var body := DirectivesText(lay, b.directives, Closing(lay, tail));
    ReadNextWord(b.host, " {" + Break(lay, body));
    ExpectOpening(lay, body);
    SiteBreak(lay, body, site);
    DirectivesBack(lay, b.directives, Closing(lay, tail), site);
    SkipClosing(lay, tail);
  }

  lemma OneBlockBack(lay: Layout, b: Block, tail: string, done: seq<SiteConfig>)
    requires GoodLayout(lay) && IsWord(b.host) && GoodDirectives(b.directives)
    ensures ConfigLoop("site" + (" " + Opening(lay, b.host, DirectivesText(lay, b.directives, Closing(lay, tail)))), done) ==
            ConfigLoop(tail, done + [SiteOf(b)])
  {
    var after := " " + Opening(lay, b.host, DirectivesText(lay, b.directives, Closing(lay, tail)));
    BlockBack(lay, b, tail, NewSite(b.host));
    ConfigStep(after, done, SiteOf(b), Break(lay, tail));
    ConfigBreak(lay, tail, done + [SiteOf(b)]);
  }

  lemma Regroup<T>(done: seq<T>, x: T, rest: seq<T>)
    ensures done + [x] + rest == done + ([x] + rest)
  {
  }

  lemma {:induction false} BlocksBack(lay: Layout, blocks: seq<Block>, done: seq<SiteConfig>)
    requires GoodLayout(lay) && GoodBlocks(blocks)
    ensures ConfigLoop(BlocksText(lay, blocks), done) == Parsed(Config(done + SitesOf(blocks)), "")
    decreases |blocks|
  {
    if blocks == [] {
      assert done + [] == done;
    } else {
      OneBlockBack(lay, blocks[0], BlocksText(lay, blocks[1..]), done);
      BlocksBack(lay, blocks[1..], done + [SiteOf(blocks[0])]);
      Regroup(done, SiteOf(blocks[0]), SitesOf(blocks[1..]));
    }
  }

  /**
    Under every layout the parser gives each site what its directives say, a later one of a
    kind over an earlier, and the default to whatever they leave out.
   */
  lemma ParseOfDirectives(lay: Layout, blocks: seq<Block>)
    requires GoodLayout(lay) && GoodBlocks(blocks)
    ensures ParseConfig(Break(lay, BlocksText(lay, blocks))) == Parsed(Config(SitesOf(blocks)), "")
  {
    ConfigBreak(lay, BlocksText(lay, blocks), []);
    BlocksBack(lay, blocks, []);
    assert [] + SitesOf(blocks) == SitesOf(blocks);
  }

  /** The empty block: the default port, and nothing else. */
  lemma EmptySite(lay: Layout, host: string)
    requires GoodLayout(lay) && IsWord(host)
    ensures ParseConfig(Break(lay, "site" + (" " + Opening(lay, host, Closing(lay, ""))))) ==
            Parsed(Config([SiteConfig(host, 22443, "", "", "", "", [],
                             ProxyCacheConfig([], false, "", "", "", 0, false, None),
                             AuthConfig([], [], []), LimitsConfig("", "", ""), None,
                             MetaConfig([], SitemapConfig("", false), RobotsConfig(0, [])))]), "")
  {
    var b := Block(host, []);
    ConfigBreak(lay, "site" + (" " + Opening(lay, host, Closing(lay, ""))), []);
    OneBlockBack(lay, b, "", []);
    assert [] + [SiteOf(b)] == [SiteOf(b)];
  }

  // ----- What is left out, and what is given more than once

  lemma {:induction false} UntouchedWords(ds: seq<Directive>, site: SiteConfig)
    ensures var r := Applied(ds, site);
      && r.host == site.host
      && ((forall d <- ds :: !d.PortIs?) ==> r.port == site.port)
      && ((forall d <- ds :: !d.HostKeyIs?) ==> r.hostKey == site.hostKey)
      && ((forall d <- ds :: !d.RootIs?) ==> r.root == site.root)
      && ((forall d <- ds :: !d.BackendIs?) ==> r.backend == site.backend)
      && ((forall d <- ds :: !d.KeysAre?) ==> r.authorizedKeys == site.authorizedKeys)
    decreases |ds|
  {
    if ds != [] {
      UntouchedWords(ds[1..], Apply(ds[0], site));
    }
  }

  lemma {:induction false} UntouchedAccess(ds: seq<Directive>, site: SiteConfig)
    ensures var r := Applied(ds, site);
      && ((forall d <- ds :: !d.CommandsAre?) ==> r.commands == site.commands)
      && ((forall d <- ds :: !d.AuthIs?) ==> r.auth == site.auth)
      && ((forall d <- ds :: !d.LimitsAre?) ==> r.limits == site.limits)
    decreases |ds|
  {
    if ds != [] {
      UntouchedAccess(ds[1..], Apply(ds[0], site));
    }
  }

  lemma {:induction false} UntouchedServices(ds: seq<Directive>, site: SiteConfig)
    ensures var r := Applied(ds, site);
      && ((forall d <- ds :: !d.CacheIs?) ==> r.proxyCache == site.proxyCache)
      && ((forall d <- ds :: !d.McpIs?) ==> r.mcp == site.mcp)
      && ((forall d <- ds :: !d.MetaIs?) ==> r.meta == site.meta)
    decreases |ds|
  {
    if ds != [] {
      UntouchedServices(ds[1..], Apply(ds[0], site));
    }
  }

  /** Every directive that a site leaves out has its default. */
  lemma LeftOutIsDefault(b: Block)
    ensures var r := SiteOf(b);
      && r.host == b.host
      && ((forall d <- b.directives :: !d.PortIs?) ==> r.port == 22443)
      && ((forall d <- b.directives :: !d.HostKeyIs?) ==> r.hostKey == "")
      && ((forall d <- b.directives :: !d.RootIs?) ==> r.root == "")
      && ((forall d <- b.directives :: !d.BackendIs?) ==> r.backend == "")
      && ((forall d <- b.directives :: !d.KeysAre?) ==> r.authorizedKeys == "")
      && ((forall d <- b.directives :: !d.CommandsAre?) ==> r.commands == [])
      && ((forall d <- b.directives :: !d.CacheIs?) ==>
            r.proxyCache == ProxyCacheConfig([], false, "", "", "", 0, false, None))
      && ((forall d <- b.directives :: !d.AuthIs?) ==> r.auth == AuthConfig([], [], []))
      && ((forall d <- b.directives :: !d.LimitsAre?) ==> r.limits == LimitsConfig("", "", ""))
      && ((forall d <- b.directives :: !d.McpIs?) ==> r.mcp == None)
      && ((forall d <- b.directives :: !d.MetaIs?) ==>
            r.meta == MetaConfig([], SitemapConfig("", false), RobotsConfig(0, [])))
  {
    var empty := SiteConfig(b.host, 22443, "", "", "", "", [],
      ProxyCacheConfig([], false, "", "", "", 0, false, None),
      AuthConfig([], [], []), LimitsConfig("", "", ""), None,
      MetaConfig([], SitemapConfig("", false), RobotsConfig(0, [])));
    UntouchedWords(b.directives, empty);
    UntouchedAccess(b.directives, empty);
    UntouchedServices(b.directives, empty);
  }

  lemma {:induction false} AppliedSplits(before: seq<Directive>, after: seq<Directive>, site: SiteConfig)
    ensures Applied(before + after, site) == Applied(after, Applied(before, site))
    decreases |before|
  {
    if before == [] {
      assert before + after == after;
    } else {
      assert (before + after)[1..] == before[1..] + after;
      AppliedSplits(before[1..], after, Apply(before[0], site));
    }
  }

  /** Of the lines and blocks of one kind the last one given counts, whatever comes before it and after. */
  lemma LastOneCounts(host: string, before: seq<Directive>, d: Directive, after: seq<Directive>)
    ensures var r := SiteOf(Block(host, before + ([d] + after)));
      && (d.PortIs? && (forall x <- after :: !x.PortIs?) ==> r.port == d.port)
      && (d.HostKeyIs? && (forall x <- after :: !x.HostKeyIs?) ==> r.hostKey == d.word)
      && (d.RootIs? && (forall x <- after :: !x.RootIs?) ==> r.root == d.word)
      && (d.BackendIs? && (forall x <- after :: !x.BackendIs?) ==> r.backend == d.word)
      && (d.KeysAre? && (forall x <- after :: !x.KeysAre?) ==> r.authorizedKeys == d.word)
      && (d.CommandsAre? && (forall x <- after :: !x.CommandsAre?) ==> r.commands == d.commands)
      && (d.CacheIs? && (forall x <- after :: !x.CacheIs?) ==>
            r.proxyCache == CacheOf(d.cache, ProxyCacheConfig([], false, "", "", "", 0, false, None)))
      && (d.AuthIs? && (forall x <- after :: !x.AuthIs?) ==> r.auth == AuthOf(d.grants, AuthConfig([], [], [])))
      && (d.LimitsAre? && (forall x <- after :: !x.LimitsAre?) ==>
            r.limits == LimitsOf(d.limits, LimitsConfig("", "", "")))
      && (d.McpIs? && (forall x <- after :: !x.McpIs?) ==>
            r.mcp == Some(McpOf(d.mcp, MCPConfig("", "", "", AuthConfig([], [], [])))))
      && (d.MetaIs? && (forall x <- after :: !x.MetaIs?) ==>
            r.meta == MetaOf(d.meta, MetaConfig([], SitemapConfig("", false), RobotsConfig(0, []))))
  {
    var site := AroundOne(host, before, d, after);
    UntouchedWords(after, Apply(d, site));
    UntouchedAccess(after, Apply(d, site));
    UntouchedServices(after, Apply(d, site));
  }

  lemma AroundOne(host: string, before: seq<Directive>, d: Directive, after: seq<Directive>) returns (site: SiteConfig)
    ensures SiteOf(Block(host, before + ([d] + after))) == Applied(after, Apply(d, site))
  {
    var empty := SiteOf(Block(host, []));
    site := Applied(before, empty);
    AppliedSplits(before, [d] + after, empty);
    assert ([d] + after)[1..] == after;
  }

  lemma {:induction false} LeftOutOfOrigins(entries: seq<CacheEntry>, pc: ProxyCacheConfig)
    ensures var r := CacheOf(entries, pc);
      && ((forall e <- entries :: !e.AllowOf?) ==> r.allowedOrigins == pc.allowedOrigins)
      && ((forall e <- entries :: !e.DenyOf?) ==> r.denyAll == pc.denyAll)
    decreases |entries|
  {
    if entries != [] {
      LeftOutOfOrigins(entries[1..], CacheWith(entries[0], pc));
    }
  }

  lemma {:induction false} LeftOutOfSizes(entries: seq<CacheEntry>, pc: ProxyCacheConfig)
    ensures var r := CacheOf(entries, pc);
      && ((forall e <- entries :: !e.TtlOf?) ==> r.ttl == pc.ttl)
      && ((forall e <- entries :: !e.MaxSizeOf?) ==> r.maxSize == pc.maxSize)
      && ((forall e <- entries :: !e.StorageOf?) ==> r.storagePath == pc.storagePath)
    decreases |entries|
  {
    if entries != [] {
      LeftOutOfSizes(entries[1..], CacheWith(entries[0], pc));
    }
  }

  lemma {:induction false} LeftOutOfRedirects(entries: seq<CacheEntry>, pc: ProxyCacheConfig)
    ensures var r := CacheOf(entries, pc);
      && ((forall e <- entries :: !e.MaxRedirectsOf?) ==> r.maxRedirects == pc.maxRedirects)
      && ((forall e <- entries :: !e.PrivateIPsOf?) ==> r.allowPrivateIPs == pc.allowPrivateIPs)
      && ((forall e <- entries :: !e.RedirectsOf?) ==> r.allowRedirects == pc.allowRedirects)
    decreases |entries|
  {
    if entries != [] {
      LeftOutOfRedirects(entries[1..], CacheWith(entries[0], pc));
    }
  }

  lemma {:induction false} LeftOutOfAuth(grants: seq<Grant>, auth: AuthConfig)
    ensures var r := AuthOf(grants, auth);
      && ((forall g <- grants :: g.tier != "anonymous") ==> r.anonymous == auth.anonymous)
      && ((forall g <- grants :: g.tier != "identified") ==> r.identified == auth.identified)
      && ((forall g <- grants :: g.tier != "trusted") ==> r.trusted == auth.trusted)
    decreases |grants|
  {
    if grants != [] {
      LeftOutOfAuth(grants[1..], AuthWith(grants[0], auth));
    }
  }

  lemma {:induction false} LeftOutOfLimits(ls: seq<Limit>, limits: LimitsConfig)
    ensures var r := LimitsOf(ls, limits);
      && ((forall l <- ls :: l.tier != "anonymous") ==> r.anonymous == limits.anonymous)
      && ((forall l <- ls :: l.tier != "identified") ==> r.identified == limits.identified)
      && ((forall l <- ls :: l.tier != "trusted") ==> r.trusted == limits.trusted)
    decreases |ls|
  {
    if ls != [] {
      LeftOutOfLimits(ls[1..], LimitsWith(ls[0], limits));
    }
  }

  lemma {:induction false} LeftOutOfMcp(entries: seq<McpEntry>, mcp: MCPConfig)
    ensures var r := McpOf(entries, mcp);
      && ((forall e <- entries :: !e.StdioServer?) ==> r.command == mcp.command)
      && ((forall e <- entries :: !e.HttpServer?) ==> r.url == mcp.url)
      && ((forall e <- entries :: !e.McpAuth?) ==> r.auth == mcp.auth)
    decreases |entries|
  {
    if entries != [] {
      LeftOutOfMcp(entries[1..], McpWith(entries[0], mcp));
    }
  }

  lemma {:induction false} LeftOutOfMeta(entries: seq<MetaEntry>, meta: MetaConfig)
    ensures var r := MetaOf(entries, meta);
      && ((forall e <- entries :: !e.FeedAt?) ==> r.feeds == meta.feeds)
      && ((forall e <- entries :: !e.SitemapAt?) ==> r.sitemap == meta.sitemap)
      && ((forall e <- entries :: !e.RobotsOf?) ==> r.robots == meta.robots)
    decreases |entries|
  {
    if entries != [] {
      LeftOutOfMeta(entries[1..], MetaWith(entries[0], meta));
    }
  }

  /** Every line that a `proxy-cache` block leaves out has its default. */
  lemma LeftOutInCache(entries: seq<CacheEntry>)
    ensures var r := CacheOf(entries, ProxyCacheConfig([], false, "", "", "", 0, false, None));
      && ((forall e <- entries :: !e.AllowOf?) ==> r.allowedOrigins == [])
      && ((forall e <- entries :: !e.DenyOf?) ==> !r.denyAll)
      && ((forall e <- entries :: !e.TtlOf?) ==> r.ttl == "")
      && ((forall e <- entries :: !e.MaxSizeOf?) ==> r.maxSize == "")
      && ((forall e <- entries :: !e.StorageOf?) ==> r.storagePath == "")
      && ((forall e <- entries :: !e.MaxRedirectsOf?) ==> r.maxRedirects == 0)
      && ((forall e <- entries :: !e.PrivateIPsOf?) ==> !r.allowPrivateIPs)
      && ((forall e <- entries :: !e.RedirectsOf?) ==> r.allowRedirects == None)
  {
    var none := ProxyCacheConfig([], false, "", "", "", 0, false, None);
    LeftOutOfOrigins(entries, none);
    LeftOutOfSizes(entries, none);
    LeftOutOfRedirects(entries, none);
  }

  /** The same of the tiers in an `auth` and in a `limits` block. */
  lemma LeftOutInTiers(grants: seq<Grant>, ls: seq<Limit>)
    ensures var a := AuthOf(grants, AuthConfig([], [], []));
      && ((forall g <- grants :: g.tier != "anonymous") ==> a.anonymous == [])
      && ((forall g <- grants :: g.tier != "identified") ==> a.identified == [])
      && ((forall g <- grants :: g.tier != "trusted") ==> a.trusted == [])
    ensures var l := LimitsOf(ls, LimitsConfig("", "", ""));
      && ((forall x <- ls :: x.tier != "anonymous") ==> l.anonymous == "")
      && ((forall x <- ls :: x.tier != "identified") ==> l.identified == "")
      && ((forall x <- ls :: x.tier != "trusted") ==> l.trusted == "")
  {
    LeftOutOfAuth(grants, AuthConfig([], [], []));
    LeftOutOfLimits(ls, LimitsConfig("", "", ""));
  }

  /** The same of an `mcp` and of a `meta` block. */
  lemma LeftOutInServices(mcp: seq<McpEntry>, meta: seq<MetaEntry>)
    ensures var m := McpOf(mcp, MCPConfig("", "", "", AuthConfig([], [], [])));
      && ((forall e <- mcp :: !e.StdioServer?) ==> m.command == "")
      && ((forall e <- mcp :: !e.HttpServer?) ==> m.url == "")
      && ((forall e <- mcp :: !e.McpAuth?) ==> m.auth == AuthConfig([], [], []))
    ensures var t := MetaOf(meta, MetaConfig([], SitemapConfig("", false), RobotsConfig(0, [])));
      && ((forall e <- meta :: !e.FeedAt?) ==> t.feeds == [])
      && ((forall e <- meta :: !e.SitemapAt?) ==> t.sitemap == SitemapConfig("", false))
      && ((forall e <- meta :: !e.RobotsOf?) ==> t.robots == RobotsConfig(0, []))
  {
    LeftOutOfMcp(mcp, MCPConfig("", "", "", AuthConfig([], [], [])));
    LeftOutOfMeta(meta, MetaConfig([], SitemapConfig("", false), RobotsConfig(0, [])));
  }

  // ----- A directive the parser does not know

  predicate IsDirective(word: string) {
    word in ["port", "host-key", "root", "backend", "authorized-keys", "commands", "meta", "mcp", "proxy-cache", "auth",
             "limits"]
  }

  lemma NotADirective(word: string)
    requires !IsDirective(word)
    ensures SiteKeywordOf(word) == OtherWord
  {
    var all := ["port", "host-key", "root", "backend", "authorized-keys", "commands", "meta", "mcp", "proxy-cache", "auth",
                "limits"];
    assert all[0] == "port" && all[1] == "host-key" && all[2] == "root" && all[3] == "backend";
    assert all[4] == "authorized-keys" && all[5] == "commands" && all[6] == "meta" && all[7] == "mcp";
    assert all[8] == "proxy-cache" && all[9] == "auth" && all[10] == "limits";
  }

  lemma SiteFails(word: string, after: string, site: SiteConfig)
    requires IsWord(word) && !IsDirective(word) && (after == "" || EndsWord(after[0]))
    ensures SiteLoop(word + after, site) == Refused(UnknownKeyword(word), after)
  {
    NotADirective(word);
    ReadWordOf(word, after);
  }

  lemma ConfigFails(keyword: string, after: string, sites: seq<SiteConfig>, problem: Problem, rest: string)
    requires keyword == "site" && after != "" && EndsWord(after[0]) && ParseSite(after) == Refused(problem, rest)
    ensures ConfigLoop(keyword + after, sites) == Refused(problem, rest)
  {
    ReadWordOf(keyword, after);
  }

  /** Any other word where a directive is due is refused by name, whatever comes before it and after. */
  lemma UnknownDirectiveRefused(lay: Layout, b: Block, word: string, after: string)
    requires GoodLayout(lay) && IsWord(b.host) && GoodDirectives(b.directives)
    requires IsWord(word) && !IsDirective(word) && (after == "" || EndsWord(after[0]))
    ensures var body := DirectivesText(lay, b.directives, word + after);
      ParseConfig(Break(lay, "site" + (" " + Opening(lay, b.host, body)))) == Refused(UnknownKeyword(word), after)
  {
    var body := DirectivesText(lay, b.directives, word + after);
    var text := " " + Opening(lay, b.host, body);
    ReadNextWord(b.host, " {" + Break(lay, body));
    ExpectOpening(lay, body);
    SiteBreak(lay, body, NewSite(b.host));
    DirectivesBack(lay, b.directives, word + after, NewSite(b.host));
    SiteFails(word, after, Applied(b.directives, NewSite(b.host)));
    ConfigFails("site", text, [], UnknownKeyword(word), after);
    ConfigBreak(lay, "site" + text, []);
  }
}
