/** The parser itself: a cursor that moves over the input. */
module ConfigParser {
  import opened Config
  import opened ConfigSyntax
  import opened Strconv
  import opened Strings
  import opened Wrappers

  function Newlines(s: string): nat {
    if s == "" then 0 else Newlines(s[..|s| - 1]) + if s[|s| - 1] == '\n' then 1 else 0
  }

  /** How many bytes the character takes in UTF-8. */
  function Width(c: char): nat {
    if c as int < 0x80 then 1 else if c as int < 0x800 then 2 else if c as int < 0x1_0000 then 3 else 4
  }

  /** How many bytes come after the last newline. */
  function SinceNewline(s: string): nat {
    if s == "" || s[|s| - 1] == '\n' then 0 else SinceNewline(s[..|s| - 1]) + Width(s[|s| - 1])
  }

  /** The method's result and the cursor's rest are what the outcome says. */
  ghost predicate Agrees<T>(r: Result<T, Problem>, rest: string, o: Outcome<T>) {
    match o
    case Parsed(value, left) => r == Ok(value) && rest == left
    case Refused(problem, left) => r == Err(problem) && rest == left
    case _ => false
  }

  // ----- The lines of a `meta` block

  /** The last format wins. */
  method ReadFeed(parts: seq<string>) returns (feed: FeedConfig)
    requires parts != []
    ensures feed == FeedConfig(parts[0], FeedFormat(parts[1..]))
  {
    feed := FeedConfig(parts[0], "");
    ghost var others := parts[1..];
    for i := 1 to |parts|
      invariant feed == FeedConfig(parts[0], FeedFormat(others[..i - 1]))
    {
      assert others[..i][..i - 1] == others[..i - 1] && others[..i][i - 1] == parts[i];
      if HasPrefix(parts[i], "format=") {
        feed := feed.(format := parts[i][|"format="|..]);
      }
    }
    assert others[..|others|] == others;
  }

  method ReadSitemap(parts: seq<string>, sitemap: SitemapConfig) returns (r: SitemapConfig)
    requires parts != []
    ensures r == SitemapConfig(parts[0], sitemap.dynamic || "dynamic=true" in parts[1..])
  {
    r := sitemap.(path := parts[0]);
    ghost var others := parts[1..];
    for i := 1 to |parts|
      invariant r == SitemapConfig(parts[0], sitemap.dynamic || "dynamic=true" in others[..i - 1])
    {
      assert others[..i] == others[..i - 1] + [parts[i]];
      if parts[i] == "dynamic=true" {
        r := r.(dynamic := true);
      }
    }
    assert others[..|others|] == others;
  }

  method ReadRobots(parts: seq<string>, robots: RobotsConfig) returns (r: RobotsConfig)
    ensures r == RobotsParts(robots, parts)
  {
    r := robots;
    for i := 0 to |parts|
      invariant r == RobotsParts(robots, parts[..i])
    {
      assert parts[..i + 1][..i] == parts[..i];
      r := ReadRobotsPart(parts[i], r);
    }
    assert parts[..|parts|] == parts;
  }

  method ReadRobotsPart(part: string, robots: RobotsConfig) returns (r: RobotsConfig)
    ensures r == RobotsPart(robots, part)
  {
    r := robots;
    OneKindOnly(part);
    if HasPrefix(part, "crawl-delay=") {
      r := r.(crawlDelay := AtoiValue(part[|"crawl-delay="|..]));
    }
    if HasPrefix(part, "allow=") {
      var paths := ReadPaths(Split(Trim(part[|"allow="|..], IsBracket), ','));
      r := r.(allowedPaths := r.allowedPaths + paths);
    }
  }

  /** No part is both a delay and a list. */
  lemma OneKindOnly(part: string)
    ensures !(HasPrefix(part, "crawl-delay=") && HasPrefix(part, "allow="))
  {
    assert HasPrefix(part, "crawl-delay=") ==> part[0] == "crawl-delay="[0];
    assert HasPrefix(part, "allow=") ==> part[0] == "allow="[0];
  }

  method ReadPaths(items: seq<string>) returns (paths: seq<string>)
    ensures paths == Cleaned(items, PathOf)
  {
    paths := [];
    for i := 0 to |items|
      invariant paths == Cleaned(items[..i], PathOf)
    {
      CleanedNext(items, i, PathOf);
      var item := Trim(TrimSpace(items[i]), IsQuote);
      if item != "" {
        paths := paths + [item];
      }
    }
    assert items[..|items|] == items;
  }

  /** One line of the block. */
  method ReadMetaLine(meta: MetaConfig, keyword: string, rest: string) returns (r: MetaConfig)
    requires MetaLine(meta, keyword, rest).Some?
    ensures Some(r) == MetaLine(meta, keyword, rest)
  {
    if keyword == "rss-feed" {
      var feed := ReadFeed(Fields(rest));
      return meta.(feeds := meta.feeds + [feed]);
    } else if keyword == "sitemap" {
      var sitemap := ReadSitemap(Fields(rest), meta.sitemap);
      return meta.(sitemap := sitemap);
    } else if keyword == "robots" {
      var robots := ReadRobots(Fields(rest), meta.robots);
      return meta.(robots := robots);
    }
    return meta;
  }

  lemma SliceOfRest(s: string, from: nat, n: nat)
    requires from + n <= |s|
    ensures s[from..from + n] == s[from..][..n]
  {
  }

  /** What the loop over the sites does with the next keyword. */
  lemma SiteComesNext(t: string, sites: seq<SiteConfig>)
    requires t != "" && SkipSpace(t) == t
    ensures ReadWord(t).0 == "site" ==>
      var site := ParseSite(ReadWord(t).1);
      ConfigLoop(t, sites) == if site.Parsed? then ConfigLoop(site.rest, sites + [site.value]) else Fail(site)
    ensures ReadWord(t).0 != "site" ==> ConfigLoop(t, sites) == Refused(UnknownKeyword(ReadWord(t).0), ReadWord(t).1)
  {
  }

  class Parser {
    const input: string
    var pos: nat
    var line: int
    var col: int

    /** The cursor is inside the input, and line and column count what was consumed. */
    ghost predicate Valid()
      reads this
    {
      && pos <= |input|
      && line == 1 + Newlines(input[..pos])
      && col == 1 + SinceNewline(input[..pos])
    }

    ghost function Rest(): string
      reads this
      requires pos <= |input|
    {
      input[pos..]
    }

    constructor (input: string)
      ensures Valid() && this.input == input && Rest() == input
    {
      this.input, pos, line, col := input, 0, 1, 1;
    }

    method Advance() returns (ch: char)
      requires Valid() && pos < |input|
      modifies this
      ensures Valid() && pos == old(pos) + 1
      ensures ch == old(Rest())[0] && Rest() == old(Rest())[1..]
    {
      ch := input[pos];
      assert input[..pos + 1][..pos] == input[..pos];
      pos := pos + 1;
      if ch == '\n' {
        line := line + 1;
        col := 1;
      } else {
        col := col + Width(ch);
      }
    }

    /** The inner scanning loops: up to the first character `stop` holds of. */
    method AdvanceTo(stop: char -> bool)
      requires Valid()
      modifies this
      ensures Valid() && old(pos) <= pos
      ensures pos == old(pos) + Span(old(Rest()), stop)
      ensures Rest() == old(Rest())[Span(old(Rest()), stop)..]
    {
      ghost var start := Rest();
      while pos < |input| && !stop(input[pos])
        invariant Valid() && old(pos) <= pos
        invariant pos - old(pos) + Span(Rest(), stop) == Span(start, stop)
        invariant Rest() == start[pos - old(pos)..]
      {
        assert Rest()[0] == input[pos];
        var _ := Advance();
      }
    }

    method SkipWhitespace()
      requires Valid()
      modifies this
      ensures Valid() && old(pos) <= pos
      ensures Rest() == SkipSpace(old(Rest()))
    {
      ghost var start := Rest();
      while pos < |input|
        invariant Valid() && old(pos) <= pos
        invariant SkipSpace(Rest()) == SkipSpace(start)
        decreases |Rest()|
      {
        var ch := input[pos];
        assert Rest()[0] == ch;
        if ch == '#' {
          AdvanceTo(IsNewline);
        } else if IsBlank(ch) {
          var _ := Advance();
        } else {
          break;
        }
      }
    }

    method Word() returns (word: string)
      requires Valid()
      modifies this
      ensures Valid() && old(pos) <= pos
      ensures (word, Rest()) == ReadWord(old(Rest()))
    {
      SkipWhitespace();
      var start := pos;
      ghost var t := Rest();
      AdvanceTo(EndsWord);
      word := input[start..pos];
      SliceOfRest(input, start, pos - start);
    }

    method UntilNewline() returns (text: string)
      requires Valid()
      modifies this
      ensures Valid() && old(pos) <= pos
      ensures (text, Rest()) == ReadUntilNewline(old(Rest()))
    {
      var start := pos;
      ghost var t := Rest();
      AdvanceTo(EndsLine);
      assert input[start..pos] == t[..Span(t, EndsLine)];
      text := TrimSpace(input[start..pos]);
    }

    method Expect(expected: char) returns (r: Result<(), Problem>)
      requires Valid()
      modifies this
      ensures Valid() && old(pos) <= pos
      ensures Agrees(r, Rest(), ExpectByte(old(Rest()), expected))
    {
      SkipWhitespace();
      if pos >= |input| {
        return Err(Expected(expected));
      }
      assert Rest()[0] == input[pos];
      if input[pos] != expected {
        return Err(Expected(expected));
      }
      var _ := Advance();
      return Ok(());
    }

    /** Whether the next character, if there is one, is `c`. */
    method At(c: char) returns (yes: bool)
      requires Valid()
      ensures yes <==> Rest() != "" && Rest()[0] == c
    {
      yes := pos < |input| && input[pos] == c;
    }

    method BracketList() returns (r: Result<seq<string>, Problem>)
      requires Valid() && Returns(ReadBracketList(Rest()))
      modifies this
      ensures Valid() && old(pos) <= pos
      ensures Agrees(r, Rest(), ReadBracketList(old(Rest())))
    {
      SkipWhitespace();
      var open := At('[');
      if !open {
        return Err(Expected('['));
      }
      var _ := Advance();
      r := Items();
    }

    /** What comes after the opening bracket. */
    method Items() returns (r: Result<seq<string>, Problem>)
      requires Valid() && Returns(ListItems(Rest(), []))
      modifies this
      ensures Valid() && old(pos) <= pos
      ensures Agrees(r, Rest(), ListItems(old(Rest()), []))
    {
      ghost var start := Rest();
      var items: seq<string> := [];
      while true
        invariant Valid() && old(pos) <= pos
        invariant ListItems(Rest(), items) == ListItems(start, [])
        decreases |Rest()|
      {
        SkipWhitespace();
        var close := At(']');
        if close {
          var _ := Advance();
          return Ok(items);
        }
        var item := Item();
        if item != "" {
          items := items + [item];
        }
      }
    }

    method Item() returns (item: string)
      requires Valid()
      modifies this
      ensures Valid() && old(pos) <= pos
      ensures (item, Rest()) == NextItem(old(Rest()))
    {
      var from := pos;
      ghost var t := Rest();
      AdvanceTo(EndsItem);
      assert input[from..pos] == t[..Span(t, EndsItem)];
      item := TrimSpace(input[from..pos]);
      var comma := At(',');
      if comma {
        var _ := Advance();
      }
    }

    method QuotedString() returns (r: Result<string, Problem>)
      requires Valid()
      modifies this
      ensures Valid() && old(pos) <= pos
      ensures Agrees(r, Rest(), ReadQuotedString(old(Rest())))
    {
      var open := At('"');
      if !open {
        return Err(Expected('"'));
      }
      var _ := Advance();
      ghost var start := Rest();
      var text := "";
      while pos < |input|
        invariant Valid() && old(pos) <= pos
        invariant QuotedRest(Rest(), text) == QuotedRest(start, "")
        decreases |Rest()|
      {
        var ch := Advance();
        if ch == '\\' && pos < |input| {
          ch := Advance();
          text := text + [ch];
          continue;
        }
        if ch == '"' {
          return Ok(text);
        }
        text := text + [ch];
      }
      return Err(UnterminatedString);
    }

    method Number() returns (r: Result<int, Problem>)
      requires Valid()
      modifies this
      ensures Valid() && old(pos) <= pos
      ensures Agrees(r, Rest(), ReadNumber(old(Rest())))
    {
      var word := Word();
      var n := Atoi(word);
      if n.None? {
        return Err(BadNumber(word));
      }
      return Ok(n.value);
    }

    method CommandsBlock() returns (r: Result<seq<CommandConfig>, Problem>)
      requires Valid() && Returns(ParseCommands(Rest()))
      modifies this
      ensures Valid() && old(pos) <= pos
      ensures Agrees(r, Rest(), ParseCommands(old(Rest())))
    {
      var open := Expect('{');
      if open.Err? {
        return Err(open.error);
      }
      ghost var start := Rest();
      var cmds: seq<CommandConfig> := [];
      while true
        invariant Valid() && old(pos) <= pos
        invariant CommandsLoop(Rest(), cmds) == CommandsLoop(start, [])
        decreases |Rest()|
      {
        SkipWhitespace();
        ghost var t := Rest();
        var close := At('}');
        if close {
          var _ := Advance();
          return Ok(cmds);
        }
        LineProgress(t);
        var kind := Word();
        var rest := UntilNewline();
        if kind == "api-call" {
          var parts := Fields(rest);
          if |parts| < 2 {
            return Err(MissingRoute);
          }
          cmds := cmds + [CommandConfig(kind, parts[0], parts[1])];
        } else {
          cmds := cmds + [CommandConfig(kind, "", rest)];
        }
      }
    }

    method MetaBlock() returns (r: Result<MetaConfig, Problem>)
      requires Valid() && Returns(ParseMeta(Rest()))
      modifies this
      ensures Valid() && old(pos) <= pos
      ensures Agrees(r, Rest(), ParseMeta(old(Rest())))
    {
      var open := Expect('{');
      if open.Err? {
        return Err(open.error);
      }
      ghost var start := Rest();
      var meta := NO_META;
      while true
        invariant Valid() && old(pos) <= pos
        invariant MetaLoop(Rest(), meta) == MetaLoop(start, NO_META)
        decreases |Rest()|
      {
        SkipWhitespace();
        ghost var t := Rest();
        var close := At('}');
        if close {
          var _ := Advance();
          return Ok(meta);
        }
        LineProgress(t);
        var keyword := Word();
        var rest := UntilNewline();
        meta := ReadMetaLine(meta, keyword, rest);
      }
    }

    method AuthBlock(strict: bool) returns (r: Result<AuthConfig, Problem>)
      requires Valid() && Returns(ParseAuth(Rest(), strict))
      modifies this
      ensures Valid() && old(pos) <= pos
      ensures Agrees(r, Rest(), ParseAuth(old(Rest()), strict))
    {
      var open := Expect('{');
      if open.Err? {
        return Err(open.error);
      }
      r := AuthLines(strict);
    }

    method AuthLines(strict: bool) returns (r: Result<AuthConfig, Problem>)
      requires Valid() && Returns(AuthLoop(Rest(), NO_AUTH, strict))
      modifies this
      ensures Valid() && old(pos) <= pos
      ensures Agrees(r, Rest(), AuthLoop(old(Rest()), NO_AUTH, strict))
    {
      ghost var start := Rest();
      var auth := NO_AUTH;
      while true
        invariant Valid() && old(pos) <= pos
        invariant AuthLoop(Rest(), auth, strict) == AuthLoop(start, NO_AUTH, strict)
        decreases |Rest()|
      {
        SkipWhitespace();
        var close := At('}');
        if close {
          var _ := Advance();
          return Ok(auth);
        }
        var tier := Word();
        var list := BracketList();
        if list.Err? {
          return Err(list.error);
        }
        var granted := GrantTo(auth, tier, list.value, strict);
        if granted.None? {
          return Err(UnknownTier(tier));
        }
        auth := granted.value;
      }
    }

    method McpDirectiveAt(keyword: string, mcp: MCPConfig) returns (r: Result<MCPConfig, Problem>)
      requires Valid() && Returns(McpDirective(keyword, Rest(), mcp))
      modifies this
      ensures Valid() && old(pos) <= pos
      ensures Agrees(r, Rest(), McpDirective(keyword, old(Rest()), mcp))
    {
      if keyword == "server" {
        var transport := Word();
        if transport == "stdio" {
          SkipWhitespace();
          var command := QuotedString();
          if command.Err? {
            return Err(command.error);
          }
          return Ok(mcp.(transport := "stdio", command := command.value));
        } else if transport == "http" {
          var url := Word();
          return Ok(mcp.(transport := "http", url := url));
        }
        return Err(UnknownTransport(transport));
      } else if keyword == "auth" {
        var auth := AuthBlock(true);
        if auth.Err? {
          return Err(auth.error);
        }
        return Ok(mcp.(auth := auth.value));
      }
      return Err(UnknownKeyword(keyword));
    }

    method McpBlock() returns (r: Result<MCPConfig, Problem>)
      requires Valid() && Returns(ParseMcp(Rest()))
      modifies this
      ensures Valid() && old(pos) <= pos
      ensures Agrees(r, Rest(), ParseMcp(old(Rest())))
    {
      var open := Expect('{');
      if open.Err? {
        return Err(open.error);
      }
      ghost var start := Rest();
      var mcp := NO_MCP;
      while true
        invariant Valid() && old(pos) <= pos
        invariant McpLoop(Rest(), mcp) == McpLoop(start, NO_MCP)
        decreases |Rest()|
      {
        SkipWhitespace();
        var close := At('}');
        if close {
          var _ := Advance();
          break;
        }
        var keyword := Word();
        var m := McpDirectiveAt(keyword, mcp);
        if m.Err? {
          return Err(m.error);
        }
        mcp := m.value;
      }
      if mcp.transport == "" {
        return Err(MissingServer);
      }
      return Ok(mcp);
    }

    method CacheDirectiveAt(keyword: CacheKeyword, pc: ProxyCacheConfig) returns (r: Result<ProxyCacheConfig, Problem>)
      requires Valid() && Returns(CacheDirective(keyword, Rest(), pc))
      modifies this
      ensures Valid() && old(pos) <= pos
      ensures Agrees(r, Rest(), CacheDirective(keyword, old(Rest()), pc))
    {
      if keyword == OtherKey {
        var _ := UntilNewline();
        return Ok(pc);
      }
      if keyword == MaxRedirects {
        var n := Number();
        if n.Err? {
          return Err(n.error);
        }
        return Ok(pc.(maxRedirects := n.value));
      }
      var word := Word();
      return Ok(CacheSet(keyword, word, pc));
    }

    method ProxyCacheBlock() returns (r: Result<ProxyCacheConfig, Problem>)
      requires Valid() && Returns(ParseProxyCache(Rest()))
      modifies this
      ensures Valid() && old(pos) <= pos
      ensures Agrees(r, Rest(), ParseProxyCache(old(Rest())))
    {
      var open := Expect('{');
      if open.Err? {
        return Err(open.error);
      }
      r := ProxyCacheLines();
    }

    method ProxyCacheLines() returns (r: Result<ProxyCacheConfig, Problem>)
      requires Valid() && Returns(CacheLoop(Rest(), NO_PROXY_CACHE))
      modifies this
      ensures Valid() && old(pos) <= pos
      ensures Agrees(r, Rest(), CacheLoop(old(Rest()), NO_PROXY_CACHE))
    {
      ghost var start := Rest();
      var pc := NO_PROXY_CACHE;
      while true
        invariant Valid() && old(pos) <= pos
        invariant CacheLoop(Rest(), pc) == CacheLoop(start, NO_PROXY_CACHE)
        decreases |Rest()|
      {
        SkipWhitespace();
        ghost var t := Rest();
        var close := At('}');
        if close {
          var _ := Advance();
          return Ok(pc);
        }
        var keyword := Word();
        CacheProgress(t, CacheKeywordOf(keyword), pc);
        var p := CacheDirectiveAt(CacheKeywordOf(keyword), pc);
        if p.Err? {
          return Err(p.error);
        }
        pc := p.value;
      }
    }

    method LimitsBlock() returns (r: Result<LimitsConfig, Problem>)
      requires Valid() && Returns(ParseLimits(Rest()))
      modifies this
      ensures Valid() && old(pos) <= pos
      ensures Agrees(r, Rest(), ParseLimits(old(Rest())))
    {
      var open := Expect('{');
      if open.Err? {
        return Err(open.error);
      }
      ghost var start := Rest();
      var limits := NO_LIMITS;
      while true
        invariant Valid() && old(pos) <= pos
        invariant LimitsLoop(Rest(), limits) == LimitsLoop(start, NO_LIMITS)
        decreases |Rest()|
      {
        SkipWhitespace();
        var close := At('}');
        if close {
          var _ := Advance();
          return Ok(limits);
        }
        var tier := Word();
        var value := Word();
        if tier == TIER_ANONYMOUS {
          limits := limits.(anonymous := value);
        } else if tier == TIER_IDENTIFIED {
          limits := limits.(identified := value);
        } else if tier == TIER_TRUSTED {
          limits := limits.(trusted := value);
        }
      }
    }

    method SiteDirectiveAt(keyword: SiteKeyword, name: string, site: SiteConfig) returns (r: Result<SiteConfig, Problem>)
      requires Valid() && Returns(SiteDirective(keyword, name, Rest(), site))
      modifies this
      ensures Valid() && old(pos) <= pos
      ensures Agrees(r, Rest(), SiteDirective(keyword, name, old(Rest()), site))
    {
      match keyword {
        case Port =>
          var n := Number();
          return if n.Ok? then Ok(site.(port := n.value)) else Err(n.error);
        case HostKey =>
          var word := Word();
          return Ok(site.(hostKey := word));
        case Root =>
          var word := Word();
          return Ok(site.(root := word));
        case Backend =>
          var word := Word();
          return Ok(site.(backend := word));
        case AuthorizedKeys =>
          var word := Word();
          return Ok(site.(authorizedKeys := word));
        case Commands =>
          var c := CommandsBlock();
          return if c.Ok? then Ok(site.(commands := c.value)) else Err(c.error);
        case Meta =>
          var m := MetaBlock();
          return if m.Ok? then Ok(site.(meta := m.value)) else Err(m.error);
        case Mcp =>
          var m := McpBlock();
          return if m.Ok? then Ok(site.(mcp := Some(m.value))) else Err(m.error);
        case ProxyCache =>
          var p := ProxyCacheBlock();
          return if p.Ok? then Ok(site.(proxyCache := p.value)) else Err(p.error);
        case Auth =>
          var a := AuthBlock(false);
          return if a.Ok? then Ok(site.(auth := a.value)) else Err(a.error);
        case Limits =>
          var l := LimitsBlock();
          return if l.Ok? then Ok(site.(limits := l.value)) else Err(l.error);
        case OtherWord =>
          return Err(UnknownKeyword(name));
      }
    }

    method Site() returns (r: Result<SiteConfig, Problem>)
      requires Valid() && Returns(ParseSite(Rest()))
      modifies this
      ensures Valid() && old(pos) <= pos
      ensures Agrees(r, Rest(), ParseSite(old(Rest())))
    {
      var host := Word();
      if host == "" {
        return Err(MissingHost);
      }
      var open := Expect('{');
      if open.Err? {
        return Err(open.error);
      }
      r := SiteLines(NewSite(host));
    }

    method SiteLines(empty: SiteConfig) returns (r: Result<SiteConfig, Problem>)
      requires Valid() && Returns(SiteLoop(Rest(), empty))
      modifies this
      ensures Valid() && old(pos) <= pos
      ensures Agrees(r, Rest(), SiteLoop(old(Rest()), empty))
    {
      ghost var start := Rest();
      var site := empty;
      while true
        invariant Valid() && old(pos) <= pos
        invariant SiteLoop(Rest(), site) == SiteLoop(start, empty)
        decreases |Rest()|
      {
        SkipWhitespace();
        if pos >= |input| {
          return Err(UnexpectedEnd);
        }
        var close := At('}');
        if close {
          var _ := Advance();
          return Ok(site);
        }
        var word := Word();
        var s := SiteDirectiveAt(SiteKeywordOf(word), word, site);
        if s.Err? {
          return Err(s.error);
        }
        site := s.value;
      }
    }

    method Sites() returns (r: Result<Config, Problem>)
      requires Valid() && Returns(ConfigLoop(Rest(), []))
      modifies this
      ensures Valid() && old(pos) <= pos
      ensures Agrees(r, Rest(), ConfigLoop(old(Rest()), []))
    {
      ghost var start := Rest();
      var sites: seq<SiteConfig> := [];
      while true
        invariant Valid() && old(pos) <= pos
        invariant ConfigLoop(Rest(), sites) == ConfigLoop(start, [])
        decreases |Rest()|
      {
        SkipWhitespace();
        if pos >= |input| {
          return Ok(Config(sites));
        }
        SiteComesNext(Rest(), sites);
        var keyword := Word();
        if keyword != "site" {
          return Err(UnknownKeyword(keyword));
        }
        var site := Site();
        if site.Err? {
          return Err(site.error);
        }
        sites := sites + [site.value];
      }
    }
  }

  /** `parseConfig`, on every input on which it returns. */
  method ParseText(input: string) returns (r: Result<Config, Problem>, p: Parser)
    requires Returns(ParseConfig(input))
    ensures fresh(p) && p.Valid() && p.input == input
    ensures Agrees(r, p.Rest(), ParseConfig(input))
  {
    p := new Parser(input);
    r := p.Sites();
  }
}
