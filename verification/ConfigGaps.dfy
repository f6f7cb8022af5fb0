/**
  Blank lines and comments between directives do not matter, in any text the parser
  accepts: `Spread` puts a gap, possibly empty, before every directive and closing brace.
 */
module ConfigGaps {
  import opened Config
  import opened ConfigPrinter
  import opened ConfigSyntax
  import opened Strconv
  import opened Strings

  /** The gap to add at each place, chosen by how much of the text is still to come. */
  type Gaps = nat -> string

  ghost predicate OnlyGaps(g: Gaps) {
    forall n :: IsGap(g(n))
  }

  /** What `SkipSpace` takes. */
  function Skipped(s: string): string {
    s[..|s| - |SkipSpace(s)|]
  }

  /** The blanks and comments that open `s`, then a further gap, then `core`. */
  function Respace(g: Gaps, s: string, core: string): string {
    Skipped(s) + (g(|core|) + core)
  }

  /** The part of `s` before its suffix `rest`. */
  function Before(s: string, rest: string): string {
    if |rest| <= |s| then s[..|s| - |rest|] else ""
  }

  ghost predicate IsSuffix(rest: string, s: string) {
    |rest| <= |s| && s == Before(s, rest) + rest
  }

  // ----- Spreading the blocks; `tail` is the text that comes after

  /** Both kinds of block whose directives are a word and the rest of its line. */
  function SpreadLines(g: Gaps, s: string, tail: string): string
    decreases |s|
  {
    var t := SkipSpace(s);
    if t == "" || t[0] == '}' then Respace(g, s, "}" + tail)
    else
      var v := ReadUntilNewline(ReadWord(t).1).1;
      assert |v| < |t| by { LineProgress(t); }
      Respace(g, s, Before(t, v) + SpreadLines(g, v, tail))
  }

  function SpreadAuth(g: Gaps, s: string, tail: string): string
    decreases |s|
  {
    var t := SkipSpace(s);
    var list := ReadBracketList(ReadWord(t).1);
    if t == "" || t[0] == '}' || !list.Parsed? then Respace(g, s, "}" + tail)
    else Respace(g, s, Before(t, list.rest) + SpreadAuth(g, list.rest, tail))
  }

  function SpreadCache(g: Gaps, s: string, tail: string): string
    decreases |s|
  {
    var t := SkipSpace(s);
    var p := CacheDirective(CacheKeywordOf(ReadWord(t).0), ReadWord(t).1, NO_PROXY_CACHE);
    if t == "" || t[0] == '}' || !p.Parsed? then Respace(g, s, "}" + tail)
    else
      assert |p.rest| < |t| by { CacheProgress(t, CacheKeywordOf(ReadWord(t).0), NO_PROXY_CACHE); }
      Respace(g, s, Before(t, p.rest) + SpreadCache(g, p.rest, tail))
  }

  function SpreadLimits(g: Gaps, s: string, tail: string): string
    decreases |s|
  {
    var t := SkipSpace(s);
    if t == "" || t[0] == '}' || t[0] == '{' then Respace(g, s, "}" + tail)
    else
      var v := ReadWord(ReadWord(t).1).1;
      assert |v| < |t| by {
        assert Span(t, EndsWord) > 0;
      }
      Respace(g, s, Before(t, v) + SpreadLimits(g, v, tail))
  }

  function SpreadMcp(g: Gaps, s: string, tail: string): string
    decreases |s|
  {
    var t := SkipSpace(s);
    var (keyword, u) := ReadWord(t);
    var m := McpDirective(keyword, u, NO_MCP);
    if t == "" || t[0] == '}' || !m.Parsed? then Respace(g, s, "}" + tail)
    else
      assert keyword == "server" || keyword == "auth";
      assert |m.rest| < |t|;
      Respace(g, s, McpCore(g, t, SpreadMcp(g, m.rest, tail)))
  }

  /** The directive that opens `t`, then `y`. */
  function McpCore(g: Gaps, t: string, y: string): string {
    var u := ReadWord(t).1;
    var open := ExpectByte(u, '{');
    if ReadWord(t).0 == "auth" && open.Parsed? then Before(t, open.rest) + SpreadAuth(g, open.rest, y)
    else
      var m := McpDirective(ReadWord(t).0, u, NO_MCP);
      if m.Parsed? then Before(t, m.rest) + y else t
  }

  predicate IsBlock(keyword: SiteKeyword) {
    match keyword
    case Commands => true
    case Meta => true
    case Mcp => true
    case ProxyCache => true
    case Auth => true
    case Limits => true
    case _ => false
  }

  function SpreadBlock(g: Gaps, keyword: SiteKeyword, s: string, tail: string): string {
    match keyword
    case Mcp => SpreadMcp(g, s, tail)
    case ProxyCache => SpreadCache(g, s, tail)
    case Auth => SpreadAuth(g, s, tail)
    case Limits => SpreadLimits(g, s, tail)
    case _ => SpreadLines(g, s, tail)
  }

  /** The directive that opens `t`, then `y`. */
  function SiteCore(g: Gaps, t: string, y: string): string {
    var (word, u) := ReadWord(t);
    var keyword := SiteKeywordOf(word);
    var open := ExpectByte(u, '{');
    if IsBlock(keyword) && open.Parsed? then Before(t, open.rest) + SpreadBlock(g, keyword, open.rest, y)
    else
      var r := SiteDirective(keyword, word, u, NewSite(""));
      if r.Parsed? then Before(t, r.rest) + y else t
  }

  function SpreadSite(g: Gaps, s: string, tail: string): string
    decreases |s|
  {
    var t := SkipSpace(s);
    var (word, u) := ReadWord(t);
    var r := SiteDirective(SiteKeywordOf(word), word, u, NewSite(""));
    if t == "" || t[0] == '}' || !r.Parsed? then Respace(g, s, "}" + tail)
    else
      assert word != "";
      Respace(g, s, SiteCore(g, t, SpreadSite(g, r.rest, tail)))
  }

  function SpreadConfig(g: Gaps, s: string): string
    decreases |s|
  {
    var t := SkipSpace(s);
    var (_, u) := ReadWord(t);
    var site := ParseSite(u);
    if t == "" || !site.Parsed? then s
    else
      var open := ExpectByte(ReadWord(u).1, '{');
      Respace(g, s, Before(t, open.rest) + SpreadSite(g, open.rest, SpreadConfig(g, site.rest)))
  }

  // ----- Gaps

  lemma {:induction false} SkipSpaceIsSuffix(s: string)
    ensures s == Skipped(s) + SkipSpace(s)
    decreases |s|
  {
    if s != "" && s[0] == '#' {
      var n := Span(s, IsNewline);
      SkipSpaceIsSuffix(s[n..]);
      assert s == s[..n] + s[n..];
    } else if s != "" && IsBlank(s[0]) {
      SkipSpaceIsSuffix(s[1..]);
      assert s == [s[0]] + s[1..];
    }
  }

  lemma CommentThenGap(comment: string, rest: string)
    requires comment != "" && comment[0] == '#' && forall i :: 0 <= i < |comment| ==> !IsNewline(comment[i])
    requires IsGap(rest) && rest != "" && rest[0] == '\n'
    ensures IsGap(comment + rest)
  {
    SpanOf(comment, rest, IsNewline);
    assert (comment + rest)[|comment|..] == rest;
  }

  lemma {:induction false} SkippedIsGap(s: string)
    requires SkipSpace(s) != ""
    ensures IsGap(Skipped(s))
    decreases |s|
  {
    SkipSpaceIsSuffix(s);
    if s[0] == '#' {
      var n := Span(s, IsNewline);
      SkippedIsGap(s[n..]);
      assert Skipped(s) == s[..n] + Skipped(s[n..]);
      CommentThenGap(s[..n], Skipped(s[n..]));
    } else if IsBlank(s[0]) {
      SkippedIsGap(s[1..]);
      assert Skipped(s)[1..] == Skipped(s[1..]);
    }
  }

  /** `y` may stand where `r` did: it ends words and lines alike, and goes on with the same character. */
  ghost predicate FrontLike(r: string, y: string) {
    && r != "" && y != ""
    && (EndsWord(r[0]) ==> EndsWord(y[0])) && (EndsLine(r[0]) ==> EndsLine(y[0]))
    && SkipSpace(r) != "" && SkipSpace(y) != "" && SkipSpace(r)[0] == SkipSpace(y)[0]
  }

  lemma GapOpensWithBlank(gap: string)
    requires IsGap(gap) && gap != ""
    ensures EndsWord(gap[0])
  {
  }

  lemma Respaced(g: Gaps, s: string, core: string)
    requires OnlyGaps(g) && SkipSpace(s) != "" && core != "" && core[0] == SkipSpace(s)[0]
    ensures SkipSpace(Respace(g, s, core)) == core
    ensures FrontLike(s, Respace(g, s, core))
  {
    var gap, y := g(|core|), Respace(g, s, core);
    assert IsGap(gap);
    SkippedIsGap(s);
    SkipSpaceIsSuffix(s);
    NothingToSkip(core);
    SkipGap(gap, core);
    SkipGap(Skipped(s), gap + core);
    if Skipped(s) == "" {
      assert s == SkipSpace(s);
      if gap != "" {
        GapOpensWithBlank(gap);
        assert y[0] == gap[0];
      } else {
        assert y[0] == core[0];
      }
    } else {
      assert y[0] == s[0];
    }
  }

  // ----- Reading does not look past what it takes

  lemma {:induction false} SpanLocal(h: string, r: string, y: string, stop: char -> bool)
    requires Span(h + r, stop) < |h|
    ensures Span(h + y, stop) == Span(h + r, stop)
  {
    assert (h + r)[0] == h[0] == (h + y)[0];
    if !stop(h[0]) {
      assert (h + r)[1..] == h[1..] + r && (h + y)[1..] == h[1..] + y;
      SpanLocal(h[1..], r, y, stop);
    }
  }

  lemma ReadWordSplits(u: string)
    ensures u == Skipped(u) + (ReadWord(u).0 + ReadWord(u).1) && SkipSpace(u) == ReadWord(u).0 + ReadWord(u).1
    ensures Before(u, ReadWord(u).1) == Skipped(u) + ReadWord(u).0
  {
    SkipSpaceIsSuffix(u);
    Splitting(u, Skipped(u), SkipSpace(u), Span(SkipSpace(u), EndsWord));
  }

  lemma Splitting(u: string, a: string, t: string, n: nat)
    requires u == a + t && n <= |t|
    ensures t == t[..n] + t[n..] && u == a + (t[..n] + t[n..])
    ensures Before(u, t[n..]) == a + t[..n]
  {
  }

  lemma WordAfterGap(gap: string, word: string, y: string)
    requires IsGap(gap) && IsWord(word) && y != "" && EndsWord(y[0])
    ensures ReadWord(gap + (word + y)) == (word, y)
  {
    SkipGap(gap, word + y);
    ReadWordOf(word, y);
  }

  lemma NoWordAfterGap(gap: string, y: string)
    requires IsGap(gap) && SkipSpace(y) != "" && EndsWord(SkipSpace(y)[0])
    ensures ReadWord(gap + y) == ("", SkipSpace(y))
  {
    SkipGap(gap, y);
    assert Span(SkipSpace(y), EndsWord) == 0;
  }

  lemma WordStops(u: string)
    requires ReadWord(u).1 != ""
    ensures EndsWord(ReadWord(u).1[0]) && (ReadWord(u).0 == "" || IsWord(ReadWord(u).0)) && SkipSpace(u) != ""
  {
  }

  /** A word argument, which may be empty, keeps its value when what follows is spread. */
  lemma ReadWordLocal(u: string, y: string)
    requires FrontLike(ReadWord(u).1, y)
    ensures var again := ReadWord(Before(u, ReadWord(u).1) + y);
      again.0 == ReadWord(u).0 && SkipSpace(again.1) == SkipSpace(y)
  {
    WordStops(u);
    ReadWordSplits(u);
    SkippedIsGap(u);
    if ReadWord(u).0 == "" {
      EmptyWordEnds(u);
      EmptyWordLocal(u, y);
    } else {
      WordAfterGap(Skipped(u), ReadWord(u).0, y);
      Regroup(Skipped(u), ReadWord(u).0, y);
    }
  }

  lemma Regroup(a: string, b: string, c: string)
    ensures (a + b) + c == a + (b + c)
  {
  }

  /** Where no word was, none is read. */
  lemma EmptyWordLocal(u: string, y: string)
    requires ReadWord(u).0 == "" && IsGap(Skipped(u)) && Before(u, ReadWord(u).1) == Skipped(u) + ReadWord(u).0
    requires SkipSpace(y) != "" && EndsWord(SkipSpace(y)[0])
    ensures ReadWord(Before(u, ReadWord(u).1) + y) == ("", SkipSpace(y)) && SkipSpace(SkipSpace(y)) == SkipSpace(y)
  {
    assert Skipped(u) + ReadWord(u).0 == Skipped(u);
    NoWordAfterGap(Skipped(u), y);
    NothingToSkip(SkipSpace(y));
  }

  lemma EmptyWordEnds(u: string)
    requires ReadWord(u).0 == "" && ReadWord(u).1 != ""
    ensures SkipSpace(ReadWord(u).1) == ReadWord(u).1
  {
    NothingToSkip(ReadWord(u).1);
  }

  /** A word that is there keeps its value whatever follows, if the word still ends there. */
  lemma InnerWord(u: string, v: string, y: string)
    requires ReadWord(u).0 != "" && IsSuffix(v, ReadWord(u).1)
    requires ReadWord(u).1 != ""
    requires Before(ReadWord(u).1, v) == "" ==> y != "" && EndsWord(y[0])
    ensures ReadWord(Before(u, v) + y) == (ReadWord(u).0, Before(ReadWord(u).1, v) + y)
    ensures IsSuffix(v, u)
  {
    WordStops(u);
    SkippedIsGap(u);
    InnerWordText(u, v, y);
    StillEndsWord(ReadWord(u).1, v, y);
    WordAfterGap(Skipped(u), ReadWord(u).0, Before(ReadWord(u).1, v) + y);
  }

  lemma StillEndsWord(w: string, v: string, y: string)
    requires w != "" && EndsWord(w[0]) && IsSuffix(v, w)
    requires Before(w, v) == "" ==> y != "" && EndsWord(y[0])
    ensures Before(w, v) + y != "" && EndsWord((Before(w, v) + y)[0])
  {
    if Before(w, v) != "" {
      assert (Before(w, v) + y)[0] == w[0];
    }
  }

  /** What stands for the text after a word ends words too. */
  lemma WordBefore(w: string, y: string)
    requires FrontLike(ReadWord(w).1, y)
    ensures IsSuffix(ReadWord(w).1, w) && w != "" && y != "" && EndsWord(y[0])
  {
    WordStops(w);
    WordIsPrefix(w);
  }

  lemma InnerWordText(u: string, v: string, y: string)
    requires IsSuffix(v, ReadWord(u).1)
    ensures Before(u, v) + y == Skipped(u) + (ReadWord(u).0 + (Before(ReadWord(u).1, v) + y))
    ensures Before(u, v) == Skipped(u) + (ReadWord(u).0 + Before(ReadWord(u).1, v)) && IsSuffix(v, u)
  {
    ReadWordSplits(u);
    Replaced(Skipped(u), ReadWord(u).0, Before(ReadWord(u).1, v), v, y);
  }

  lemma InnerWordFront(t: string, v: string)
    requires t != "" && t == SkipSpace(t) && ReadWord(t).0 != "" && IsSuffix(v, ReadWord(t).1)
    ensures Before(t, v) != "" && Before(t, v)[0] == t[0]
  {
    InnerWordText(t, v, "");
    ReadWordSplits(t);
    assert Skipped(t) == "";
  }

  lemma Replaced(a: string, b: string, c: string, v: string, y: string)
    ensures Before(a + (b + (c + v)), v) == a + (b + c)
    ensures Before(a + (b + (c + v)), v) + y == a + (b + (c + y))
    ensures IsSuffix(v, a + (b + (c + v)))
  {
    var s := a + (b + (c + v));
    assert s == (a + (b + c)) + v;
    assert s[..|s| - |v|] == a + (b + c);
  }

  /** The rest of a line keeps its value. */
  lemma LineLocal(u: string, y: string)
    requires ReadUntilNewline(u).1 != "" && y != "" && EndsLine(y[0])
    ensures EndsLine(ReadUntilNewline(u).1[0]) && IsSuffix(ReadUntilNewline(u).1, u)
    ensures ReadUntilNewline(Before(u, ReadUntilNewline(u).1) + y) == (ReadUntilNewline(u).0, y)
  {
    var n := Span(u, EndsLine);
    SliceIsSuffix(u, n);
    SpanOf(u[..n], y, EndsLine);
    TakeAndDrop(u[..n], y);
    LineAt(u[..n] + y, n);
  }

  lemma LineAt(s: string, n: nat)
    requires Span(s, EndsLine) == n
    ensures ReadUntilNewline(s) == (TrimSpace(s[..n]), s[n..])
  {
  }

  lemma TakeAndDrop(a: string, b: string)
    ensures (a + b)[..|a|] == a && (a + b)[|a|..] == b
  {
  }

  lemma SliceIsSuffix(u: string, n: nat)
    requires n <= |u|
    ensures IsSuffix(u[n..], u) && Before(u, u[n..]) == u[..n]
  {
    assert u == u[..n] + u[n..];
  }

  lemma LineDirectiveLocal(t: string, y: string)
    requires t != "" && t == SkipSpace(t) && t[0] != '}'
    requires FrontLike(ReadUntilNewline(ReadWord(t).1).1, y)
    ensures var v := ReadUntilNewline(ReadWord(t).1).1;
      var core := Before(t, v) + y;
      && core != "" && core[0] == t[0] && ReadWord(core).0 == ReadWord(t).0
      && ReadUntilNewline(ReadWord(core).1) == (ReadUntilNewline(ReadWord(t).1).0, y)
  {
    var (word, u) := ReadWord(t);
    var v := ReadUntilNewline(u).1;
    LineProgress(t);
    LineLocal(u, y);
    if word == "" {
      assert u == t && t[0] == '{';
      assert (Before(t, v) + y)[0] == t[0];
      NothingToSkip(Before(t, v) + y);
      assert Span(Before(t, v) + y, EndsWord) == 0;
    } else {
      InnerWord(t, v, y);
      InnerWordFront(t, v);
    }
  }

  lemma {:induction false} ListItemsLocal(s: string, items: seq<string>, y: string)
    requires ListItems(s, items).Parsed?
    ensures var r := ListItems(s, items).rest;
      IsSuffix(r, s) && ListItems(Before(s, r) + y, items) == Parsed(ListItems(s, items).value, y)
    decreases |s|
  {
    var t, r := SkipSpace(s), ListItems(s, items).rest;
    SkipSpaceIsSuffix(s);
    SkippedIsGap(s);
    if t[0] == ']' {
      SkippedThen(s, r, y);
      assert (Before(t, r) + y)[1..] == y;
    } else {
      var (item, after) := NextItem(t);
      var more := if item != "" then items + [item] else items;
      ListItemsLocal(after, more, y);
      NextItemLocal(t, r, y);
      SkippedThen(s, r, y);
    }
  }

  /** A suffix shorter than what is left after skipping can be replaced. */
  lemma SkippedThen(s: string, r: string, y: string)
    requires SkipSpace(s) != "" && IsSuffix(r, SkipSpace(s)) && |r| < |SkipSpace(s)|
    ensures IsSuffix(r, s) && SkipSpace(Before(s, r) + y) == Before(SkipSpace(s), r) + y
    ensures Before(SkipSpace(s), r) != "" && Before(SkipSpace(s), r)[0] == SkipSpace(s)[0]
  {
    var h := Before(SkipSpace(s), r);
    SkipSpaceIsSuffix(s);
    SkippedIsGap(s);
    Replaced(Skipped(s), h, "", r, y);
    assert "" + r == r && "" + y == y && h + "" == h;
    NothingToSkip(h + y);
    SkipGap(Skipped(s), h + y);
  }

  lemma NextItemLocal(t: string, r: string, y: string)
    requires IsSuffix(r, NextItem(t).1) && |r| < |NextItem(t).1|
    ensures IsSuffix(r, t) && NextItem(Before(t, r) + y) == (NextItem(t).0, Before(NextItem(t).1, r) + y)
  {
    var n, h := Span(t, EndsItem), Before(t, r);
    NextItemAt(t);
    var k := if t[n] == ',' then n + 1 else n;
    SuffixOfSuffix(t, k, r, y);
    SpanLocal(h, r, y, EndsItem);
    SamePrefix(h, r, y, n);
    NextItemAt(h + y);
  }

  lemma NextItemAt(t: string)
    requires Span(t, EndsItem) < |t|
    ensures var n := Span(t, EndsItem);
      NextItem(t).0 == TrimSpace(t[..n]) && NextItem(t).1 == if t[n] == ',' then t[n + 1..] else t[n..]
  {
  }

  lemma SamePrefix(h: string, r: string, y: string, n: nat)
    requires n < |h|
    ensures (h + y)[..n] == (h + r)[..n] && (h + y)[n] == (h + r)[n]
  {
  }

  lemma SuffixOfSuffix(t: string, k: nat, r: string, y: string)
    requires k <= |t| && IsSuffix(r, t[k..]) && |r| < |t[k..]|
    ensures t == Before(t, r) + r && k < |Before(t, r)|
    ensures (Before(t, r) + y)[k..] == Before(t[k..], r) + y
  {
    assert t == t[..k] + t[k..];
    assert Before(t, r) == t[..k] + Before(t[k..], r);
  }

  lemma BracketListLocal(u: string, y: string)
    requires ReadBracketList(u).Parsed?
    ensures var r := ReadBracketList(u).rest;
      IsSuffix(r, u) && ReadBracketList(Before(u, r) + y) == Parsed(ReadBracketList(u).value, y) && Before(u, r) != ""
  {
    var t, r := SkipSpace(u), ReadBracketList(u).rest;
    ListItemsLocal(t[1..], [], y);
    SuffixOfSuffix(t, 1, r, y);
    SkippedThen(u, r, y);
  }

  lemma {:induction false} QuotedLocal(s: string, read: string, y: string)
    requires QuotedRest(s, read).Parsed?
    ensures var r := QuotedRest(s, read).rest;
      IsSuffix(r, s) && QuotedRest(Before(s, r) + y, read) == Parsed(QuotedRest(s, read).value, y)
    decreases |s|
  {
    var r := QuotedRest(s, read).rest;
    if s[0] == '\\' && |s| > 1 {
      QuotedLocal(s[2..], read + [s[1]], y);
      SuffixOfSuffix(s, 2, r, y);
    } else if s[0] != '"' {
      QuotedLocal(s[1..], read + [s[0]], y);
      SuffixOfSuffix(s, 1, r, y);
    } else {
      assert (Before(s, r) + y)[1..] == y;
    }
  }

  lemma QuotedStringLocal(u: string, y: string)
    requires ReadQuotedString(SkipSpace(u)).Parsed?
    ensures var r := ReadQuotedString(SkipSpace(u)).rest;
      && IsSuffix(r, u) && Before(u, r) != ""
      && ReadQuotedString(SkipSpace(Before(u, r) + y)) == Parsed(ReadQuotedString(SkipSpace(u)).value, y)
  {
    var t, r := SkipSpace(u), ReadQuotedString(SkipSpace(u)).rest;
    QuotedLocal(t[1..], "", y);
    SuffixOfSuffix(t, 1, r, y);
    SkippedThen(u, r, y);
  }

  lemma ExpectLocal(u: string, y: string)
    requires ExpectByte(u, '{').Parsed?
    ensures var r := ExpectByte(u, '{').rest;
      IsSuffix(r, u) && Before(u, r) != "" && ExpectByte(Before(u, r) + y, '{') == Parsed((), y)
  {
    var t, r := SkipSpace(u), ExpectByte(u, '{').rest;
    assert t == [t[0]] + t[1..];
    SkippedThen(u, r, y);
    assert Before(t, r) == [t[0]];
  }

  // ----- The blocks

  lemma CommandsSpread(g: Gaps, s: string, tail: string, cmds: seq<CommandConfig>)
    requires OnlyGaps(g) && CommandsLoop(s, cmds).Parsed?
    ensures CommandsLoop(SpreadLines(g, s, tail), cmds) == Parsed(CommandsLoop(s, cmds).value, tail)
    ensures FrontLike(s, SpreadLines(g, s, tail))
    decreases |s|
  {
    var t := SkipSpace(s);
    if t[0] == '}' {
      Respaced(g, s, "}" + tail);
      assert ("}" + tail)[1..] == tail;
    } else {
      var v := ReadUntilNewline(ReadWord(t).1).1;
      var c := CommandOf(ReadWord(t).0, ReadUntilNewline(ReadWord(t).1).0).value;
      LineProgress(t);
      CommandsSpread(g, v, tail, cmds + [c]);
      var y := SpreadLines(g, v, tail);
      LineDirectiveLocal(t, y);
      Respaced(g, s, Before(t, v) + y);
      NothingToSkip(Before(t, v) + y);
      CommandsStep(Before(t, v) + y, cmds, y, c);
    }
  }

  lemma MetaSpread(g: Gaps, s: string, tail: string, meta: MetaConfig)
    requires OnlyGaps(g) && MetaLoop(s, meta).Parsed?
    ensures MetaLoop(SpreadLines(g, s, tail), meta) == Parsed(MetaLoop(s, meta).value, tail)
    ensures FrontLike(s, SpreadLines(g, s, tail))
    decreases |s|
  {
    var t := SkipSpace(s);
    if t[0] == '}' {
      Respaced(g, s, "}" + tail);
      assert ("}" + tail)[1..] == tail;
    } else {
      var v := ReadUntilNewline(ReadWord(t).1).1;
      var next := MetaLine(meta, ReadWord(t).0, ReadUntilNewline(ReadWord(t).1).0).value;
      LineProgress(t);
      MetaSpread(g, v, tail, next);
      var y := SpreadLines(g, v, tail);
      LineDirectiveLocal(t, y);
      Respaced(g, s, Before(t, v) + y);
      NothingToSkip(Before(t, v) + y);
      MetaStep(Before(t, v) + y, meta, y, next);
    }
  }

  lemma AuthDirectiveLocal(t: string, y: string)
    requires t != "" && t == SkipSpace(t) && t[0] != '}' && ReadBracketList(ReadWord(t).1).Parsed?
    ensures var list := ReadBracketList(ReadWord(t).1);
      var core := Before(t, list.rest) + y;
      && core != "" && core[0] == t[0] && ReadWord(core).0 == ReadWord(t).0
      && ReadBracketList(ReadWord(core).1) == Parsed(list.value, y)
  {
    var (word, u) := ReadWord(t);
    var v := ReadBracketList(u).rest;
    BracketListLocal(u, y);
    if word == "" {
      assert u == t && t[0] == '{';
      NothingToSkip(t);
    } else {
      InnerWord(t, v, y);
      InnerWordFront(t, v);
    }
  }

  lemma AuthSpread(g: Gaps, s: string, tail: string, auth: AuthConfig, strict: bool)
    requires OnlyGaps(g) && AuthLoop(s, auth, strict).Parsed?
    ensures AuthLoop(SpreadAuth(g, s, tail), auth, strict) == Parsed(AuthLoop(s, auth, strict).value, tail)
    decreases |s|
  {
    var t := SkipSpace(s);
    if t == "" {
      AuthEnds(s, auth, strict);
    }
    if t[0] == '}' {
      Respaced(g, s, "}" + tail);
      assert ("}" + tail)[1..] == tail;
    } else {
      var list := ReadBracketList(ReadWord(t).1);
      var granted := GrantTo(auth, ReadWord(t).0, list.value, strict).value;
      AuthSpread(g, list.rest, tail, granted, strict);
      var y := SpreadAuth(g, list.rest, tail);
      AuthDirectiveLocal(t, y);
      Respaced(g, s, Before(t, list.rest) + y);
      NothingToSkip(Before(t, list.rest) + y);
      AuthStep(Before(t, list.rest) + y, auth, strict, list.value, y);
    }
  }

  /** At the end of the input no block of grants is closed. */
  lemma AuthEnds(s: string, auth: AuthConfig, strict: bool)
    requires SkipSpace(s) == ""
    ensures !AuthLoop(s, auth, strict).Parsed?
  {
    NothingIsRead(SkipSpace(s));
  }

  lemma NothingIsRead(t: string)
    requires t == ""
    ensures ReadWord(t) == (t, t) && !ReadBracketList(t).Parsed?
  {
  }

  lemma LimitsSpread(g: Gaps, s: string, tail: string, limits: LimitsConfig)
    requires OnlyGaps(g) && LimitsLoop(s, limits).Parsed?
    ensures LimitsLoop(SpreadLimits(g, s, tail), limits) == Parsed(LimitsLoop(s, limits).value, tail)
    ensures FrontLike(s, SpreadLimits(g, s, tail))
    decreases |s|
  {
    var t := SkipSpace(s);
    if t[0] == '}' {
      Respaced(g, s, "}" + tail);
      assert ("}" + tail)[1..] == tail;
    } else {
      var (tier, u) := ReadWord(t);
      var (value, v) := ReadWord(u);
      assert tier != "" by {
        assert Span(t, EndsWord) > 0;
      }
      LimitsSpread(g, v, tail, LimitTo(limits, tier, value));
      var y := SpreadLimits(g, v, tail);
      WordDirectiveLocal(t, y);
      var core := Before(t, v) + y;
      Respaced(g, s, core);
      NothingToSkip(core);
      LimitsStep(core, limits, ReadWord(ReadWord(core).1).1, value);
      LimitsSkip(ReadWord(ReadWord(core).1).1, y, LimitTo(limits, tier, value));
    }
  }

  lemma LimitsSkip(a: string, b: string, limits: LimitsConfig)
    requires SkipSpace(a) == SkipSpace(b)
    ensures LimitsLoop(a, limits) == LimitsLoop(b, limits)
  {
  }

  /** A keyword and a word after it, which may be empty. */
  lemma WordDirectiveLocal(t: string, y: string)
    requires t != "" && t == SkipSpace(t) && t[0] != '}' && ReadWord(t).0 != ""
    requires FrontLike(ReadWord(ReadWord(t).1).1, y)
    ensures var u := ReadWord(t).1;
      var core := Before(t, ReadWord(u).1) + y;
      && core != "" && core[0] == t[0] && ReadWord(core) == (ReadWord(t).0, Before(u, ReadWord(u).1) + y)
      && ReadWord(ReadWord(core).1).0 == ReadWord(u).0
      && SkipSpace(ReadWord(ReadWord(core).1).1) == SkipSpace(y)
  {
    var u := ReadWord(t).1;
    var v := ReadWord(u).1;
    ReadWordLocal(u, y);
    WordBefore(u, y);
    InnerWord(t, v, y);
    InnerWordFront(t, v);
  }

  /** What a directive takes does not depend on what was read before it. */
  lemma CacheRest(keyword: CacheKeyword, s: string, pc: ProxyCacheConfig)
    ensures var r, r' := CacheDirective(keyword, s, pc), CacheDirective(keyword, s, NO_PROXY_CACHE);
      r.Parsed? == r'.Parsed? && (r.Parsed? ==> r.rest == r'.rest)
  {
  }

  lemma CacheLineLocal(t: string, y: string, pc: ProxyCacheConfig)
    requires t != "" && t == SkipSpace(t) && t[0] != '}'
    requires CacheKeywordOf(ReadWord(t).0) == OtherKey
    requires FrontLike(ReadUntilNewline(ReadWord(t).1).1, y)
    ensures var core := Before(t, CacheDirective(OtherKey, ReadWord(t).1, pc).rest) + y;
      && core != "" && core[0] == t[0] && ReadWord(core).0 == ReadWord(t).0
      && CacheDirective(OtherKey, ReadWord(core).1, pc) == Parsed(pc, y)
  {
    LineDirectiveLocal(t, y);
  }

  lemma CacheWordLocal(t: string, y: string, pc: ProxyCacheConfig, keyword: CacheKeyword)
    requires t != "" && t == SkipSpace(t) && t[0] != '}' && ReadWord(t).0 != ""
    requires keyword != OtherKey && CacheDirective(keyword, ReadWord(t).1, pc).Parsed?
    requires FrontLike(CacheDirective(keyword, ReadWord(t).1, pc).rest, y)
    ensures var p := CacheDirective(keyword, ReadWord(t).1, pc);
      var core := Before(t, p.rest) + y;
      && core != "" && core[0] == t[0] && ReadWord(core).0 == ReadWord(t).0
      && var again := CacheDirective(keyword, ReadWord(core).1, pc);
      again.Parsed? && again.value == p.value && SkipSpace(again.rest) == SkipSpace(y)
  {
    CacheRestIs(keyword, ReadWord(t).1, pc);
    WordDirectiveLocal(t, y);
    SameCacheWord(keyword, ReadWord(t).1, ReadWord(Before(t, ReadWord(ReadWord(t).1).1) + y).1, pc);
  }

  lemma SameCacheWord(keyword: CacheKeyword, a: string, b: string, pc: ProxyCacheConfig)
    requires keyword != OtherKey && CacheDirective(keyword, a, pc).Parsed? && ReadWord(a).0 == ReadWord(b).0
    ensures var r, r' := CacheDirective(keyword, a, pc), CacheDirective(keyword, b, pc);
      r'.Parsed? && r'.value == r.value && r'.rest == ReadWord(b).1
  {
  }

  lemma CacheSkip(a: string, b: string, pc: ProxyCacheConfig)
    requires SkipSpace(a) == SkipSpace(b)
    ensures CacheLoop(a, pc) == CacheLoop(b, pc)
  {
  }

  lemma CacheSpread(g: Gaps, s: string, tail: string, pc: ProxyCacheConfig)
    requires OnlyGaps(g) && CacheLoop(s, pc).Parsed?
    ensures CacheLoop(SpreadCache(g, s, tail), pc) == Parsed(CacheLoop(s, pc).value, tail)
    ensures FrontLike(s, SpreadCache(g, s, tail))
    decreases |s|
  {
    var t := SkipSpace(s);
    if t[0] == '}' {
      Respaced(g, s, "}" + tail);
      assert ("}" + tail)[1..] == tail;
    } else {
      var keyword := CacheKeywordOf(ReadWord(t).0);
      var p := CacheDirective(keyword, ReadWord(t).1, pc);
      CacheRest(keyword, ReadWord(t).1, pc);
      CacheProgress(t, keyword, pc);
      CacheSpread(g, p.rest, tail, p.value);
      var y := SpreadCache(g, p.rest, tail);
      if keyword == OtherKey {
        CacheLineLocal(t, y, pc);
      } else {
        CacheWordLocal(t, y, pc, keyword);
      }
      var core := Before(t, p.rest) + y;
      Respaced(g, s, core);
      NothingToSkip(core);
      var again := CacheDirective(keyword, ReadWord(core).1, pc);
      CacheStep(core, pc, again);
      CacheSkip(again.rest, y, p.value);
    }
  }

  /** A keyword and an opening brace. */
  lemma OpeningLocal(t: string, y: string)
    requires t != "" && t == SkipSpace(t) && ReadWord(t).0 != "" && ExpectByte(ReadWord(t).1, '{').Parsed?
    ensures var open := ExpectByte(ReadWord(t).1, '{');
      var core := Before(t, open.rest) + y;
      && core != "" && core[0] == t[0] && ReadWord(core).0 == ReadWord(t).0
      && ExpectByte(ReadWord(core).1, '{') == Parsed((), y)
  {
    var u := ReadWord(t).1;
    var r := ExpectByte(u, '{').rest;
    ExpectLocal(u, y);
    InnerWord(t, r, y);
    InnerWordFront(t, r);
  }

  lemma McpRest(keyword: string, s: string, mcp: MCPConfig)
    ensures var r, r' := McpDirective(keyword, s, mcp), McpDirective(keyword, s, NO_MCP);
      r.Parsed? == r'.Parsed? && (r.Parsed? ==> r.rest == r'.rest)
  {
  }

  lemma StdioLocal(u: string, y: string)
    requires ReadWord(u).0 == "stdio" && ReadQuotedString(SkipSpace(ReadWord(u).1)).Parsed?
    ensures var r := ReadQuotedString(SkipSpace(ReadWord(u).1)).rest;
      var again := ReadWord(Before(u, r) + y);
      && IsSuffix(r, u) && Before(u, r) != "" && again.0 == "stdio"
      && ReadQuotedString(SkipSpace(again.1)) == Parsed(ReadQuotedString(SkipSpace(ReadWord(u).1)).value, y)
  {
    var w := ReadWord(u).1;
    var r := ReadQuotedString(SkipSpace(w)).rest;
    QuotedStringLocal(w, y);
    InnerWord(u, r, y);
    InnerWordText(u, r, y);
  }

  lemma HttpLocal(u: string, y: string)
    requires ReadWord(u).0 == "http" && FrontLike(ReadWord(ReadWord(u).1).1, y)
    ensures var w := ReadWord(u).1;
      var r := ReadWord(w).1;
      var again := ReadWord(Before(u, r) + y);
      && IsSuffix(r, u) && Before(u, r) != "" && again.0 == "http"
      && ReadWord(again.1).0 == ReadWord(w).0 && SkipSpace(ReadWord(again.1).1) == SkipSpace(y)
  {
    var w := ReadWord(u).1;
    var r := ReadWord(w).1;
    ReadWordLocal(w, y);
    WordBefore(w, y);
    InnerWord(u, r, y);
    InnerWordText(u, r, y);
  }

  lemma ServerLocal(u: string, y: string, mcp: MCPConfig)
    requires McpDirective("server", u, mcp).Parsed?
    requires ReadWord(u).0 == "http" ==> FrontLike(ReadWord(ReadWord(u).1).1, y)
    ensures var m := McpDirective("server", u, mcp);
      var again := McpDirective("server", Before(u, m.rest) + y, mcp);
      && IsSuffix(m.rest, u) && Before(u, m.rest) != ""
      && again.Parsed? && again.value == m.value && SkipSpace(again.rest) == SkipSpace(y)
  {
    if ReadWord(u).0 == "stdio" {
      StdioLocal(u, y);
    } else {
      HttpLocal(u, y);
    }
  }

  /** As for `OpeningLocal`, when what follows the keyword is a server. */
  lemma ServerLineLocal(t: string, y: string, mcp: MCPConfig)
    requires t != "" && t == SkipSpace(t) && ReadWord(t).0 == "server"
    requires McpDirective("server", ReadWord(t).1, mcp).Parsed?
    requires FrontLike(McpDirective("server", ReadWord(t).1, mcp).rest, y)
    ensures var m := McpDirective("server", ReadWord(t).1, mcp);
      var core := Before(t, m.rest) + y;
      var again := McpDirective("server", ReadWord(core).1, mcp);
      && core != "" && core[0] == t[0] && ReadWord(core).0 == "server"
      && again.Parsed? && again.value == m.value && SkipSpace(again.rest) == SkipSpace(y)
  {
    var u := ReadWord(t).1;
    var r := McpDirective("server", u, mcp).rest;
    ServerLocal(u, y, mcp);
    InnerWord(t, r, y);
    InnerWordFront(t, r);
  }

  lemma McpAuthLocal(g: Gaps, t: string, y: string, mcp: MCPConfig)
    requires OnlyGaps(g) && t != "" && t == SkipSpace(t) && ReadWord(t).0 == "auth"
    requires McpDirective("auth", ReadWord(t).1, mcp).Parsed?
    ensures var open := ExpectByte(ReadWord(t).1, '{');
      && open.Parsed?
      && var core := Before(t, open.rest) + SpreadAuth(g, open.rest, y);
      && core != "" && core[0] == t[0] && ReadWord(core).0 == "auth"
      && McpDirective("auth", ReadWord(core).1, mcp) == Parsed(McpDirective("auth", ReadWord(t).1, mcp).value, y)
  {
    var s := ExpectByte(ReadWord(t).1, '{').rest;
    OpeningLocal(t, SpreadAuth(g, s, y));
    AuthBlock(g, ReadWord(t).1, y, ReadWord(Before(t, s) + SpreadAuth(g, s, y)).1, true);
  }

  lemma McpCoreReads(g: Gaps, t: string, y: string, mcp: MCPConfig)
    requires OnlyGaps(g) && t != "" && t == SkipSpace(t) && McpDirective(ReadWord(t).0, ReadWord(t).1, mcp).Parsed?
    requires FrontLike(McpDirective(ReadWord(t).0, ReadWord(t).1, mcp).rest, y)
    ensures var core := McpCore(g, t, y);
      var again := McpDirective(ReadWord(core).0, ReadWord(core).1, mcp);
      && core != "" && core[0] == t[0] && again.Parsed? && SkipSpace(again.rest) == SkipSpace(y)
      && again.value == McpDirective(ReadWord(t).0, ReadWord(t).1, mcp).value
  {
    McpRest(ReadWord(t).0, ReadWord(t).1, mcp);
    if ReadWord(t).0 == "auth" {
      McpAuthLocal(g, t, y, mcp);
    } else {
      ServerLineLocal(t, y, mcp);
    }
  }

  lemma McpEnds(s: string, mcp: MCPConfig)
    requires SkipSpace(s) == ""
    ensures !McpLoop(s, mcp).Parsed?
  {
    NothingIsRead(SkipSpace(s));
    NoDirective(SkipSpace(s), SkipSpace(s), mcp);
  }

  lemma NoDirective(keyword: string, s: string, mcp: MCPConfig)
    requires keyword == ""
    ensures !McpDirective(keyword, s, mcp).Parsed?
  {
  }

  lemma McpSkip(a: string, b: string, mcp: MCPConfig)
    requires SkipSpace(a) == SkipSpace(b)
    ensures McpLoop(a, mcp) == McpLoop(b, mcp)
  {
  }

  lemma McpAgain(core: string, y: string, mcp: MCPConfig, next: MCPConfig)
    requires core != "" && SkipSpace(core) == core && core[0] != '}'
    requires var again := McpDirective(ReadWord(core).0, ReadWord(core).1, mcp);
      again.Parsed? && again.value == next && SkipSpace(again.rest) == SkipSpace(y)
    ensures McpLoop(core, mcp) == McpLoop(y, next)
  {
    var again := McpDirective(ReadWord(core).0, ReadWord(core).1, mcp);
    McpStep(core, mcp, again);
    McpSkip(again.rest, y, next);
  }

  lemma McpSpread(g: Gaps, s: string, tail: string, mcp: MCPConfig)
    requires OnlyGaps(g) && McpLoop(s, mcp).Parsed?
    ensures McpLoop(SpreadMcp(g, s, tail), mcp) == Parsed(McpLoop(s, mcp).value, tail)
    ensures FrontLike(s, SpreadMcp(g, s, tail))
    decreases |s|
  {
    var t := SkipSpace(s);
    if t == "" {
      McpEnds(s, mcp);
    } else if t[0] == '}' {
      Respaced(g, s, "}" + tail);
      assert ("}" + tail)[1..] == tail;
    } else {
      var keyword, u := ReadWord(t).0, ReadWord(t).1;
      var m := McpDirective(keyword, u, mcp);
      McpRest(keyword, u, mcp);
      assert keyword == "server" || keyword == "auth";
      McpSpread(g, m.rest, tail, m.value);
      var y := SpreadMcp(g, m.rest, tail);
      var core := McpCore(g, t, y);
      McpCoreReads(g, t, y, mcp);
      Respaced(g, s, core);
      NothingToSkip(core);
      McpAgain(core, y, mcp, m.value);
    }
  }

  // ----- Sites

  lemma SiteRest(keyword: SiteKeyword, word: string, s: string, site: SiteConfig)
    ensures var r, r' := SiteDirective(keyword, word, s, site), SiteDirective(keyword, word, s, NewSite(""));
      r.Parsed? == r'.Parsed? && (r.Parsed? ==> r.rest == r'.rest)
  {
  }

  lemma SiteWordLocal(t: string, y: string, site: SiteConfig, keyword: SiteKeyword, word: string)
    requires t != "" && t == SkipSpace(t) && t[0] != '}' && ReadWord(t).0 != ""
    requires !IsBlock(keyword) && SiteDirective(keyword, word, ReadWord(t).1, site).Parsed?
    requires FrontLike(ReadWord(ReadWord(t).1).1, y)
    ensures var r := SiteDirective(keyword, word, ReadWord(t).1, site);
      var core := Before(t, r.rest) + y;
      var again := SiteDirective(keyword, word, ReadWord(core).1, site);
      && core != "" && core[0] == t[0] && ReadWord(core).0 == ReadWord(t).0
      && again.Parsed? && again.value == r.value && SkipSpace(again.rest) == SkipSpace(y)
  {
    WordDirectiveLocal(t, y);
    SameWord(keyword, word, ReadWord(t).1, ReadWord(Before(t, ReadWord(ReadWord(t).1).1) + y).1, site);
  }

  lemma SameWord(keyword: SiteKeyword, word: string, a: string, b: string, site: SiteConfig)
    requires !IsBlock(keyword) && SiteDirective(keyword, word, a, site).Parsed? && ReadWord(a).0 == ReadWord(b).0
    ensures var r, r' := SiteDirective(keyword, word, a, site), SiteDirective(keyword, word, b, site);
      r'.Parsed? && r'.value == r.value && r.rest == ReadWord(a).1 && r'.rest == ReadWord(b).1
  {
    if keyword == Port {
      PortOfWord(word, a, site);
      PortOfWord(word, b, site);
    } else {
      SiteOfWord(keyword, word, a, site);
      SiteOfWord(keyword, word, b, site);
    }
  }

  lemma PortOfWord(word: string, s: string, site: SiteConfig)
    ensures var r := SiteDirective(Port, word, s, site);
      && (r.Parsed? <==> Atoi(ReadWord(s).0).Some?)
      && (r.Parsed? ==> r == Parsed(site.(port := Atoi(ReadWord(s).0).value), ReadWord(s).1))
  {
  }

  lemma SiteOfWord(keyword: SiteKeyword, word: string, s: string, site: SiteConfig)
    requires TakesWord(keyword)
    ensures SiteDirective(keyword, word, s, site) == Parsed(SiteSet(keyword, ReadWord(s).0, site), ReadWord(s).1)
  {
  }

  lemma CommandsBlock(g: Gaps, u: string, y: string, u': string)
    requires OnlyGaps(g) && ParseCommands(u).Parsed?
    requires ExpectByte(u', '{') == Parsed((), SpreadLines(g, ExpectByte(u, '{').rest, y))
    ensures ParseCommands(u') == Parsed(ParseCommands(u).value, y)
  {
    CommandsSpread(g, ExpectByte(u, '{').rest, y, []);
  }

  lemma MetaBlock(g: Gaps, u: string, y: string, u': string)
    requires OnlyGaps(g) && ParseMeta(u).Parsed?
    requires ExpectByte(u', '{') == Parsed((), SpreadLines(g, ExpectByte(u, '{').rest, y))
    ensures ParseMeta(u') == Parsed(ParseMeta(u).value, y)
  {
    MetaSpread(g, ExpectByte(u, '{').rest, y, NO_META);
  }

  lemma McpBlock(g: Gaps, u: string, y: string, u': string)
    requires OnlyGaps(g) && ParseMcp(u).Parsed?
    requires ExpectByte(u', '{') == Parsed((), SpreadMcp(g, ExpectByte(u, '{').rest, y))
    ensures ParseMcp(u') == Parsed(ParseMcp(u).value, y)
  {
    McpSpread(g, ExpectByte(u, '{').rest, y, NO_MCP);
  }

  lemma CacheBlock(g: Gaps, u: string, y: string, u': string)
    requires OnlyGaps(g) && ParseProxyCache(u).Parsed?
    requires ExpectByte(u', '{') == Parsed((), SpreadCache(g, ExpectByte(u, '{').rest, y))
    ensures ParseProxyCache(u') == Parsed(ParseProxyCache(u).value, y)
  {
    CacheSpread(g, ExpectByte(u, '{').rest, y, NO_PROXY_CACHE);
  }

  lemma AuthBlock(g: Gaps, u: string, y: string, u': string, strict: bool)
    requires OnlyGaps(g) && ParseAuth(u, strict).Parsed?
    requires ExpectByte(u', '{') == Parsed((), SpreadAuth(g, ExpectByte(u, '{').rest, y))
    ensures ParseAuth(u', strict) == Parsed(ParseAuth(u, strict).value, y)
  {
    AuthSpread(g, ExpectByte(u, '{').rest, y, NO_AUTH, strict);
  }

  lemma LimitsBlock(g: Gaps, u: string, y: string, u': string)
    requires OnlyGaps(g) && ParseLimits(u).Parsed?
    requires ExpectByte(u', '{') == Parsed((), SpreadLimits(g, ExpectByte(u, '{').rest, y))
    ensures ParseLimits(u') == Parsed(ParseLimits(u).value, y)
  {
    LimitsSpread(g, ExpectByte(u, '{').rest, y, NO_LIMITS);
  }

  /** Each kind of block, from its opening brace to its closing one. */
  lemma BlockSpread(g: Gaps, keyword: SiteKeyword, word: string, u: string, y: string, u': string, site: SiteConfig)
    requires OnlyGaps(g) && IsBlock(keyword) && SiteDirective(keyword, word, u, site).Parsed?
    requires ExpectByte(u, '{').Parsed?
    requires ExpectByte(u', '{') == Parsed((), SpreadBlock(g, keyword, ExpectByte(u, '{').rest, y))
    ensures SiteDirective(keyword, word, u', site) == Parsed(SiteDirective(keyword, word, u, site).value, y)
  {
    match keyword
    case Commands => CommandsBlock(g, u, y, u');
    case Meta => MetaBlock(g, u, y, u');
    case Mcp => McpBlock(g, u, y, u');
    case ProxyCache => CacheBlock(g, u, y, u');
    case Auth => AuthBlock(g, u, y, u', false);
    case Limits => LimitsBlock(g, u, y, u');
  }

  lemma BlockOpens(keyword: SiteKeyword, word: string, u: string, site: SiteConfig)
    requires IsBlock(keyword) && SiteDirective(keyword, word, u, site).Parsed?
    ensures ExpectByte(u, '{').Parsed?
  {
  }

  lemma SiteCoreReads(g: Gaps, t: string, y: string, site: SiteConfig)
    requires OnlyGaps(g) && t != "" && t == SkipSpace(t) && t[0] != '}'
    requires SiteDirective(SiteKeywordOf(ReadWord(t).0), ReadWord(t).0, ReadWord(t).1, site).Parsed?
    requires FrontLike(SiteDirective(SiteKeywordOf(ReadWord(t).0), ReadWord(t).0, ReadWord(t).1, site).rest, y)
    ensures var (word, u) := ReadWord(t);
      var core := SiteCore(g, t, y);
      var again := SiteDirective(SiteKeywordOf(word), word, ReadWord(core).1, site);
      && core != "" && core[0] == t[0] && ReadWord(core).0 == word
      && again.Parsed? && SkipSpace(again.rest) == SkipSpace(y)
      && again.value == SiteDirective(SiteKeywordOf(word), word, u, site).value
  {
    var (word, u) := ReadWord(t);
    var keyword := SiteKeywordOf(word);
    assert word != "";
    SiteRest(keyword, word, u, site);
    if IsBlock(keyword) {
      BlockOpens(keyword, word, u, site);
      var s := ExpectByte(u, '{').rest;
      var block := SpreadBlock(g, keyword, s, y);
      OpeningLocal(t, block);
      BlockSpread(g, keyword, word, u, y, ReadWord(Before(t, s) + block).1, site);
    } else {
      SameWord(keyword, word, u, u, site);
      SiteWordLocal(t, y, site, keyword, word);
    }
  }

  lemma SiteSkip(a: string, b: string, site: SiteConfig)
    requires SkipSpace(a) == SkipSpace(b)
    ensures SiteLoop(a, site) == SiteLoop(b, site)
  {
  }

  lemma SiteAgain(core: string, y: string, site: SiteConfig, next: SiteConfig)
    requires core != "" && SkipSpace(core) == core && core[0] != '}'
    requires var again := SiteDirective(SiteKeywordOf(ReadWord(core).0), ReadWord(core).0, ReadWord(core).1, site);
      again.Parsed? && again.value == next && SkipSpace(again.rest) == SkipSpace(y)
    ensures SiteLoop(core, site) == SiteLoop(y, next)
  {
    SiteSkip(SiteDirective(SiteKeywordOf(ReadWord(core).0), ReadWord(core).0, ReadWord(core).1, site).rest, y, next);
  }

  lemma SiteSpread(g: Gaps, s: string, tail: string, site: SiteConfig)
    requires OnlyGaps(g) && SiteLoop(s, site).Parsed?
    ensures SiteLoop(SpreadSite(g, s, tail), site) == Parsed(SiteLoop(s, site).value, tail)
    ensures FrontLike(s, SpreadSite(g, s, tail))
    decreases |s|
  {
    var t := SkipSpace(s);
    if t[0] == '}' {
      Respaced(g, s, "}" + tail);
      assert ("}" + tail)[1..] == tail;
    } else {
      var (word, u) := ReadWord(t);
      var r := SiteDirective(SiteKeywordOf(word), word, u, site);
      SiteRest(SiteKeywordOf(word), word, u, site);
      assert word != "";
      SiteSpread(g, r.rest, tail, r.value);
      var y := SpreadSite(g, r.rest, tail);
      var core := SiteCore(g, t, y);
      SiteCoreReads(g, t, y, site);
      Respaced(g, s, core);
      NothingToSkip(core);
      SiteAgain(core, y, site, r.value);
    }
  }

  /** The keyword, the host and the opening brace. */
  lemma SiteOpeningLocal(t: string, y: string)
    requires t != "" && t == SkipSpace(t) && ReadWord(t).0 != "" && ReadWord(ReadWord(t).1).0 != ""
    requires ExpectByte(ReadWord(ReadWord(t).1).1, '{').Parsed?
    ensures var u := ReadWord(t).1;
      var core := Before(t, ExpectByte(ReadWord(u).1, '{').rest) + y;
      && core != "" && core[0] == t[0] && ReadWord(core).0 == ReadWord(t).0
      && ReadWord(ReadWord(core).1).0 == ReadWord(u).0 && ExpectByte(ReadWord(ReadWord(core).1).1, '{') == Parsed((), y)
  {
    var u := ReadWord(t).1;
    var w := ReadWord(u).1;
    var r := ExpectByte(w, '{').rest;
    ExpectLocal(w, y);
    InnerWord(u, r, y);
    InnerWordText(u, r, y);
    InnerWord(t, r, y);
    InnerWordFront(t, r);
  }

  lemma ConfigAgain(core: string, host: string, y: string, site: SiteConfig, rest: string, sites: seq<SiteConfig>)
    requires core != "" && SkipSpace(core) == core && ReadWord(core).0 == "site"
    requires ReadWord(ReadWord(core).1).0 == host && host != ""
    requires ExpectByte(ReadWord(ReadWord(core).1).1, '{') == Parsed((), y)
    requires SiteLoop(y, NewSite(host)) == Parsed(site, rest)
    ensures ConfigLoop(core, sites) == ConfigLoop(rest, sites + [site])
  {
    assert ParseSite(ReadWord(core).1) == Parsed(site, rest);
  }

  lemma ConfigSkip(a: string, b: string, sites: seq<SiteConfig>)
    requires SkipSpace(a) == SkipSpace(b)
    ensures ConfigLoop(a, sites) == ConfigLoop(b, sites)
  {
  }

  lemma SitesSpread(g: Gaps, s: string, sites: seq<SiteConfig>)
    requires OnlyGaps(g) && ConfigLoop(s, sites).Parsed?
    ensures ConfigLoop(SpreadConfig(g, s), sites) == ConfigLoop(s, sites)
    decreases |s|
  {
    var t := SkipSpace(s);
    if t != "" {
      var u := ReadWord(t).1;
      var host, w := ReadWord(u).0, ReadWord(u).1;
      var site := ParseSite(u);
      var open := ExpectByte(w, '{').rest;
      SitesSpread(g, site.rest, sites + [site.value]);
      var tail := SpreadConfig(g, site.rest);
      var y := SpreadSite(g, open, tail);
      SiteSpread(g, open, tail, NewSite(host));
      SiteOpeningLocal(t, y);
      var core := Before(t, open) + y;
      Respaced(g, s, core);
      NothingToSkip(core);
      ConfigAgain(core, host, y, site.value, tail, sites);
      ConfigSkip(Respace(g, s, core), core, sites);
    }
  }

  /** Gaps before directives and closing braces change nothing, in any text that is accepted. */
  lemma GapsDoNotMatter(g: Gaps, input: string)
    requires OnlyGaps(g) && ParseConfig(input).Parsed?
    ensures ParseConfig(SpreadConfig(g, input)) == ParseConfig(input)
  {
    SitesSpread(g, input, []);
  }

  // ----- Without gaps, spreading is the identity: it adds the gaps and nothing else

  ghost predicate NoGaps(g: Gaps) {
    forall n :: g(n) == ""
  }

  lemma RespacePlain(g: Gaps, s: string, core: string)
    requires NoGaps(g) && core == SkipSpace(s)
    ensures Respace(g, s, core) == s
  {
    SkipSpaceIsSuffix(s);
    assert g(|core|) + core == core;
  }

  lemma ClosePlain(g: Gaps, s: string)
    requires NoGaps(g) && SkipSpace(s) != "" && SkipSpace(s)[0] == '}'
    ensures Respace(g, s, "}" + SkipSpace(s)[1..]) == s
  {
    assert "}" + SkipSpace(s)[1..] == SkipSpace(s);
    RespacePlain(g, s, "}" + SkipSpace(s)[1..]);
  }

  lemma WordIsPrefix(s: string)
    ensures IsSuffix(ReadWord(s).1, s)
  {
    ReadWordSplits(s);
  }

  lemma SuffixOfRest(r: string, u: string, t: string)
    requires IsSuffix(r, u) && IsSuffix(u, t)
    ensures IsSuffix(r, t)
  {
    assert t == (Before(t, u) + Before(u, r)) + r;
  }

  lemma LineIsPrefix(t: string)
    ensures IsSuffix(ReadUntilNewline(ReadWord(t).1).1, t)
  {
    var u := ReadWord(t).1;
    WordIsPrefix(t);
    SliceIsSuffix(u, Span(u, EndsLine));
    SuffixOfRest(ReadUntilNewline(u).1, u, t);
  }

  lemma SecondWordIsPrefix(t: string)
    ensures IsSuffix(ReadWord(ReadWord(t).1).1, t)
  {
    WordIsPrefix(t);
    WordIsPrefix(ReadWord(t).1);
    SuffixOfRest(ReadWord(ReadWord(t).1).1, ReadWord(t).1, t);
  }

  lemma OpeningIsPrefix(t: string)
    requires ExpectByte(ReadWord(t).1, '{').Parsed?
    ensures IsSuffix(ExpectByte(ReadWord(t).1, '{').rest, t)
  {
    WordIsPrefix(t);
    ExpectLocal(ReadWord(t).1, "");
    SuffixOfRest(ExpectByte(ReadWord(t).1, '{').rest, ReadWord(t).1, t);
  }

  lemma {:induction false} CommandsPlain(g: Gaps, s: string, cmds: seq<CommandConfig>)
    requires NoGaps(g) && CommandsLoop(s, cmds).Parsed?
    ensures SpreadLines(g, s, CommandsLoop(s, cmds).rest) == s
    decreases |s|
  {
    var t := SkipSpace(s);
    if t[0] == '}' {
      ClosePlain(g, s);
    } else {
      var v := ReadUntilNewline(ReadWord(t).1).1;
      LineProgress(t);
      LineIsPrefix(t);
      CommandsPlain(g, v, cmds + [CommandOf(ReadWord(t).0, ReadUntilNewline(ReadWord(t).1).0).value]);
      RespacePlain(g, s, t);
    }
  }

  lemma {:induction false} MetaPlain(g: Gaps, s: string, meta: MetaConfig)
    requires NoGaps(g) && MetaLoop(s, meta).Parsed?
    ensures SpreadLines(g, s, MetaLoop(s, meta).rest) == s
    decreases |s|
  {
    var t := SkipSpace(s);
    if t[0] == '}' {
      ClosePlain(g, s);
    } else {
      var v := ReadUntilNewline(ReadWord(t).1).1;
      LineProgress(t);
      LineIsPrefix(t);
      MetaPlain(g, v, MetaLine(meta, ReadWord(t).0, ReadUntilNewline(ReadWord(t).1).0).value);
      RespacePlain(g, s, t);
    }
  }

  lemma {:induction false} AuthPlain(g: Gaps, s: string, auth: AuthConfig, strict: bool)
    requires NoGaps(g) && AuthLoop(s, auth, strict).Parsed?
    ensures SpreadAuth(g, s, AuthLoop(s, auth, strict).rest) == s
    decreases |s|
  {
    var t := SkipSpace(s);
    if t == "" {
      AuthEnds(s, auth, strict);
    } else if t[0] == '}' {
      ClosePlain(g, s);
    } else {
      var list := ReadBracketList(ReadWord(t).1);
      WordIsPrefix(t);
      BracketListLocal(ReadWord(t).1, "");
      SuffixOfRest(list.rest, ReadWord(t).1, t);
      AuthPlain(g, list.rest, GrantTo(auth, ReadWord(t).0, list.value, strict).value, strict);
      RespacePlain(g, s, t);
    }
  }

  lemma {:induction false} LimitsPlain(g: Gaps, s: string, limits: LimitsConfig)
    requires NoGaps(g) && LimitsLoop(s, limits).Parsed?
    ensures SpreadLimits(g, s, LimitsLoop(s, limits).rest) == s
    decreases |s|
  {
    var t := SkipSpace(s);
    if t[0] == '}' {
      ClosePlain(g, s);
    } else {
      var (value, v) := ReadWord(ReadWord(t).1);
      assert ReadWord(t).0 != "" by {
        assert Span(t, EndsWord) > 0;
      }
      SecondWordIsPrefix(t);
      LimitsPlain(g, v, LimitTo(limits, ReadWord(t).0, value));
      RespacePlain(g, s, t);
    }
  }

  lemma CacheIsPrefix(t: string, keyword: CacheKeyword, pc: ProxyCacheConfig)
    requires CacheDirective(keyword, ReadWord(t).1, pc).Parsed?
    ensures IsSuffix(CacheDirective(keyword, ReadWord(t).1, pc).rest, t)
  {
    CacheRestIs(keyword, ReadWord(t).1, pc);
    if keyword == OtherKey {
      LineIsPrefix(t);
    } else {
      SecondWordIsPrefix(t);
    }
  }

  lemma CacheRestIs(keyword: CacheKeyword, s: string, pc: ProxyCacheConfig)
    requires CacheDirective(keyword, s, pc).Parsed?
    ensures CacheDirective(keyword, s, pc).rest == if keyword == OtherKey then ReadUntilNewline(s).1 else ReadWord(s).1
  {
  }

  lemma {:induction false} CachePlain(g: Gaps, s: string, pc: ProxyCacheConfig)
    requires NoGaps(g) && CacheLoop(s, pc).Parsed?
    ensures SpreadCache(g, s, CacheLoop(s, pc).rest) == s
    decreases |s|
  {
    var t := SkipSpace(s);
    if t[0] == '}' {
      ClosePlain(g, s);
    } else {
      var keyword := CacheKeywordOf(ReadWord(t).0);
      var p := CacheDirective(keyword, ReadWord(t).1, pc);
      CacheRest(keyword, ReadWord(t).1, pc);
      CacheProgress(t, keyword, pc);
      CacheIsPrefix(t, keyword, pc);
      CachePlain(g, p.rest, p.value);
      RespacePlain(g, s, t);
    }
  }

  lemma ServerIsPrefix(keyword: string, u: string, mcp: MCPConfig)
    requires keyword != "auth" && McpDirective(keyword, u, mcp).Parsed?
    ensures IsSuffix(McpDirective(keyword, u, mcp).rest, u)
  {
    if ReadWord(u).0 == "stdio" {
      StdioLocal(u, "");
    } else {
      SecondWordIsPrefix(u);
    }
  }

  lemma McpCorePlain(g: Gaps, t: string, mcp: MCPConfig)
    requires NoGaps(g) && McpDirective(ReadWord(t).0, ReadWord(t).1, mcp).Parsed?
    ensures McpCore(g, t, McpDirective(ReadWord(t).0, ReadWord(t).1, mcp).rest) == t
  {
    if ReadWord(t).0 == "auth" {
      GrantsPlain(g, t, mcp);
    } else {
      McpRest(ReadWord(t).0, ReadWord(t).1, mcp);
      ServerLineIsPrefix(t, mcp);
      McpServerCore(g, t, McpDirective(ReadWord(t).0, ReadWord(t).1, mcp).rest);
    }
  }

  lemma McpServerCore(g: Gaps, t: string, y: string)
    requires ReadWord(t).0 != "auth" && McpDirective(ReadWord(t).0, ReadWord(t).1, NO_MCP).Parsed?
    ensures McpCore(g, t, y) == Before(t, McpDirective(ReadWord(t).0, ReadWord(t).1, NO_MCP).rest) + y
  {
  }

  lemma GrantsPlain(g: Gaps, t: string, mcp: MCPConfig)
    requires NoGaps(g) && ReadWord(t).0 == "auth" && McpDirective(ReadWord(t).0, ReadWord(t).1, mcp).Parsed?
    ensures McpCore(g, t, McpDirective(ReadWord(t).0, ReadWord(t).1, mcp).rest) == t
  {
    OpeningIsPrefix(t);
    AuthPlain(g, ExpectByte(ReadWord(t).1, '{').rest, NO_AUTH, true);
  }

  lemma ServerLineIsPrefix(t: string, mcp: MCPConfig)
    requires ReadWord(t).0 != "auth" && McpDirective(ReadWord(t).0, ReadWord(t).1, mcp).Parsed?
    ensures IsSuffix(McpDirective(ReadWord(t).0, ReadWord(t).1, mcp).rest, t)
  {
    ServerIsPrefix(ReadWord(t).0, ReadWord(t).1, mcp);
    WordIsPrefix(t);
    SuffixOfRest(McpDirective(ReadWord(t).0, ReadWord(t).1, mcp).rest, ReadWord(t).1, t);
  }

  lemma {:induction false} McpPlain(g: Gaps, s: string, mcp: MCPConfig)
    requires NoGaps(g) && McpLoop(s, mcp).Parsed?
    ensures SpreadMcp(g, s, McpLoop(s, mcp).rest) == s
    decreases |s|
  {
    var t := SkipSpace(s);
    if t == "" {
      McpEnds(s, mcp);
    } else if t[0] == '}' {
      ClosePlain(g, s);
    } else {
      var m := McpDirective(ReadWord(t).0, ReadWord(t).1, mcp);
      McpRest(ReadWord(t).0, ReadWord(t).1, mcp);
      assert ReadWord(t).0 == "server" || ReadWord(t).0 == "auth";
      McpPlain(g, m.rest, m.value);
      McpCorePlain(g, t, mcp);
      RespacePlain(g, s, t);
    }
  }

  lemma BlockPlain(g: Gaps, keyword: SiteKeyword, word: string, u: string, site: SiteConfig)
    requires NoGaps(g) && IsBlock(keyword) && SiteDirective(keyword, word, u, site).Parsed? && ExpectByte(u, '{').Parsed?
    ensures SpreadBlock(g, keyword, ExpectByte(u, '{').rest, SiteDirective(keyword, word, u, site).rest)
         == ExpectByte(u, '{').rest
  {
    var s := ExpectByte(u, '{').rest;
    match keyword
    case Commands => CommandsPlain(g, s, []);
    case Meta => MetaPlain(g, s, NO_META);
    case Mcp => McpPlain(g, s, NO_MCP);
    case ProxyCache => CachePlain(g, s, NO_PROXY_CACHE);
    case Auth => AuthPlain(g, s, NO_AUTH, false);
    case Limits => LimitsPlain(g, s, NO_LIMITS);
  }

  lemma SiteCorePlain(g: Gaps, t: string, site: SiteConfig)
    requires NoGaps(g) && SiteDirective(SiteKeywordOf(ReadWord(t).0), ReadWord(t).0, ReadWord(t).1, site).Parsed?
    ensures SiteCore(g, t, SiteDirective(SiteKeywordOf(ReadWord(t).0), ReadWord(t).0, ReadWord(t).1, site).rest) == t
  {
    var (word, u) := ReadWord(t);
    var keyword := SiteKeywordOf(word);
    SiteRest(keyword, word, u, site);
    if IsBlock(keyword) {
      BlockOpens(keyword, word, u, site);
      OpeningIsPrefix(t);
      BlockPlain(g, keyword, word, u, site);
    } else {
      SecondWordIsPrefix(t);
    }
  }

  lemma {:induction false} SitePlain(g: Gaps, s: string, site: SiteConfig)
    requires NoGaps(g) && SiteLoop(s, site).Parsed?
    ensures SpreadSite(g, s, SiteLoop(s, site).rest) == s
    decreases |s|
  {
    var t := SkipSpace(s);
    if t[0] == '}' {
      ClosePlain(g, s);
    } else {
      var (word, u) := ReadWord(t);
      var r := SiteDirective(SiteKeywordOf(word), word, u, site);
      SiteRest(SiteKeywordOf(word), word, u, site);
      assert word != "";
      SitePlain(g, r.rest, r.value);
      SiteCorePlain(g, t, site);
      RespacePlain(g, s, t);
    }
  }

  lemma {:induction false} SitesPlain(g: Gaps, s: string, sites: seq<SiteConfig>)
    requires NoGaps(g) && ConfigLoop(s, sites).Parsed?
    ensures SpreadConfig(g, s) == s
    decreases |s|
  {
    var t := SkipSpace(s);
    if t != "" {
      var u := ReadWord(t).1;
      var site := ParseSite(u);
      var open := ExpectByte(ReadWord(u).1, '{').rest;
      SitesPlain(g, site.rest, sites + [site.value]);
      SitePlain(g, open, NewSite(ReadWord(u).0));
      WordIsPrefix(t);
      OpeningIsPrefix(u);
      SuffixOfRest(open, u, t);
      RespacePlain(g, s, t);
    }
  }

  lemma WithoutGapsNothingChanges(g: Gaps, input: string)
    requires NoGaps(g) && ParseConfig(input).Parsed?
    ensures SpreadConfig(g, input) == input
  {
    SitesPlain(g, input, []);
  }
}
