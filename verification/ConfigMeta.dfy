/** The values in a `meta` block: how they are written on a line, and that the line gives them back. */
module ConfigMeta {
  import opened Config
  import opened ConfigSyntax
  import opened Strconv
  import opened Strings
  import opened Wrappers

  // ----- What can be written

  ghost predicate PrintableFeed(f: FeedConfig) {
    IsToken(f.path) && OnOneLine(f.path) && NoSpace(f.format) && OnOneLine(f.format)
  }

  ghost predicate PrintableFeeds(feeds: seq<FeedConfig>) {
    feeds == [] || (PrintableFeed(feeds[0]) && PrintableFeeds(feeds[1..]))
  }

  ghost predicate PrintableSitemap(s: SitemapConfig) {
    if s.path == "" then !s.dynamic else IsToken(s.path) && OnOneLine(s.path)
  }

  /** No white space, since the line is split on it first, and no quote that would be trimmed off. */
  ghost predicate PrintablePath(path: string) {
    IsToken(path) && OnOneLine(path) && ',' !in path && !IsQuote(path[0]) && !IsQuote(path[|path| - 1])
  }

  ghost predicate PrintablePaths(paths: seq<string>) {
    forall i :: 0 <= i < |paths| ==> PrintablePath(paths[i])
  }

  ghost predicate PrintableRobots(r: RobotsConfig) {
    && IsInt64(r.crawlDelay) && PrintablePaths(r.allowedPaths)
    && (r.allowedPaths != [] ==>
          var last := r.allowedPaths[|r.allowedPaths| - 1];
          PrintablePath(r.allowedPaths[0]) && !IsBracket(r.allowedPaths[0][0]) &&
          PrintablePath(last) && !IsBracket(last[|last| - 1]))
  }

  ghost predicate PrintableMeta(m: MetaConfig) {
    PrintableFeeds(m.feeds) && PrintableSitemap(m.sitemap) && PrintableRobots(m.robots)
  }

  // ----- How it is written

  const RSS_FEED := "rss-feed"
  const SITEMAP := "sitemap"
  const ROBOTS := "robots"
  const DYNAMIC := "dynamic=true"

  function FormatPart(format: string): string {
    "format=" + format
  }

  function FeedText(f: FeedConfig): string {
    f.path + (" " + FormatPart(f.format))
  }

  function SitemapText(s: SitemapConfig): string {
    if s.dynamic then s.path + (" " + DYNAMIC) else s.path
  }

  function DelayPart(delay: int): string {
    "crawl-delay=" + Itoa(delay)
  }

  function AllowPart(paths: seq<string>): string {
    "allow=" + ("[" + (Join(paths, ",") + "]"))
  }

  function RobotsText(r: RobotsConfig): string {
    DelayPart(r.crawlDelay) + (" " + AllowPart(r.allowedPaths))
  }

  // ----- Two words on a line

  lemma TwoWordsFit(a: string, b: string)
    requires IsToken(a) && IsToken(b) && OnOneLine(a) && OnOneLine(b)
    ensures Trimmed(a + (" " + b)) && OnOneLine(a + (" " + b)) && a + (" " + b) != ""
  {
    TwoWordsTrimmed(a, b);
  }

  lemma TwoWordsTrimmed(a: string, b: string)
    requires IsToken(a) && IsToken(b)
    ensures Trimmed(a + (" " + b))
  {
    var s := a + (" " + b);
    assert s[0] == a[0] && s[|s| - 1] == b[|b| - 1];
  }

  lemma OneWordFits(a: string)
    requires IsToken(a)
    ensures Trimmed(a) && Fields(a) == [a]
  {
    FieldsOfOne(a);
  }

  lemma PrefixTaken(p: string, s: string)
    ensures AfterPrefix(p + s, p) == Some(s)
  {
  }

  // ----- Feeds and the site map

  lemma FeedTextFits(f: FeedConfig)
    requires PrintableFeed(f)
    ensures Trimmed(FeedText(f)) && OnOneLine(FeedText(f)) && FeedText(f) != ""
    ensures Fields(FeedText(f)) == [f.path, FormatPart(f.format)]
  {
    FormatFits(f.format);
    TwoWordsFit(f.path, FormatPart(f.format));
    FieldsOfTwo(f.path, FormatPart(f.format));
  }

  lemma FormatFits(format: string)
    requires NoSpace(format) && OnOneLine(format)
    ensures IsToken(FormatPart(format)) && OnOneLine(FormatPart(format))
  {
  }

  lemma FormatRead(format: string)
    ensures FeedFormat([FormatPart(format)]) == format
  {
    PrefixTaken("format=", format);
    assert [FormatPart(format)][0] == FormatPart(format);
  }

  lemma FeedRead(meta: MetaConfig, f: FeedConfig, keyword: string)
    requires PrintableFeed(f) && keyword == RSS_FEED
    ensures MetaLine(meta, keyword, FeedText(f)) == Some(meta.(feeds := meta.feeds + [f]))
  {
    var parts := Fields(FeedText(f));
    FeedTextFits(f);
    assert parts[1..] == [FormatPart(f.format)];
    FormatRead(f.format);
  }

  lemma SitemapTextFits(s: SitemapConfig)
    requires PrintableSitemap(s) && s.path != ""
    ensures Trimmed(SitemapText(s)) && OnOneLine(SitemapText(s)) && SitemapText(s) != ""
    ensures Fields(SitemapText(s)) == if s.dynamic then [s.path, DYNAMIC] else [s.path]
  {
    if s.dynamic {
      TwoWordsFit(s.path, DYNAMIC);
      FieldsOfTwo(s.path, DYNAMIC);
    } else {
      OneWordFits(s.path);
    }
  }

  lemma SitemapRead(meta: MetaConfig, s: SitemapConfig, keyword: string)
    requires PrintableSitemap(s) && s.path != "" && !meta.sitemap.dynamic && keyword == SITEMAP
    ensures MetaLine(meta, keyword, SitemapText(s)) == Some(meta.(sitemap := s))
  {
    SitemapTextFits(s);
    DynamicListed(s, Fields(SitemapText(s)));
    SitemapLine(meta, keyword, SitemapText(s));
  }

  lemma DynamicListed(s: SitemapConfig, parts: seq<string>)
    requires parts == if s.dynamic then [s.path, DYNAMIC] else [s.path]
    ensures DYNAMIC in parts[1..] <==> s.dynamic
  {
    if s.dynamic {
      assert parts[1..][0] == DYNAMIC;
    }
  }

  lemma SitemapLine(meta: MetaConfig, keyword: string, rest: string)
    requires keyword == SITEMAP && Fields(rest) != []
    ensures MetaLine(meta, keyword, rest) ==
            Some(meta.(sitemap := SitemapConfig(Fields(rest)[0], meta.sitemap.dynamic || DYNAMIC in Fields(rest)[1..])))
  {
  }

  // ----- Robots

  lemma {:induction false} AllKept(items: seq<string>, clean: string -> string)
    requires forall i :: 0 <= i < |items| ==> clean(items[i]) == items[i] != ""
    ensures Cleaned(items, clean) == items
  {
    if items != [] {
      var n := |items| - 1;
      AllKept(items[..n], clean);
      assert items == items[..n] + [items[n]];
    }
  }

  lemma PathsKept(paths: seq<string>)
    requires PrintablePaths(paths)
    ensures Cleaned(paths, PathOf) == paths
  {
    forall i | 0 <= i < |paths|
      ensures PathOf(paths[i]) == paths[i] != ""
    {
      assert PrintablePath(paths[i]);
      PathKept(paths[i]);
    }
    AllKept(paths, PathOf);
  }

  lemma PathKept(path: string)
    requires PrintablePath(path)
    ensures PathOf(path) == path != ""
  {
    TrimSpaceId(path);
    assert TrimLeft(path, IsQuote) == path;
    assert TrimRight(path, IsQuote) == path;
  }

  lemma {:induction false} JoinedPaths(paths: seq<string>)
    requires paths != [] && PrintablePaths(paths)
    ensures var j := Join(paths, ",");
      j != "" && NoSpace(j) && OnOneLine(j) && j[0] == paths[0][0] &&
      var last := paths[|paths| - 1];
      last != "" && j[|j| - 1] == last[|last| - 1]
  {
    assert PrintablePath(paths[0]);
    if |paths| > 1 {
      JoinedPaths(paths[1..]);
      var rest := Join(paths[1..], ",");
      assert Join(paths, ",") == paths[0] + ("," + rest);
    }
  }

  lemma BracketsTrimmed(j: string)
    requires j != "" ==> !IsBracket(j[0]) && !IsBracket(j[|j| - 1])
    ensures Trim("[" + (j + "]"), IsBracket) == j
  {
    TrimLeftPad("[", j + "]", IsBracket);
    if j == "" {
      NoBracketsLeft(j + "]");
    } else {
      TrimRightPad(j, "]", IsBracket);
      KeptByTrim(j, j + "]");
    }
  }

  lemma NoBracketsLeft(s: string)
    requires s == "]"
    ensures TrimLeft(s, IsBracket) == ""
  {
    assert s[1..] == "";
  }

  lemma KeptByTrim(j: string, s: string)
    requires j != "" && j <= s && !IsBracket(j[0]) && !IsBracket(j[|j| - 1])
    ensures TrimLeft(s, IsBracket) == s && TrimRight(j, IsBracket) == j
  {
  }

  lemma AllowRead(robots: RobotsConfig, r: RobotsConfig)
    requires PrintableRobots(r)
    ensures RobotsPart(robots, AllowPart(r.allowedPaths)) ==
            robots.(allowedPaths := robots.allowedPaths + r.allowedPaths)
  {
    NotADelay(AllowPart(r.allowedPaths));
    PrefixTaken("allow=", "[" + (Join(r.allowedPaths, ",") + "]"));
    ListRead(r);
  }

  lemma ListRead(r: RobotsConfig)
    requires PrintableRobots(r)
    ensures Cleaned(Split(Trim("[" + (Join(r.allowedPaths, ",") + "]"), IsBracket), ','), PathOf) == r.allowedPaths
  {
    var paths := r.allowedPaths;
    if paths == [] {
      BracketsTrimmed(Join(paths, ","));
      EmptyList(Join(paths, ","));
    } else {
      JoinedPaths(paths);
      BracketsTrimmed(Join(paths, ","));
      NoCommas(paths);
      SplitOfJoin(paths, ',');
      PathsKept(paths);
    }
  }

  lemma EmptyList(j: string)
    requires j == ""
    ensures Cleaned(Split(j, ','), PathOf) == []
  {
    assert Split(j, ',') == [j];
    assert PathOf(j) == "";
  }

  lemma NoCommas(paths: seq<string>)
    requires PrintablePaths(paths)
    ensures forall i :: 0 <= i < |paths| ==> ',' !in paths[i]
  {
    forall i | 0 <= i < |paths|
      ensures ',' !in paths[i]
    {
      assert PrintablePath(paths[i]);
    }
  }

  lemma NotADelay(part: string)
    requires part != "" && part[0] == 'a'
    ensures AfterPrefix(part, "crawl-delay=").None?
  {
  }

  lemma DelayRead(robots: RobotsConfig, delay: int)
    requires IsInt64(delay)
    ensures RobotsPart(robots, DelayPart(delay)) == robots.(crawlDelay := delay)
  {
    PrefixTaken("crawl-delay=", Itoa(delay));
    AtoiOfItoa(delay);
  }

  lemma AllowPartFits(r: RobotsConfig)
    requires PrintableRobots(r)
    ensures IsToken(AllowPart(r.allowedPaths)) && OnOneLine(AllowPart(r.allowedPaths))
  {
    if r.allowedPaths != [] {
      JoinedPaths(r.allowedPaths);
    }
  }

  lemma DelayPartFits(delay: int)
    ensures IsToken(DelayPart(delay)) && OnOneLine(DelayPart(delay))
  {
    var digits := Digits(if delay < 0 then -delay else delay);
    assert AllDigits(digits);
  }

  lemma RobotsTextFits(r: RobotsConfig)
    requires PrintableRobots(r)
    ensures Trimmed(RobotsText(r)) && OnOneLine(RobotsText(r)) && RobotsText(r) != ""
    ensures Fields(RobotsText(r)) == [DelayPart(r.crawlDelay), AllowPart(r.allowedPaths)]
  {
    AllowPartFits(r);
    DelayPartFits(r.crawlDelay);
    TwoWordsFit(DelayPart(r.crawlDelay), AllowPart(r.allowedPaths));
    FieldsOfTwo(DelayPart(r.crawlDelay), AllowPart(r.allowedPaths));
  }

  lemma TwoRobotsParts(robots: RobotsConfig, a: string, b: string)
    ensures RobotsParts(robots, [a, b]) == RobotsPart(RobotsPart(robots, a), b)
  {
    RobotsSnoc(robots, [], a);
    RobotsSnoc(robots, [a], b);
    assert [] + [a] == [a] && [a] + [b] == [a, b];
  }

  lemma RobotsSnoc(robots: RobotsConfig, parts: seq<string>, part: string)
    ensures RobotsParts(robots, parts + [part]) == RobotsPart(RobotsParts(robots, parts), part)
  {
    assert (parts + [part])[..|parts|] == parts;
  }

  lemma RobotsRead(meta: MetaConfig, r: RobotsConfig, keyword: string)
    requires PrintableRobots(r) && meta.robots.allowedPaths == [] && keyword == ROBOTS
    ensures MetaLine(meta, keyword, RobotsText(r)) == Some(meta.(robots := r))
  {
    RobotsTextFits(r);
    RobotsPartsRead(meta.robots, r);
    RobotsLine(meta, keyword, RobotsText(r), r);
  }

  lemma RobotsPartsRead(robots: RobotsConfig, r: RobotsConfig)
    requires PrintableRobots(r) && robots.allowedPaths == []
    ensures RobotsParts(robots, [DelayPart(r.crawlDelay), AllowPart(r.allowedPaths)]) == r
  {
    TwoRobotsParts(robots, DelayPart(r.crawlDelay), AllowPart(r.allowedPaths));
    DelayRead(robots, r.crawlDelay);
    AllowRead(robots.(crawlDelay := r.crawlDelay), r);
    assert [] + r.allowedPaths == r.allowedPaths;
  }

  lemma RobotsLine(meta: MetaConfig, keyword: string, rest: string, robots: RobotsConfig)
    requires keyword == ROBOTS && RobotsParts(meta.robots, Fields(rest)) == robots
    ensures MetaLine(meta, keyword, rest) == Some(meta.(robots := robots))
  {
    RobotsIsAnother(keyword);
  }

  lemma RobotsIsAnother(keyword: string)
    requires keyword == ROBOTS
    ensures keyword != RSS_FEED && keyword != SITEMAP
  {
    assert |keyword| < |RSS_FEED| && |keyword| < |SITEMAP|;
  }
}
