/** Matching declared routes against requested paths. */
module Routes {
  import opened Strings

  predicate IsCatchAll(segment: string) {
    HasPrefix(segment, "{") && HasSuffix(segment, "*}")
  }

  predicate IsParameter(segment: string) {
    HasPrefix(segment, "{") && HasSuffix(segment, "}")
  }

  function WithoutQuery(path: string): string {
    var q := IndexOf(path, '?');
    if q >= 0 then path[..q] else path
  }

  function Segments(route: string): (r: seq<string>)
    ensures |r| >= 1
  {
    Split(Trim(route, IsSlash), '/')
  }

  /** The first `n` pattern segments are fixed or parameters, and fit the path's. */
  predicate OpensWith(pattern: seq<string>, path: seq<string>, n: nat) {
    && n <= |pattern| && n <= |path|
    && forall i :: 0 <= i < n ==> !IsCatchAll(pattern[i]) && (IsParameter(pattern[i]) || pattern[i] == path[i])
  }

  /** Either everything fits one to one, or all but a final catch-all does. */
  predicate SegmentsMatch(pattern: seq<string>, path: seq<string>)
    requires |pattern| >= 1
  {
    var last := |pattern| - 1;
    || (|pattern| == |path| && OpensWith(pattern, path, |pattern|))
    || (IsCatchAll(pattern[last]) && OpensWith(pattern, path, last))
  }

  predicate RouteMatches(pattern: string, path: string) {
    pattern == path || SegmentsMatch(Segments(pattern), Segments(WithoutQuery(path)))
  }

  /** `routeMatches` walks the pattern's segments and leaves at the first verdict. */
  method MatchRoute(pattern: string, path: string) returns (ok: bool)
    ensures ok <==> RouteMatches(pattern, path)
  {
    if pattern == path {
      return true;
    }
    var stripped := path;
    var q := IndexOf(stripped, '?');
    if q >= 0 {
      stripped := stripped[..q];
    }
    ok := MatchSegments(Segments(pattern), Segments(stripped));
  }

  method MatchSegments(patternParts: seq<string>, pathParts: seq<string>) returns (ok: bool)
    requires |patternParts| >= 1
    ensures ok <==> SegmentsMatch(patternParts, pathParts)
  {
    for i := 0 to |patternParts|
      invariant OpensWith(patternParts, pathParts, i)
    {
      var pp := patternParts[i];
      if IsCatchAll(pp) {
        return i == |patternParts| - 1;
      }
      if i >= |pathParts| {
        return false;
      }
      if IsParameter(pp) {
        continue;
      }
      if pp != pathParts[i] {
        return false;
      }
    }
    return |patternParts| == |pathParts|;
  }

  ghost predicate CatchAllBeforeEnd(pattern: string) {
    var p := Segments(pattern);
    exists i :: 0 <= i < |p| - 1 && IsCatchAll(p[i])
  }

  /** A catch-all before the end of a pattern makes it match nothing but itself. */
  lemma EarlyCatchAllMatchesOnlyItself(pattern: string, path: string)
    requires CatchAllBeforeEnd(pattern)
    ensures RouteMatches(pattern, path) <==> pattern == path
  {
    var p := Segments(pattern);
    var i :| 0 <= i < |p| - 1 && IsCatchAll(p[i]);
    EarlyCatchAllFitsNothing(p, Segments(WithoutQuery(path)), i);
  }

  lemma EarlyCatchAllFitsNothing(pattern: seq<string>, path: seq<string>, i: nat)
    requires i < |pattern| - 1 && IsCatchAll(pattern[i])
    ensures !SegmentsMatch(pattern, path)
  {
    assert !OpensWith(pattern, path, |pattern|) && !OpensWith(pattern, path, |pattern| - 1);
  }

  lemma SegmentsMatchThemselves(pattern: string)
    requires !CatchAllBeforeEnd(pattern)
    ensures SegmentsMatch(Segments(pattern), Segments(pattern))
  {
    var p := Segments(pattern);
    var last := |p| - 1;
    assert forall i :: 0 <= i < last ==> !IsCatchAll(p[i]);
    assert OpensWith(p, p, last);
    assert IsCatchAll(p[last]) || OpensWith(p, p, |p|);
  }

  lemma QueryIsStripped(path: string, query: string)
    requires '?' !in path
    ensures WithoutQuery(path + ("?" + query)) == path == WithoutQuery(path)
  {
    IndexOfFirst(path, '?', query);
    assert (path + ("?" + query))[..|path|] == path;
  }

  /** The query never decides the match if and only if the pattern has no catch-all before its end. */
  lemma QueryIndependence(pattern: string)
    requires '?' !in pattern
    ensures !CatchAllBeforeEnd(pattern) <==>
      forall path: string, query: string :: '?' !in path ==>
        (RouteMatches(pattern, path + ("?" + query)) <==> RouteMatches(pattern, path))
  {
    if CatchAllBeforeEnd(pattern) {
      var path := pattern + ("?" + "");
      assert path[|pattern|] == '?';
      EarlyCatchAllMatchesOnlyItself(pattern, path);
      assert RouteMatches(pattern, pattern) && !RouteMatches(pattern, path);
    } else {
      forall path: string, query: string | '?' !in path
        ensures RouteMatches(pattern, path + ("?" + query)) <==> RouteMatches(pattern, path)
      {
        QueryIsStripped(path, query);
        assert (path + ("?" + query))[|path|] == '?';
        SegmentsMatchThemselves(pattern);
      }
    }
  }

  // ----- Filling in a pattern

  ghost predicate PlainSegments(segments: seq<string>) {
    segments != [] && forall i :: 0 <= i < |segments| ==> segments[i] != [] && '/' !in segments[i] && '?' !in segments[i]
  }

  function Route(segments: seq<string>): string {
    "/" + Join(segments, "/")
  }

  lemma {:induction false} JoinedEnds(segments: seq<string>)
    requires PlainSegments(segments)
    ensures var j := Join(segments, "/"); j != [] && j[0] != '/' && j[|j| - 1] != '/' && '?' !in j
  {
    var first := segments[0];
    assert first[0] in first && first[|first| - 1] in first;
    if |segments| > 1 {
      var rest := Join(segments[1..], "/");
      JoinedEnds(segments[1..]);
      var j := first + ("/" + rest);
      assert forall c :: c in j ==> c in first || c == '/' || c in rest;
    }
  }

  lemma SegmentsOfRoute(segments: seq<string>)
    requires PlainSegments(segments)
    ensures Segments(Route(segments)) == segments && '?' !in Route(segments)
  {
    SplitOfJoin(segments, '/');
    JoinedEnds(segments);
    var j := Join(segments, "/");
    TrimLeftPad("/", j, IsSlash);
    NothingToTrim(j);
  }

  lemma NothingToTrim(j: string)
    requires j != "" && j[0] != '/' && j[|j| - 1] != '/'
    ensures TrimLeft(j, IsSlash) == j && TrimRight(j, IsSlash) == j
  {
  }

  /** Every way to fill in the parameters, and to extend a final catch-all, and nothing else matches. */
  lemma FilledPatterns(pattern: seq<string>, path: seq<string>)
    requires PlainSegments(pattern) && PlainSegments(path)
    ensures RouteMatches(Route(pattern), Route(path)) <==> pattern == path || SegmentsMatch(pattern, path)
  {
    SegmentsOfRoute(pattern);
    SegmentsOfRoute(path);
  }

  // ----- Patterns as operators write them

  /** A fixed segment, `{name}`, or `{name*}`. */
  datatype Piece = Fixed(text: string) | Parameter(name: string) | CatchAll(name: string)

  function PieceText(p: Piece): string {
    match p
    case Fixed(text) => text
    case Parameter(name) => "{" + (name + "}")
    case CatchAll(name) => "{" + (name + "*}")
  }

  ghost predicate GoodPiece(p: Piece) {
    match p
    case Fixed(text) => text != "" && text[0] != '{'
    case Parameter(name) => name == "" || name[|name| - 1] != '*'
    case CatchAll(_) => true
  }

  function PieceTexts(pieces: seq<Piece>): (r: seq<string>)
    ensures |r| == |pieces|
  {
    seq(|pieces|, i requires 0 <= i < |pieces| => PieceText(pieces[i]))
  }

  /** Segment by segment: a parameter takes any one, and a final catch-all all that are left. */
  predicate Fits(pieces: seq<Piece>, path: seq<string>) {
    if pieces == [] then path == []
    else
      match pieces[0]
      case Fixed(text) => path != [] && path[0] == text && Fits(pieces[1..], path[1..])
      case Parameter(_) => path != [] && Fits(pieces[1..], path[1..])
      case CatchAll(_) => |pieces| == 1
  }

  lemma NotStarred(text: string)
    requires |text| >= 2 && text[|text| - 2] != '*'
    ensures !HasSuffix(text, "*}")
  {
    assert text[|text| - 2..][0] == text[|text| - 2];
  }

  lemma PieceKind(p: Piece)
    requires GoodPiece(p)
    ensures IsCatchAll(PieceText(p)) <==> p.CatchAll?
    ensures !p.CatchAll? ==> (IsParameter(PieceText(p)) <==> p.Parameter?)
  {
    var text := PieceText(p);
    match p
    case Fixed(_) =>
      assert !HasPrefix(text, "{") by {
        assert "{"[0] == '{';
      }
    case Parameter(name) =>
      assert text[|text| - 1..] == "}";
      assert name != "" ==> text[|text| - 2] == name[|name| - 1];
      assert name == "" ==> text[|text| - 2] == '{';
      NotStarred(text);
    case CatchAll(name) =>
      assert text[|text| - 2..] == "*}";
  }

  lemma RestOpensWith(a: string, pattern: seq<string>, b: string, path: seq<string>, n: nat)
    requires OpensWith([a] + pattern, [b] + path, n + 1)
    ensures !IsCatchAll(a) && (IsParameter(a) || a == b) && OpensWith(pattern, path, n)
  {
    var p, q := [a] + pattern, [b] + path;
    assert p[0] == a && q[0] == b;
    forall i | 0 <= i < n
      ensures !IsCatchAll(pattern[i]) && (IsParameter(pattern[i]) || pattern[i] == path[i])
    {
      assert p[i + 1] == pattern[i] && q[i + 1] == path[i];
    }
  }

  lemma OpensWithCons(a: string, pattern: seq<string>, b: string, path: seq<string>, n: nat)
    ensures OpensWith([a] + pattern, [b] + path, n + 1) <==>
            !IsCatchAll(a) && (IsParameter(a) || a == b) && OpensWith(pattern, path, n)
  {
    if OpensWith([a] + pattern, [b] + path, n + 1) {
      RestOpensWith(a, pattern, b, path, n);
    }
  }

  lemma MatchCons(a: string, pattern: seq<string>, b: string, path: seq<string>)
    requires pattern != []
    ensures SegmentsMatch([a] + pattern, [b] + path) <==>
            !IsCatchAll(a) && (IsParameter(a) || a == b) && SegmentsMatch(pattern, path)
  {
    OpensWithCons(a, pattern, b, path, |pattern|);
    OpensWithCons(a, pattern, b, path, |pattern| - 1);
    assert ([a] + pattern)[|pattern|] == pattern[|pattern| - 1];
  }

  lemma MatchOne(a: string, path: seq<string>)
    ensures SegmentsMatch([a], path) <==> IsCatchAll(a) || (|path| == 1 && (IsParameter(a) || a == path[0]))
  {
    assert OpensWith([a], path, 0);
    assert [a][0] == a;
  }

  /** With more pieces to come and no segment left, nothing fits. */
  lemma MatchNone(a: string, pattern: seq<string>)
    requires pattern != []
    ensures !SegmentsMatch([a] + pattern, [])
  {
  }

  lemma {:induction false} MatchIsFit(pieces: seq<Piece>, path: seq<string>)
    requires pieces != [] && forall i :: 0 <= i < |pieces| ==> GoodPiece(pieces[i])
    ensures SegmentsMatch(PieceTexts(pieces), path) <==> Fits(pieces, path)
    decreases |pieces|
  {
    var a := PieceText(pieces[0]);
    PieceKind(pieces[0]);
    if |pieces| == 1 {
      assert PieceTexts(pieces) == [a];
      MatchOne(a, path);
      assert path != [] ==> (path[1..] == [] <==> |path| == 1);
    } else {
      var rest := PieceTexts(pieces[1..]);
      assert PieceTexts(pieces) == [a] + rest;
      if path == [] {
        MatchNone(a, rest);
      } else {
        assert path == [path[0]] + path[1..];
        MatchCons(a, rest, path[0], path[1..]);
        MatchIsFit(pieces[1..], path[1..]);
      }
    }
  }

  /** A route pattern, as it is written, matches exactly the paths its pieces fit, and itself. */
  lemma PatternsMean(pieces: seq<Piece>, path: seq<string>)
    requires forall i :: 0 <= i < |pieces| ==> GoodPiece(pieces[i])
    requires PlainSegments(PieceTexts(pieces)) && PlainSegments(path)
    ensures RouteMatches(Route(PieceTexts(pieces)), Route(path)) <==> PieceTexts(pieces) == path || Fits(pieces, path)
  {
    FilledPatterns(PieceTexts(pieces), path);
    MatchIsFit(pieces, path);
  }
}
