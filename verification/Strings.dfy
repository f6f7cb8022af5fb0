/**
  The functions of Go's `strings` and `unicode` packages the daemon relies on.
  A string is a sequence of Unicode code points.
 */
module Strings {

  /** `unicode.IsSpace`: the code points with the property White_Space. */
  predicate IsSpace(c: char) {
    var n := c as int;
    || 9 <= n <= 13 || n == 0x20 || n == 0x85 || n == 0xA0 || n == 0x1680
    || 0x2000 <= n <= 0x200A || n == 0x2028 || n == 0x2029 || n == 0x202F || n == 0x205F || n == 0x3000
  }

  predicate IsSlash(c: char) {
    c == '/'
  }

  function TrimLeft(s: string, cut: char -> bool): (r: string)
    ensures |r| <= |s| && s[|s| - |r|..] == r
    ensures r != [] ==> !cut(r[0])
  {
    if s != [] && cut(s[0]) then TrimLeft(s[1..], cut) else s
  }

  function TrimRight(s: string, cut: char -> bool): (r: string)
    ensures r <= s
    ensures r != [] ==> !cut(r[|r| - 1])
  {
    if s != [] && cut(s[|s| - 1]) then TrimRight(s[..|s| - 1], cut) else s
  }

  function Trim(s: string, cut: char -> bool): string {
    TrimRight(TrimLeft(s, cut), cut)
  }

  function TrimSpace(s: string): string {
    Trim(s, IsSpace)
  }

  ghost predicate All(s: string, p: char -> bool) {
    forall i :: 0 <= i < |s| ==> p(s[i])
  }

  ghost predicate AllSpace(s: string) {
    forall i :: 0 <= i < |s| ==> IsSpace(s[i])
  }

  /** No space at either end; the strings `TrimSpace` leaves alone. */
  ghost predicate Trimmed(s: string) {
    s != [] ==> !IsSpace(s[0]) && !IsSpace(s[|s| - 1])
  }

  predicate HasPrefix(s: string, p: string) {
    p <= s
  }

  predicate HasSuffix(s: string, p: string) {
    |p| <= |s| && s[|s| - |p|..] == p
  }

  /**
    `unicode.ToLower`. Besides A-Z, two letters have an ASCII lower case; a letter whose
    lower case is not ASCII is left alone, since the results are only compared with ASCII.
   */
  function LowerChar(c: char): char {
    if 'A' <= c <= 'Z' then (c as int + 32) as char
    else if c == '\U{212A}' then 'k'
    else if c == '\U{0130}' then 'i'
    else c
  }

  function ToLower(s: string): (r: string)
    ensures |r| == |s|
  {
    seq(|s|, i requires 0 <= i < |s| => LowerChar(s[i]))
  }

  /** `strings.IndexByte`: the first occurrence, or -1. */
  function IndexOf(s: string, c: char): (r: int)
    ensures -1 <= r < |s|
    ensures r == -1 <==> c !in s
    ensures r >= 0 ==> s[r] == c && forall i :: 0 <= i < r ==> s[i] != c
  {
    if s == [] then -1
    else if s[0] == c then 0
    else
      var r := IndexOf(s[1..], c);
      assert c in s ==> c in s[1..];
      if r == -1 then -1 else r + 1
  }

  /** `strings.Split` on a one-character separator. */
  function Split(s: string, sep: char): (r: seq<string>)
    ensures |r| >= 1
    decreases |s|
  {
    var i := IndexOf(s, sep);
    if i < 0 then [s] else [s[..i]] + Split(s[i + 1..], sep)
  }

  function Join(parts: seq<string>, sep: string): string {
    if |parts| == 0 then ""
    else if |parts| == 1 then parts[0]
    else parts[0] + (sep + Join(parts[1..], sep))
  }

  ghost predicate NoSpace(s: string) {
    forall i :: 0 <= i < |s| ==> !IsSpace(s[i])
  }

  ghost predicate IsToken(s: string) {
    s != [] && forall i :: 0 <= i < |s| ==> !IsSpace(s[i])
  }

  ghost predicate AllTokens(parts: seq<string>) {
    forall i :: 0 <= i < |parts| ==> IsToken(parts[i])
  }

  /** The length of the run of non-spaces that opens `s`. */
  function TokenLength(s: string): (n: nat)
    ensures n <= |s|
    ensures forall i :: 0 <= i < n ==> !IsSpace(s[i])
    ensures n < |s| ==> IsSpace(s[n])
  {
    if s == [] || IsSpace(s[0]) then 0 else 1 + TokenLength(s[1..])
  }

  /** `strings.Fields`: the maximal runs of non-spaces, in order. */
  function Fields(s: string): seq<string>
    decreases |s|
  {
    var t := TrimLeft(s, IsSpace);
    if t == [] then []
    else
      var n := TokenLength(t);
      [t[..n]] + Fields(t[n..])
  }

  // ----- Trimming

  lemma {:induction false} TrimLeftPad(pad: string, s: string, cut: char -> bool)
    requires All(pad, cut)
    ensures TrimLeft(pad + s, cut) == TrimLeft(s, cut)
  {
    if pad == [] {
      assert pad + s == s;
    } else {
      assert (pad + s)[1..] == pad[1..] + s;
      TrimLeftPad(pad[1..], s, cut);
    }
  }

  lemma {:induction false} TrimRightPad(s: string, pad: string, cut: char -> bool)
    requires All(pad, cut)
    ensures TrimRight(s + pad, cut) == TrimRight(s, cut)
  {
    if pad == [] {
      assert s + pad == s;
    } else {
      var n := |pad| - 1;
      assert (s + pad)[..|s + pad| - 1] == s + pad[..n];
      TrimRightPad(s, pad[..n], cut);
    }
  }

  /** Padding disappears, and nothing else does. */
  lemma TrimSpacePad(left: string, s: string, right: string)
    requires AllSpace(left) && AllSpace(right) && Trimmed(s)
    ensures TrimSpace(left + (s + right)) == s
  {
    TrimLeftPad(left, s + right, IsSpace);
    TrimRightPad(s, right, IsSpace);
    if s == [] {
      TrimLeftPad(right, "", IsSpace);
      assert s + right == right == right + "";
    }
  }

  lemma TrimSpaceId(s: string)
    requires Trimmed(s)
    ensures TrimSpace(s) == s
  {
    TrimSpacePad("", s, "");
    assert "" + (s + "") == s;
  }

  lemma TrimSpaceIsTrimmed(s: string)
    ensures Trimmed(TrimSpace(s))
  {
    var t := TrimLeft(s, IsSpace);
    var r := TrimRight(t, IsSpace);
    assert r <= t;
  }

  lemma LowerKeepsSpaces(s: string)
    ensures forall i :: 0 <= i < |s| ==> (IsSpace(s[i]) <==> IsSpace(ToLower(s)[i]))
  {
  }

  // ----- Splitting

  lemma {:induction false} IndexOfFirst(left: string, c: char, right: string)
    requires c !in left
    ensures IndexOf(left + ([c] + right), c) == |left|
  {
    var s := left + ([c] + right);
    var r := IndexOf(s, c);
    assert forall i :: 0 <= i < |left| ==> s[i] == left[i];
    assert s[|left|] == c;
  }

  lemma FirstPart(first: string, c: char, rest: string)
    requires c !in first
    ensures Split(first + ([c] + rest), c) == [first] + Split(rest, c)
  {
    var s := first + ([c] + rest);
    IndexOfFirst(first, c, rest);
    assert s[..|first|] == first && s[|first| + 1..] == rest;
  }

  /** Splitting undoes joining on a character that none of the parts contains. */
  lemma {:induction false} SplitOfJoin(parts: seq<string>, c: char)
    requires parts != [] && forall i :: 0 <= i < |parts| ==> c !in parts[i]
    ensures Split(Join(parts, [c]), c) == parts
  {
    if |parts| == 1 {
      assert parts == [parts[0]];
    } else {
      FirstPart(parts[0], c, Join(parts[1..], [c]));
      SplitOfJoin(parts[1..], c);
      assert parts == [parts[0]] + parts[1..];
    }
  }

  // ----- Tokens

  lemma {:induction false} TokenLengthOf(tok: string, rest: string)
    requires forall i :: 0 <= i < |tok| ==> !IsSpace(tok[i])
    requires rest == [] || IsSpace(rest[0])
    ensures TokenLength(tok + rest) == |tok|
  {
    if tok == [] {
      assert tok + rest == rest;
    } else {
      assert (tok + rest)[1..] == tok[1..] + rest;
      TokenLengthOf(tok[1..], rest);
    }
  }

  lemma {:induction false} FieldsAreTokens(s: string)
    ensures AllTokens(Fields(s))
    decreases |s|
  {
    var t := TrimLeft(s, IsSpace);
    if t != [] {
      var n := TokenLength(t);
      assert IsToken(t[..n]);
      FieldsAreTokens(t[n..]);
      AllTokensCons(t[..n], Fields(t[n..]));
    }
  }

  lemma AllTokensCons(tok: string, parts: seq<string>)
    requires IsToken(tok) && AllTokens(parts)
    ensures AllTokens([tok] + parts)
  {
  }

  lemma FieldsToken(tok: string, rest: string)
    requires IsToken(tok)
    requires rest == [] || IsSpace(rest[0])
    ensures Fields(tok + rest) == [tok] + Fields(rest)
  {
    var s := tok + rest;
    assert s[0] == tok[0];
    assert TrimLeft(s, IsSpace) == s;
    TokenLengthOf(tok, rest);
    assert s[..|tok|] == tok && s[|tok|..] == rest;
  }

  lemma FieldsOfOne(tok: string)
    requires IsToken(tok)
    ensures Fields(tok) == [tok]
  {
    FieldsToken(tok, "");
    assert tok + "" == tok;
  }

  lemma FieldsSpace(s: string)
    requires s != [] && IsSpace(s[0])
    ensures Fields(s) == Fields(s[1..])
  {
  }

  lemma FieldsSpaceToken(tok: string, rest: string)
    requires IsToken(tok)
    ensures Fields(tok + (" " + rest)) == [tok] + Fields(rest)
  {
    FieldsToken(tok, " " + rest);
    FieldsSpace(" " + rest);
    assert (" " + rest)[1..] == rest;
  }

  lemma FieldsOfTwo(a: string, b: string)
    requires IsToken(a) && IsToken(b)
    ensures Fields(a + (" " + b)) == [a, b]
  {
    assert [a, b][1..] == [b];
    assert Join([a, b], " ") == a + (" " + b);
    FieldsOfJoin([a, b]);
  }

  /** Joining tokens with single spaces and splitting again gives the tokens back. */
  lemma {:induction false} FieldsOfJoin(parts: seq<string>)
    requires AllTokens(parts)
    ensures Fields(Join(parts, " ")) == parts
  {
    if |parts| == 0 {
    } else if |parts| == 1 {
      FieldsToken(parts[0], "");
      assert parts[0] + "" == parts[0];
      assert parts == [parts[0]];
    } else {
      var first, others := parts[0], parts[1..];
      FieldsOfJoin(others);
      FieldsSpaceToken(first, Join(others, " "));
      assert parts == [first] + others;
    }
  }
}
