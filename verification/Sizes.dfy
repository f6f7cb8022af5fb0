/** Byte counts such as `10MB`, `512K` or `64MiB`, in 64-bit arithmetic. */
module Sizes {
  import opened Strconv
  import opened Strings

  const DEFAULT_MAX_RESPONSE_BYTES := 64 * 1024 * 1024

  const UNITS: seq<(string, int)> := [
    ("gib", 0x4000_0000), ("mib", 0x10_0000), ("kib", 0x400),
    ("gb", 1000000000), ("mb", 1000000), ("kb", 1000),
    ("g", 0x4000_0000), ("m", 0x10_0000), ("k", 0x400), ("b", 1)]

  /** The first entry of a table, from `i` on, whose suffix `s` has; the table's length if none. */
  function FirstSuffix(s: string, units: seq<(string, int)>, i: nat): (r: nat)
    requires i <= |units|
    ensures i <= r <= |units|
    ensures r < |units| ==> HasSuffix(s, units[r].0)
    ensures forall j :: i <= j < r ==> !HasSuffix(s, units[j].0)
    decreases |units| - i
  {
    if i == |units| || HasSuffix(s, units[i].0) then i else FirstSuffix(s, units, i + 1)
  }

  function FirstUnit(s: string, i: nat): (r: nat)
    requires i <= |UNITS|
    ensures i <= r <= |UNITS|
  {
    FirstSuffix(s, UNITS, i)
  }

  /** The digit loop, which wraps around. */
  function WrappedValue(digits: string): (n: int)
    ensures IsInt64(n)
  {
    if digits == [] then 0
    else Wrap64(WrappedValue(digits[..|digits| - 1]) * 10 + DigitValue(digits[|digits| - 1]))
  }

  function ParseSize(s: string): (int, bool) {
    ParseTrimmed(TrimSpace(ToLower(s)))
  }

  function ParseTrimmed(t: string): (int, bool) {
    if t == "" then (0, false)
    else
      var (digits, mult) := WithoutUnit(t);
      Times(digits, mult)
  }

  /** The text before the unit found, and its multiplier. */
  function WithoutUnit(t: string): (string, int) {
    var u := FirstUnit(t, 0);
    if u < |UNITS| then (TrimSpace(t[..|t| - |UNITS[u].0|]), UNITS[u].1) else (t, 1)
  }

  function Times(digits: string, mult: int): (int, bool) {
    if AllDigits(digits) then (Wrap64(WrappedValue(digits) * mult), WrappedValue(digits) > 0) else (0, false)
  }

  /** `parseSize` */
  method ReadSize(text: string) returns (n: int, ok: bool)
    ensures (n, ok) == ParseSize(text)
  {
    var s := TrimSpace(ToLower(text));
    if s == "" {
      return 0, false;
    }
    var mult;
    s, mult := StripUnit(s);
    n, ok := ReadDigits(s, mult);
  }

  method StripUnit(t: string) returns (s: string, mult: int)
    ensures (s, mult) == WithoutUnit(t)
  {
    s, mult := t, 1;
    for i := 0 to |UNITS|
      invariant FirstUnit(t, 0) == FirstUnit(t, i)
      invariant s == t && mult == 1
    {
      if HasSuffix(s, UNITS[i].0) {
        mult := UNITS[i].1;
        s := TrimSpace(s[..|s| - |UNITS[i].0|]);
        break;
      }
    }
  }

  method ReadDigits(s: string, mult: int) returns (r: int, ok: bool)
    ensures (r, ok) == Times(s, mult)
  {
    var n := 0;
    for i := 0 to |s|
      invariant AllDigits(s[..i]) && n == WrappedValue(s[..i])
    {
      assert s[..i + 1][..i] == s[..i];
      if !IsDigit(s[i]) {
        return 0, false;
      }
      n := Wrap64(n * 10 + DigitValue(s[i]));
    }
    assert s[..|s|] == s;
    return Wrap64(n * mult), n > 0;
  }

  // ----- The unit table

  predicate Letters(s: string) {
    s != [] && forall i :: 0 <= i < |s| ==> 'a' <= s[i] <= 'z'
  }

  /** Longer suffixes come first, and none is listed twice. */
  lemma UnitTable(j: nat, k: nat)
    requires j < k < |UNITS|
    ensures |UNITS[j].0| >= |UNITS[k].0| && UNITS[j].0 != UNITS[k].0
  {
  }

  /** The bytes in one of each unit. */
  function BytesIn(name: string): int {
    if name == "k" || name == "kib" then 1024
    else if name == "m" || name == "mib" then 1024 * 1024
    else if name == "g" || name == "gib" then 1024 * 1024 * 1024
    else if name == "kb" then 1000
    else if name == "mb" then 1000 * 1000
    else if name == "gb" then 1000 * 1000 * 1000
    else 1
  }

  /** Every entry of the table has that value, and every unit an entry. */
  lemma UnitsByValue(k: nat)
    requires k < |UNITS|
    ensures UNITS[k].1 == BytesIn(UNITS[k].0)
    ensures UNITS[k].0 in {"b", "k", "m", "g", "kb", "mb", "gb", "kib", "mib", "gib"}
  {
  }

  lemma UnitListed(name: string) returns (k: nat)
    requires name in {"b", "k", "m", "g", "kb", "mb", "gb", "kib", "mib", "gib"}
    ensures k < |UNITS| && UNITS[k].0 == name
  {
    k := 0;
    while k < |UNITS| && UNITS[k].0 != name
      invariant k <= |UNITS| && forall j :: 0 <= j < k ==> UNITS[j].0 != name
    {
      k := k + 1;
    }
    if k == |UNITS| {
      AllListed(name);
    }
  }

  lemma AllListed(name: string)
    requires name in {"b", "k", "m", "g", "kb", "mb", "gb", "kib", "mib", "gib"}
    ensures exists j :: 0 <= j < |UNITS| && UNITS[j].0 == name
  {
    assert UNITS[0].0 == "gib" && UNITS[1].0 == "mib" && UNITS[2].0 == "kib" && UNITS[3].0 == "gb" && UNITS[4].0 == "mb";
    assert UNITS[5].0 == "kb" && UNITS[6].0 == "g" && UNITS[7].0 == "m" && UNITS[8].0 == "k" && UNITS[9].0 == "b";
  }

  lemma UnitsAreLetters(k: nat)
    requires k < |UNITS|
    ensures Letters(UNITS[k].0) && UNITS[k].1 >= 1
  {
  }

  /** The entry found is the longest unit the string ends with. */
  lemma FirstUnitIsLongest(s: string, k: nat)
    requires k < |UNITS| && HasSuffix(s, UNITS[k].0)
    ensures FirstUnit(s, 0) < |UNITS| && |UNITS[FirstUnit(s, 0)].0| >= |UNITS[k].0|
  {
    if FirstUnit(s, 0) < k {
      UnitTable(FirstUnit(s, 0), k);
    }
  }

  /** After something that is not a letter, the unit that was written is the one found. */
  lemma UnitFound(before: string, k: nat)
    requires k < |UNITS| && before != [] && !('a' <= before[|before| - 1] <= 'z')
    ensures FirstUnit(before + UNITS[k].0, 0) == k
  {
    var s := before + UNITS[k].0;
    assert HasSuffix(s, UNITS[k].0);
    var f := FirstUnit(s, 0);
    if f < k {
      UnitTable(f, k);
      UnitsAreLetters(f);
      LettersComeAfter(s, |before| - 1, UNITS[f].0);
    }
  }

  /** A suffix of letters starts after anything that is not one. */
  lemma LettersComeAfter(s: string, at: nat, suffix: string)
    requires at < |s| && !('a' <= s[at] <= 'z') && Letters(suffix) && HasSuffix(s, suffix)
    ensures |suffix| < |s| - at
  {
    assert forall i :: 0 <= i < |suffix| ==> suffix[i] == s[|s| - |suffix| + i];
    assert s[at] == s[|s| - |suffix| + (at - (|s| - |suffix|))];
  }

  lemma NoUnitFound(digits: string)
    requires digits != [] && AllDigits(digits)
    ensures FirstUnit(digits, 0) == |UNITS|
  {
    var f := FirstUnit(digits, 0);
    if f < |UNITS| {
      UnitsAreLetters(f);
      LettersComeAfter(digits, |digits| - 1, UNITS[f].0);
    }
  }

  // ----- Exactness

  lemma {:induction false} WrappedValueIsWrapped(digits: string)
    ensures WrappedValue(digits) == Wrap64(Value(digits))
  {
    if digits != [] {
      var init := digits[..|digits| - 1];
      WrappedValueIsWrapped(init);
      WrapOfSum(Value(init), DigitValue(digits[|digits| - 1]));
    }
  }

  lemma WrapOfSum(v: int, d: int)
    ensures Wrap64(Wrap64(v) * 10 + d) == Wrap64(v * 10 + d)
  {
    var q := (v + TWO_63) / TWO_64;
    assert Wrap64(v) == v - q * TWO_64;
    WrapShift(v * 10 + d, -10 * q);
  }

  lemma WrapShift(n: int, q: int)
    ensures Wrap64(n + q * TWO_64) == Wrap64(n)
  {
  }

  lemma LowerOfConcat(a: string, b: string)
    ensures ToLower(a + b) == ToLower(a) + ToLower(b)
  {
  }

  lemma LowerOfSpaces(s: string)
    requires AllSpace(s)
    ensures ToLower(s) == s
  {
  }

  lemma LowerOfDigits(s: string)
    requires AllDigits(s)
    ensures ToLower(s) == s
  {
  }

  /** A number and one of the units, or none: `unit` is a table index, or the table's length. */
  predicate IsUnit(text: string, unit: nat) {
    unit <= |UNITS| && ToLower(text) == if unit < |UNITS| then UNITS[unit].0 else ""
  }

  function Multiplier(unit: nat): int
    requires unit <= |UNITS|
  {
    if unit < |UNITS| then UNITS[unit].1 else 1
  }

  function SizeOf(digits: string, unit: nat): (int, bool)
    requires unit <= |UNITS|
  {
    (Wrap64(Wrap64(Value(digits)) * Multiplier(unit)), Wrap64(Value(digits)) > 0)
  }

  lemma ParseTrimmedUnit(digits: string, p1: string, unit: nat)
    requires AllSpace(p1) && digits != [] && AllDigits(digits) && unit < |UNITS|
    ensures ParseTrimmed((digits + p1) + UNITS[unit].0) == SizeOf(digits, unit)
  {
    UnitStripped(digits + p1, unit);
    DigitsBeforeUnit(digits, p1, UNITS[unit].0);
    TimesOf((digits + p1) + UNITS[unit].0, digits, UNITS[unit].1);
  }

  lemma UnitStripped(before: string, unit: nat)
    requires unit < |UNITS| && before != [] && !('a' <= before[|before| - 1] <= 'z')
    ensures var t := before + UNITS[unit].0;
      WithoutUnit(t) == (TrimSpace(t[..|t| - |UNITS[unit].0|]), UNITS[unit].1)
  {
    UnitFound(before, unit);
  }

  lemma TimesOf(t: string, digits: string, mult: int)
    requires t != "" && WithoutUnit(t) == (digits, mult) && AllDigits(digits)
    ensures ParseTrimmed(t) == (Wrap64(Wrap64(Value(digits)) * mult), Wrap64(Value(digits)) > 0)
  {
    WrappedValueIsWrapped(digits);
  }

  lemma DigitsBeforeUnit(digits: string, p1: string, unit: string)
    requires AllSpace(p1) && digits != [] && AllDigits(digits)
    ensures var t := (digits + p1) + unit; TrimSpace(t[..|t| - |unit|]) == digits
  {
    var t := (digits + p1) + unit;
    assert t[..|t| - |unit|] == digits + p1 == "" + (digits + p1);
    TrimSpacePad("", digits, p1);
  }

  lemma ParseTrimmedBare(digits: string)
    requires digits != [] && AllDigits(digits)
    ensures ParseTrimmed(digits) == SizeOf(digits, |UNITS|)
  {
    NoUnitFound(digits);
    WrappedValueIsWrapped(digits);
  }

  lemma TrimmedText(p0: string, digits: string, p1: string, low: string, p2: string)
    requires AllSpace(p0) && AllSpace(p1) && AllSpace(p2) && digits != [] && AllDigits(digits)
    requires low == "" || Letters(low)
    ensures TrimSpace(p0 + (digits + (p1 + (low + p2)))) == if low == "" then digits else (digits + p1) + low
  {
    if low == "" {
      assert digits + (p1 + (low + p2)) == digits + (p1 + p2);
      TrimSpacePad(p0, digits, p1 + p2);
    } else {
      var t := (digits + p1) + low;
      assert t[0] == digits[0] && t[|t| - 1] == low[|low| - 1];
      assert digits + (p1 + (low + p2)) == t + p2;
      TrimSpacePad(p0, t, p2);
    }
  }

  lemma ParseSizeOfText(p0: string, digits: string, p1: string, text: string, unit: nat, p2: string)
    requires AllSpace(p0) && AllSpace(p1) && AllSpace(p2)
    requires digits != [] && AllDigits(digits) && IsUnit(text, unit)
    ensures ParseSize(p0 + (digits + (p1 + (text + p2)))) == SizeOf(digits, unit)
  {
    LowerText(p0, digits, p1, text, p2);
    if unit < |UNITS| {
      UnitsAreLetters(unit);
      TrimmedText(p0, digits, p1, UNITS[unit].0, p2);
      ParseTrimmedUnit(digits, p1, unit);
    } else {
      TrimmedText(p0, digits, p1, "", p2);
      ParseTrimmedBare(digits);
    }
  }

  lemma LowerText(p0: string, digits: string, p1: string, text: string, p2: string)
    requires AllSpace(p0) && AllSpace(p1) && AllSpace(p2) && AllDigits(digits)
    ensures ToLower(p0 + (digits + (p1 + (text + p2)))) == p0 + (digits + (p1 + (ToLower(text) + p2)))
  {
    LowerOfConcat(p0, digits + (p1 + (text + p2)));
    LowerOfConcat(digits, p1 + (text + p2));
    LowerOfConcat(p1, text + p2);
    LowerOfConcat(text, p2);
    LowerOfSpaces(p0);
    LowerOfSpaces(p1);
    LowerOfSpaces(p2);
    LowerOfDigits(digits);
  }

  /** The result is the product exactly when the number is positive and the product fits. */
  lemma ParseSizeExactly(p0: string, digits: string, p1: string, text: string, unit: nat, p2: string)
    requires AllSpace(p0) && AllSpace(p1) && AllSpace(p2)
    requires digits != [] && AllDigits(digits) && IsUnit(text, unit)
    ensures ParseSize(p0 + (digits + (p1 + (text + p2)))) == (Value(digits) * Multiplier(unit), true) <==>
            0 < Value(digits) && Value(digits) * Multiplier(unit) < TWO_63
  {
    ParseSizeOfText(p0, digits, p1, text, unit, p2);
    if unit < |UNITS| {
      UnitsAreLetters(unit);
    }
    ProductFits(Value(digits), Multiplier(unit));
  }

  lemma ProductFits(v: int, m: int)
    requires v >= 0 && m >= 1
    ensures (Wrap64(Wrap64(v) * m), Wrap64(v) > 0) == (v * m, true) <==> 0 < v && v * m < TWO_63
  {
    assert v * m == v + v * (m - 1) >= v;
  }

  /** A number too large for 64 bits is not refused: 2^64 + 1, for one, reads as 1. */
  lemma OverflowIsAccepted(n: nat)
    requires n == TWO_64 + 1
    ensures ParseSize(Itoa(n)) == (1, true)
  {
    WrapShift(1, 1);
    assert Wrap64(n) == 1;
    ReadsModulo(n);
  }

  lemma ReadsModulo(n: nat)
    ensures ParseSize(Itoa(n)) == (Wrap64(n), Wrap64(n) > 0)
  {
    ValueOfDigits(n);
    BareNumber(Itoa(n));
  }

  lemma BareNumber(digits: string)
    requires digits != [] && AllDigits(digits)
    ensures ParseSize(digits) == SizeOf(digits, |UNITS|)
  {
    LowerOfDigits(digits);
    TrimSpaceId(digits);
    ParseTrimmedBare(digits);
  }

  // ----- The cap on a response

  function MaxResponseBytes(maxSize: string): (limit: int)
    ensures 0 < limit < TWO_63
  {
    var (n, ok) := ParseSize(maxSize);
    if ok && n > 0 then n else DEFAULT_MAX_RESPONSE_BYTES
  }

  lemma TrimmedStart(t: string)
    requires t == "" || !IsSpace(t[0])
    ensures TrimSpace(t) == "" <==> t == ""
    ensures t != "" ==> TrimSpace(t)[0] == t[0]
  {
    assert TrimLeft(t, IsSpace) == t;
    if t != "" && TrimRight(t, IsSpace) == "" {
      AllTrimmed(t);
    }
  }

  lemma {:induction false} AllTrimmed(t: string)
    requires TrimRight(t, IsSpace) == ""
    ensures AllSpace(t)
  {
    if t != "" {
      AllTrimmed(t[..|t| - 1]);
    }
  }

  /** A text that does not start with a digit is no size, and leaves the default of 64 MiB. */
  lemma NoNumberNoSize(s: string)
    requires var t := TrimSpace(ToLower(s)); t == "" || !IsDigit(t[0])
    ensures ParseSize(s) == (0, false) && MaxResponseBytes(s) == 67_108_864
  {
    var t := TrimSpace(ToLower(s));
    TrimSpaceIsTrimmed(ToLower(s));
    if t != "" {
      NoDigitsFirst(t);
    }
  }

  lemma NoDigitsFirst(t: string)
    requires t != "" && !IsSpace(t[0]) && !IsDigit(t[0])
    ensures ParseTrimmed(t) == (0, false)
  {
    var u := FirstUnit(t, 0);
    if u < |UNITS| {
      TrimmedStart(t[..|t| - |UNITS[u].0|]);
    }
    var (digits, mult) := WithoutUnit(t);
    assert digits == "" || digits[0] == t[0];
    NotDigits(digits, mult);
  }

  lemma NotDigits(digits: string, mult: int)
    requires digits == "" || !IsDigit(digits[0])
    ensures Times(digits, mult) == (0, false)
  {
  }

  /** A configuration can set the largest limit there is. */
  lemma LargestLimitIsReachable()
    ensures MaxResponseBytes(Itoa(TWO_63 - 1)) == TWO_63 - 1
  {
    ReadsModulo(TWO_63 - 1);
  }

  /** `io.ReadAll(io.LimitReader(body, limit + 1))`; the sum wraps around. */
  function ReadLimited<T>(body: seq<T>, limit: int): (r: seq<T>)
    ensures r <= body
  {
    var n := Wrap64(limit + 1);
    if n <= 0 then [] else if |body| <= n then body else body[..n]
  }

  /** What passes the size check is the whole body, except under the largest possible limit. */
  lemma AcceptedBodyIsWhole<T>(body: seq<T>, limit: int)
    requires 0 < limit < TWO_63
    ensures |ReadLimited(body, limit)| <= limit && ReadLimited(body, limit) != body <==> limit == TWO_63 - 1 && body != []
  {
  }
}
