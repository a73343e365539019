/** Python string primitives used by the tolerant parsers: whitespace and
    `strip()`, ASCII digit runs and their values, substring tests, and
    leftmost regular-expression search (`re.search`) stated through a
    match-at-position predicate. */
module Text {
  import opened Common

  /** Python's whitespace: the characters `str.isspace()`, `str.strip()`
      and the regex class `\s` agree on. */
  predicate IsSpace(c: char)
  {
    c == ' ' || ('\U{9}' <= c <= '\U{D}') || ('\U{1C}' <= c <= '\U{1F}')
    || c == '\U{85}' || c == '\U{A0}' || c == '\U{1680}'
    || ('\U{2000}' <= c <= '\U{200A}') || c == '\U{2028}' || c == '\U{2029}'
    || c == '\U{202F}' || c == '\U{205F}' || c == '\U{3000}'
  }

  /** The regex class `\d`, restricted to ASCII digits. */
  predicate IsDigit(c: char)
  {
    '0' <= c <= '9'
  }

  predicate AllDigits(s: string)
  {
    forall i :: 0 <= i < |s| ==> IsDigit(s[i])
  }

  /** Number of whitespace characters at the front of `s`. */
  function LeadingSpaces(s: string): (n: nat)
    ensures n <= |s|
    ensures forall i :: 0 <= i < n ==> IsSpace(s[i])
    ensures AllSpaces(s[..n])
    ensures n == |s| || !IsSpace(s[n])
  {
    if s == [] || !IsSpace(s[0]) then 0 else 1 + LeadingSpaces(s[1..])
  }

  /** Number of whitespace characters at the end of `s`. */
  function TrailingSpaces(s: string): (n: nat)
    ensures n <= |s|
    ensures forall i :: |s| - n <= i < |s| ==> IsSpace(s[i])
    ensures n == |s| || !IsSpace(s[|s| - n - 1])
  {
    if s == [] || !IsSpace(s[|s| - 1]) then 0 else 1 + TrailingSpaces(s[..|s| - 1])
  }

  /** `str.strip()`: `s` without its leading and trailing whitespace. */
  function Strip(s: string): (r: string)
    ensures r == [] || (!IsSpace(r[0]) && !IsSpace(r[|r| - 1]))
    ensures |r| <= |s|
  {
    var t := s[LeadingSpaces(s)..];
    t[..|t| - TrailingSpaces(t)]
  }

  predicate AllSpaces(s: string)
  {
    forall i :: 0 <= i < |s| ==> IsSpace(s[i])
  }

  /** Stripping a string that is all whitespace gives the empty string. */
  lemma {:induction false} StripAllSpaces(s: string)
    requires AllSpaces(s)
    ensures Strip(s) == ""
  {
    assert LeadingSpaces(s) == |s|;
  }

  /** A string without whitespace at either end is its own `strip()`. */
  lemma StripClean(s: string)
    requires s == [] || (!IsSpace(s[0]) && !IsSpace(s[|s| - 1]))
    ensures Strip(s) == s
  {
    assert LeadingSpaces(s) == 0 && TrailingSpaces(s) == 0;
  }

  /** Whitespace `a` in front of text that does not start with whitespace
      is exactly what `LeadingSpaces` counts. */
  lemma {:induction false} LeadingSpacesOf(a: string, b: string)
    requires AllSpaces(a) && (b == [] || !IsSpace(b[0]))
    ensures LeadingSpaces(a + b) == |a|
  {
    if a == [] {
      assert a + b == b;
    } else {
      assert (a + b)[1..] == a[1..] + b;
      LeadingSpacesOf(a[1..], b);
    }
  }

  /** Whitespace `b` after text that does not end with whitespace is
      exactly what `TrailingSpaces` counts. */
  lemma {:induction false} TrailingSpacesOf(a: string, b: string)
    requires AllSpaces(b) && (a == [] || !IsSpace(a[|a| - 1]))
    ensures TrailingSpaces(a + b) == |b|
  {
    if b == [] {
      assert a + b == a;
    } else {
      assert (a + b)[..|a + b| - 1] == a + b[..|b| - 1];
      TrailingSpacesOf(a, b[..|b| - 1]);
    }
  }

  /** `strip()` removes exactly the whitespace around text that neither
      starts nor ends with whitespace. */
  lemma StripPadded(a: string, x: string, b: string)
    requires AllSpaces(a) && AllSpaces(b)
    requires x != [] && !IsSpace(x[0]) && !IsSpace(x[|x| - 1])
    ensures Strip(a + x + b) == x
  {
    LeadingSpacesOf(a, x + b);
    assert a + x + b == a + (x + b);
    assert (a + x + b)[|a|..] == x + b;
    TrailingSpacesOf(x, b);
  }

  /** Length of the run of digits at the front of `s`. */
  function LeadingDigits(s: string): (n: nat)
    ensures n <= |s|
    ensures AllDigits(s[..n])
    ensures n == |s| || !IsDigit(s[n])
  {
    if s == [] || !IsDigit(s[0]) then 0 else 1 + LeadingDigits(s[1..])
  }

  /** Digits `d` in front of text that does not start with a digit are
      exactly what `LeadingDigits` counts. */
  lemma {:induction false} LeadingDigitsOf(d: string, b: string)
    requires AllDigits(d) && (b == [] || !IsDigit(b[0]))
    ensures LeadingDigits(d + b) == |d|
  {
    if d == [] {
      assert d + b == b;
    } else {
      assert (d + b)[1..] == d[1..] + b;
      LeadingDigitsOf(d[1..], b);
    }
  }

  /** The decimal value of a string of digits (`int("0042") == 42`). */
  function DigitsValue(d: string): (v: nat)
    requires AllDigits(d)
  {
    if d == [] then 0 else DigitsValue(d[..|d| - 1]) * 10 + (d[|d| - 1] as int - '0' as int)
  }

  /** The value of the maximal digit run at the front of `s` (what a greedy `\d+` captures). */
  function RunValue(s: string): nat
  {
    DigitsValue(s[..LeadingDigits(s)])
  }

  /** Python's `w in s` for strings. */
  predicate Contains(s: string, w: string)
    decreases |s|
  {
    if |s| < |w| then false else s[..|w|] == w || Contains(s[1..], w)
  }

  /** `Contains` is exactly "occurs at some position". */
  lemma {:induction false} ContainsAt(s: string, w: string, i: nat)
    requires i + |w| <= |s| && s[i..i + |w|] == w
    ensures Contains(s, w)
    decreases i
  {
    if i > 0 {
      assert s[1..][i - 1..i - 1 + |w|] == s[i..i + |w|];
      ContainsAt(s[1..], w, i - 1);
    }
  }

  /** A contained word's first character occurs in the string. */
  lemma {:induction false} ContainsFirstChar(s: string, w: string)
    requires |w| > 0 && Contains(s, w)
    ensures w[0] in s
    decreases |s|
  {
    if s[..|w|] == w {
      assert s[0] == w[0];
    } else {
      ContainsFirstChar(s[1..], w);
      assert s == [s[0]] + s[1..];
    }
  }

  /** A word whose first character does not occur where it could start is not contained. */
  lemma {:induction false} NotContains(s: string, w: string)
    requires |w| > 0
    requires |w| <= |s| ==> w[0] !in s[..|s| - |w| + 1]
    ensures !Contains(s, w)
    decreases |s|
  {
    if |s| >= |w| {
      assert s[0] == s[..|s| - |w| + 1][0];
      if |s| - 1 >= |w| {
        assert s[1..][..|s| - 1 - |w| + 1] == s[..|s| - |w| + 1][1..];
      }
      NotContains(s[1..], w);
    }
  }

  /** A word not found after position `k`, whose first character does not
      occur before `k`, is not contained. */
  lemma {:induction false} NotContainsAfter(s: string, w: string, k: nat)
    requires |w| > 0 && k <= |s|
    requires w[0] !in s[..k] && !Contains(s[k..], w)
    ensures !Contains(s, w)
    decreases k
  {
    if k > 0 {
      assert s[0] == s[..k][0];
      assert s[1..][..k - 1] == s[..k][1..];
      assert s[1..][k - 1..] == s[k..];
      NotContainsAfter(s[1..], w, k - 1);
    }
  }

  /** `s.replace(",", "")`. */
  function RemoveCommas(s: string): (r: string)
    ensures ',' !in r
    ensures |r| <= |s|
  {
    if s == [] then [] else (if s[0] == ',' then [] else [s[0]]) + RemoveCommas(s[1..])
  }

  /** One character at the front: dropped when it is a comma. */
  lemma RemoveCommasCons(c: char, s: string)
    ensures RemoveCommas([c] + s) == (if c == ',' then [] else [c]) + RemoveCommas(s)
  {
    assert ([c] + s)[1..] == s;
  }

  /** Text without commas is left as it is. */
  lemma {:induction false} RemoveNoCommas(s: string)
    requires ',' !in s
    ensures RemoveCommas(s) == s
  {
    if s != [] {
      assert s[0] != ',';
      assert ',' !in s[1..] by { assert forall c :: c in s[1..] ==> c in s; }
      RemoveNoCommas(s[1..]);
    }
  }

  /** `s.lower() == "nan"`. */
  predicate IsNanText(s: string)
  {
    |s| == 3 && (s[0] == 'n' || s[0] == 'N') && (s[1] == 'a' || s[1] == 'A') && (s[2] == 'n' || s[2] == 'N')
  }

  /** The regex `[+-]?\d+(\.\d+)?` matches all of `s`. */
  predicate IsDecimalLiteral(s: string)
  {
    var b := s[SignLength(s)..];
    var k := LeadingDigits(b);
    k > 0 && (k == |b| || (b[k] == '.' && |b| > k + 1 && LeadingDigits(b[k + 1..]) == |b| - k - 1))
  }

  function SignLength(s: string): (n: nat)
    ensures n <= |s|
  {
    if |s| > 0 && (s[0] == '+' || s[0] == '-') then 1 else 0
  }

  /** `int(float(s))` for a decimal literal: the integer part, with its sign
      (Python's `int` truncates toward zero). */
  function DecimalTrunc(s: string): int
    requires IsDecimalLiteral(s)
  {
    var v: int := RunValue(s[SignLength(s)..]);
    if s[0] == '-' then -v else v
  }

  function Pow10(n: nat): (p: nat)
    ensures p >= 1
  {
    if n == 0 then 1 else 10 * Pow10(n - 1)
  }

  /** A string of `n` digits is worth less than 10^n. */
  lemma {:induction false} DigitsValueBound(d: string)
    requires AllDigits(d)
    ensures DigitsValue(d) < Pow10(|d|)
  {
    if d != [] {
      assert AllDigits(d[..|d| - 1]);
      DigitsValueBound(d[..|d| - 1]);
    }
  }

  /** `float(s)` for a decimal literal: sign, integer part and fraction. */
  function DecimalValue(s: string): (x: real)
    requires IsDecimalLiteral(s)
  {
    var b := s[SignLength(s)..];
    var k := LeadingDigits(b);
    var whole := DigitsValue(b[..k]) as real;
    var frac := if k == |b| then 0.0 else FractionValue(b[k + 1..]);
    if s[0] == '-' then -(whole + frac) else whole + frac
  }

  /** The value of the digits after a decimal point, when they are all digits. */
  function FractionValue(d: string): (x: real)
    ensures 0.0 <= x < 1.0
  {
    if AllDigits(d) then
      DigitsValueBound(d);
      Ratio(DigitsValue(d) as real, Pow10(|d|) as real)
    else 0.0
  }

  function Ratio(a: real, b: real): (x: real)
    requires 0.0 <= a < b
    ensures 0.0 <= x < 1.0
  {
    RatioBound(a, b);
    a / b
  }

  /** A quotient of a non-negative number by a larger one lies in [0, 1). */
  lemma RatioBound(a: real, b: real)
    requires 0.0 <= a < b
    ensures 0.0 <= a / b < 1.0
  {
    var x := a / b;
    assert x * b == a;
    ScaleSign(x, b);
  }

  /** Scaling by a positive factor keeps the sign, and keeps a factor of at least one. */
  lemma ScaleSign(x: real, b: real)
    requires b > 0.0
    ensures x < 0.0 ==> x * b < 0.0
    ensures x >= 1.0 ==> x * b >= b
  {
    if x < 0.0 {
      assert (-x) * b > 0.0;
    }
    if x >= 1.0 {
      assert (x - 1.0) * b >= 0.0;
    }
  }

  /** The patterns the parsers look for with `re.search`. */
  datatype Pattern =
    | FourDigits    // `(\d{4})`
    | SignedDigits  // `(-?\d+)`
    | DigitRun      // `(\d+)`
    | Underground   // `지하\s*(\d+)`

  /** Pattern `p` matches `s` starting at position `i`. */
  predicate MatchesAt(p: Pattern, s: string, i: nat)
  {
    match p
    case FourDigits =>
      i + 4 <= |s| && IsDigit(s[i]) && IsDigit(s[i + 1]) && IsDigit(s[i + 2]) && IsDigit(s[i + 3])
    case SignedDigits => i < |s| && (IsDigit(s[i]) || (s[i] == '-' && i + 1 < |s| && IsDigit(s[i + 1])))
    case DigitRun => i < |s| && IsDigit(s[i])
    case Underground =>
      i + 2 <= |s| && s[i] == '지' && s[i + 1] == '하'
      && var t := s[i + 2..]; LeadingSpaces(t) < |t| && IsDigit(t[LeadingSpaces(t)])
  }

  /** `int(m.group(1))` for the match of `p` at `i`; the quantifiers are
      greedy, so a digit run is taken to its end. */
  function Captured(p: Pattern, s: string, i: nat): int
    requires MatchesAt(p, s, i)
  {
    match p
    case FourDigits => DigitsValue(s[i..i + 4])
    case SignedDigits => if s[i] == '-' then -(RunValue(s[i + 1..]) as int) else RunValue(s[i..])
    case DigitRun => RunValue(s[i..])
    case Underground => var t := s[i + 2..]; RunValue(t[LeadingSpaces(t)..])
  }

  /** `i` is where `re.search(p, s)` finds its match: the leftmost position at which `p` matches. */
  predicate IsLeftmostMatch(p: Pattern, s: string, i: nat)
  {
    MatchesAt(p, s, i) && forall j :: 0 <= j < i ==> !MatchesAt(p, s, j)
  }

  /** The first position at or after `from` at which `p` matches. */
  function SearchFrom(p: Pattern, s: string, from: nat): (r: Option<nat>)
    decreases |s| - from
    ensures r.Some? ==> from <= r.value < |s| && MatchesAt(p, s, r.value)
    ensures forall j :: from <= j < |s| && (r.None? || j < r.value) ==> !MatchesAt(p, s, j)
  {
    if from >= |s| then None else if MatchesAt(p, s, from) then Some(from) else SearchFrom(p, s, from + 1)
  }

  /** `re.search(p, s)`: the start of the leftmost match, or None when `p` matches nowhere. */
  function Search(p: Pattern, s: string): (r: Option<nat>)
    ensures r.None? <==> forall i :: 0 <= i < |s| ==> !MatchesAt(p, s, i)
    ensures r.Some? ==> IsLeftmostMatch(p, s, r.value)
  {
    SearchFrom(p, s, 0)
  }

  /** `int(re.search(p, s).group(1))`, or None without a match: the number
      captured at the leftmost match. */
  function SearchInt(p: Pattern, s: string): (r: Option<int>)
    ensures r.None? <==> forall i :: 0 <= i < |s| ==> !MatchesAt(p, s, i)
    ensures r.Some? ==> exists i :: IsLeftmostMatch(p, s, i) && r.value == Captured(p, s, i)
    ensures forall i :: IsLeftmostMatch(p, s, i) ==> r == Some(Captured(p, s, i))
    ensures r.Some? && p != SignedDigits ==> r.value >= 0
  {
    match Search(p, s)
    case None => None
    case Some(k) =>
      assert forall i: nat :: IsLeftmostMatch(p, s, i) ==> i == k by {
        forall i: nat | IsLeftmostMatch(p, s, i) ensures i == k {
          assert !(i < k) && !(k < i);
        }
      }
      Some(Captured(p, s, k))
  }

  /** `re.search(r"(\d+)", s).group(1)` as text, or None: the first digit run of `s`. */
  function FirstDigitRunText(s: string): (r: Option<string>)
    ensures r.Some? ==> |r.value| > 0 && AllDigits(r.value)
    ensures r.None? <==> SearchInt(DigitRun, s).None?
    ensures r.Some? ==> DigitsValue(r.value) == SearchInt(DigitRun, s).value
  {
    match Search(DigitRun, s)
    case None => None
    case Some(i) => Some(s[i..][..LeadingDigits(s[i..])])
  }

  /** The decimal digits of `n` (`str(n)` for a non-negative int). */
  function NatText(n: nat): (d: string)
    ensures |d| > 0 && AllDigits(d) && DigitsValue(d) == n
  {
    var last := ['0' + (n % 10) as char];
    if n < 10 then last
    else
      var d := NatText(n / 10) + last;
      assert d[..|d| - 1] == NatText(n / 10);
      d
  }
}
