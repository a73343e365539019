/** The tolerant field parsers of the building scorer (Code/scoring.py):
    each turns one dirty cell (None, NaN, an int, a float or free text)
    into a number, or None when nothing usable is there. */
module Parsers {
  import opened Common
  import opened Text

  /** A cell value as pandas hands it to `Series.apply`. */
  datatype Raw = Missing | Int(i: int) | Float(x: real) | FloatNaN | Str(s: string)

  /** Python's `int(x)` on a float: truncation toward zero. */
  function Trunc(x: real): (n: int)
    ensures 0.0 <= x ==> n as real <= x < n as real + 1.0
    ensures x < 0.0 ==> n as real - 1.0 < x <= n as real
  {
    if x >= 0.0 then x.Floor else -((-x).Floor)
  }

  function Abs(n: int): nat
  {
    if n < 0 then -n else n
  }

  /** `_parse_year`: a construction year, or None. A number is truncated;
      text that is a decimal literal once commas are removed is read as
      `int(float(...))`; other text gives its first four-digit run. */
  function ParseYear(v: Raw): (r: Option<int>)
    ensures v.Missing? || v.FloatNaN? ==> r.None?
    ensures v.Int? ==> r == Some(v.i)
    ensures v.Float? ==> r == Some(Trunc(v.x))
    ensures v.Str? && Strip(v.s) == "" ==> r.None?
    ensures v.Str? && Strip(v.s) != "" ==>
      var n := RemoveCommas(Strip(v.s));
      r == if IsDecimalLiteral(n) then Some(Trunc(DecimalValue(n))) else SearchInt(FourDigits, Strip(v.s))
  {
    match v
    case Missing => None
    case FloatNaN => None
    case Int(i) => Some(i)
    case Float(x) => Some(Trunc(x))
    case Str(t) =>
      var s := Strip(t);
      var sNum := RemoveCommas(s);
      if s == "" then None
      else if IsDecimalLiteral(sNum) then DecimalTruncIsIntOfFloat(sNum); Some(DecimalTrunc(sNum))
      else SearchInt(FourDigits, s)
  }

  /** `DecimalTrunc` is `int(float(s))`: the float value truncated toward zero. */
  lemma DecimalTruncIsIntOfFloat(s: string)
    requires IsDecimalLiteral(s)
    ensures DecimalTrunc(s) == Trunc(DecimalValue(s))
  {
    var b := s[SignLength(s)..];
    var k := LeadingDigits(b);
    var w := DigitsValue(b[..k]) as real;
    var f := if k == |b| then 0.0 else FractionValue(b[k + 1..]);
    assert (w + f).Floor == w.Floor;
  }

  /** `_parse_floor_count`: a non-negative above-ground floor count, or None.
      The number is read as in `ParseYear`, except that the text fallback is
      the first `-?\d+`; a negative number gives None. */
  function ParseFloorCount(v: Raw): (r: Option<int>)
    ensures r.Some? ==> r.value >= 0
    ensures v.Missing? || v.FloatNaN? ==> r.None?
    ensures v.Int? ==> r == (if v.i >= 0 then Some(v.i) else None)
    ensures v.Float? ==> r == (if Trunc(v.x) >= 0 then Some(Trunc(v.x)) else None)
    ensures v.Str? && Strip(v.s) == "" ==> r.None?
    ensures v.Str? && Strip(v.s) != "" ==>
      var n := RemoveCommas(Strip(v.s));
      var k := if IsDecimalLiteral(n) then Some(Trunc(DecimalValue(n))) else SearchInt(SignedDigits, Strip(v.s));
      r == (if k.Some? && k.value >= 0 then k else None)
  {
    match v
    case Missing => None
    case FloatNaN => None
    case Int(i) => if i >= 0 then Some(i) else None
    case Float(x) => var n := Trunc(x); if n >= 0 then Some(n) else None
    case Str(t) =>
      var s := Strip(t);
      var sNum := RemoveCommas(s);
      if s == "" then None
      else if IsDecimalLiteral(sNum) then
        DecimalTruncIsIntOfFloat(sNum);
        var n := DecimalTrunc(sNum); if n >= 0 then Some(n) else None
      else match SearchInt(SignedDigits, s)
        case None => None
        case Some(n) => if n >= 0 then Some(n) else None
  }

  /** `s` spells `[Bb]\s*(\d+)\s*[Ff]?` in full, with the pieces named:
      the letter, whitespace `sp1`, the digits `d`, whitespace `sp2` and the suffix. */
  predicate BasementShape(s: string, sp1: string, d: string, sp2: string, suffix: string)
  {
    |s| > 0 && (s[0] == 'B' || s[0] == 'b') && s == [s[0]] + (sp1 + (d + (sp2 + suffix)))
    && AllSpaces(sp1) && d != [] && AllDigits(d) && AllSpaces(sp2)
    && (suffix == "" || suffix == "F" || suffix == "f")
  }

  /** `re.fullmatch(r"[Bb]\s*(\d+)\s*[Ff]?", s)` ("B3", "b 3F"), giving the
      captured number: whenever it answers, `s` has that shape and the number
      is the value of its digits (`BasementCodeAcceptsShape` is the converse). */
  function BasementCode(s: string): (r: Option<nat>)
    ensures r.Some? ==> exists sp1, d, sp2, suffix ::
      BasementShape(s, sp1, d, sp2, suffix) && r.value == DigitsValue(d)
  {
    if |s| == 0 || !(s[0] == 'B' || s[0] == 'b') then None
    else
      var u := s[1..];
      var t := u[LeadingSpaces(u)..];
      var w := t[LeadingDigits(t)..];
      var d := t[..LeadingDigits(t)];
      var rest := w[LeadingSpaces(w)..];
      if d != [] && (rest == "" || rest == "F" || rest == "f") then
        Reassemble(s, LeadingSpaces(u), LeadingDigits(t), LeadingSpaces(w));
        assert BasementShape(s, u[..LeadingSpaces(u)], d, w[..LeadingSpaces(w)], rest);
        Some(DigitsValue(d))
      else None
  }

  /** `s` cut after its first character and at three further points is
      the concatenation of the pieces. */
  lemma Reassemble(s: string, k1: nat, k: nat, k2: nat)
    requires 0 < |s| && k1 <= |s[1..]| && k <= |s[1..][k1..]| && k2 <= |s[1..][k1..][k..]|
    ensures var u := s[1..]; var t := u[k1..]; var w := t[k..];
      s == [s[0]] + (u[..k1] + (t[..k] + (w[..k2] + w[k2..])))
  {
    var u := s[1..];
    var t := u[k1..];
    var w := t[k..];
    assert w == w[..k2] + w[k2..];
    assert t == t[..k] + w;
    assert u == u[..k1] + t;
    assert s == [s[0]] + u;
  }

  /** Every string of the shape `[Bb]\s*(\d+)\s*[Ff]?` is read, as its digits. */
  lemma BasementCodeAcceptsShape(s: string, sp1: string, d: string, sp2: string, suffix: string)
    requires BasementShape(s, sp1, d, sp2, suffix)
    ensures BasementCode(s) == Some(DigitsValue(d))
  {
    var u := s[1..];
    assert u == sp1 + (d + (sp2 + suffix));
    LeadingSpacesOf(sp1, d + (sp2 + suffix));
    var t := u[|sp1|..];
    assert t == d + (sp2 + suffix);
    LeadingDigitsOf(d, sp2 + suffix);
    var w := t[|d|..];
    assert w == sp2 + suffix && t[..|d|] == d;
    LeadingSpacesOf(sp2, suffix);
    assert w[|sp2|..] == suffix;
  }

  /** `_parse_basement_floor_count`: the magnitude of a basement depth, or
      None. A number gives its (truncated) magnitude; text is tried as a
      `B` code, then after "지하", then for its first `-?\d+` once commas
      are removed. */
  function ParseBasementFloorCount(v: Raw): (r: Option<int>)
    ensures r.Some? ==> r.value >= 0
    ensures v.Missing? || v.FloatNaN? ==> r.None?
    ensures v.Int? ==> r == Some(Abs(v.i))
    ensures v.Float? ==> r == Some(Abs(Trunc(v.x)))
    ensures v.Str? && Strip(v.s) == "" ==> r.None?
    ensures v.Str? && BasementCode(Strip(v.s)).Some? ==> r == Some(BasementCode(Strip(v.s)).value)
    ensures v.Str? && Strip(v.s) != "" && BasementCode(Strip(v.s)).None? ==>
      var m := SearchInt(SignedDigits, RemoveCommas(Strip(v.s)));
      r == if SearchInt(Underground, Strip(v.s)).Some? then SearchInt(Underground, Strip(v.s))
           else if m.Some? then Some(Abs(m.value)) else None
  {
    match v
    case Missing => None
    case FloatNaN => None
    case Int(i) => Some(Abs(i))
    case Float(x) => Some(Abs(Trunc(x)))
    case Str(t) =>
      var s := Strip(t);
      if s == "" then None
      else if BasementCode(s).Some? then Some(BasementCode(s).value)
      else if SearchInt(Underground, s).Some? then SearchInt(Underground, s)
      else match SearchInt(SignedDigits, RemoveCommas(s))
        case None => None
        case Some(n) => Some(Abs(n))
  }

  /** `_parse_nonneg_int_count`: a non-negative count, or None. In text the
      pattern is `(\d+)`, so a minus sign is skipped rather than rejected;
      "nan" in any case gives None. */
  function ParseNonnegIntCount(v: Raw): (r: Option<int>)
    ensures r.Some? ==> r.value >= 0
    ensures v.Missing? || v.FloatNaN? ==> r.None?
    ensures v.Int? ==> r == (if v.i >= 0 then Some(v.i) else None)
    ensures v.Float? ==> r == (if Trunc(v.x) >= 0 then Some(Trunc(v.x)) else None)
    ensures v.Str? && (Strip(v.s) == "" || IsNanText(Strip(v.s))) ==> r.None?
    ensures v.Str? && Strip(v.s) != "" && !IsNanText(Strip(v.s)) ==>
      r == SearchInt(DigitRun, RemoveCommas(Strip(v.s)))
  {
    match v
    case Missing => None
    case FloatNaN => None
    case Int(i) => if i >= 0 then Some(i) else None
    case Float(x) => var n := Trunc(x); if n >= 0 then Some(n) else None
    case Str(t) =>
      var s := Strip(t);
      if s == "" || IsNanText(s) then None
      else SearchInt(DigitRun, RemoveCommas(s))
  }

  /** `str(n)` for a non-negative `n`, with any whitespace around it, reads
      back as `n` in all four parsers. */
  lemma ParsersReadNatText(n: nat, a: string, b: string)
    requires AllSpaces(a) && AllSpaces(b)
    ensures var v := Str(a + NatText(n) + b);
      ParseYear(v) == Some(n) && ParseFloorCount(v) == Some(n)
      && ParseBasementFloorCount(v) == Some(n) && ParseNonnegIntCount(v) == Some(n)
  {
    StripPadded(a, NatText(n), b);
    YearOfNatText(n, a + NatText(n) + b);
    FloorsOfNatText(n, a + NatText(n) + b);
    BasementOfNatText(n, a + NatText(n) + b);
    CountOfNatText(n, a + NatText(n) + b);
  }

  lemma YearOfNatText(n: nat, t: string)
    requires Strip(t) == NatText(n)
    ensures ParseYear(Str(t)) == Some(n)
  {
    NatTextNoCommas(n);
    NatTextIsDecimal(n);
  }

  lemma FloorsOfNatText(n: nat, t: string)
    requires Strip(t) == NatText(n)
    ensures ParseFloorCount(Str(t)) == Some(n)
  {
    NatTextNoCommas(n);
    NatTextIsDecimal(n);
  }

  lemma BasementOfNatText(n: nat, t: string)
    requires Strip(t) == NatText(n)
    ensures ParseBasementFloorCount(Str(t)) == Some(n)
  {
    NatTextNoCommas(n);
    NatTextRuns(n);
    NatTextNoCode(n);
  }

  lemma CountOfNatText(n: nat, t: string)
    requires Strip(t) == NatText(n)
    ensures ParseNonnegIntCount(Str(t)) == Some(n)
  {
    NatTextNoCommas(n);
    NatTextRuns(n);
    assert !IsNanText(NatText(n));
  }

  lemma NatTextNoCode(n: nat)
    ensures BasementCode(NatText(n)).None?
  {
    assert IsDigit(NatText(n)[0]);
  }

  lemma NatTextNoCommas(n: nat)
    ensures RemoveCommas(NatText(n)) == NatText(n)
  {
    var d := NatText(n);
    assert forall i :: 0 <= i < |d| ==> d[i] != ',';
    RemoveNoCommas(d);
  }

  lemma NatTextAllRun(n: nat)
    ensures LeadingDigits(NatText(n)) == |NatText(n)| && RunValue(NatText(n)) == n
  {
    var d := NatText(n);
    LeadingDigitsOf(d, []);
    assert d + [] == d && d[..|d|] == d;
  }

  lemma NatTextIsDecimal(n: nat)
    ensures IsDecimalLiteral(NatText(n)) && DecimalValue(NatText(n)) == n as real
  {
    var d := NatText(n);
    NatTextAllRun(n);
    assert SignLength(d) == 0 && d[0..] == d && d[..|d|] == d;
  }

  lemma NatTextRuns(n: nat)
    ensures var d := NatText(n);
      SearchInt(Underground, d).None? && SearchInt(SignedDigits, d) == Some(n) && SearchInt(DigitRun, d) == Some(n)
  {
    var d := NatText(n);
    NatTextAllRun(n);
    assert d[0..] == d;
    assert IsLeftmostMatch(SignedDigits, d, 0) && IsLeftmostMatch(DigitRun, d, 0);
    assert forall i :: 0 <= i < |d| ==> !MatchesAt(Underground, d, i);
  }
}
