/** Worked inputs of the tolerant parsers of Code/scoring.py: the spellings
    the code's comments name, each followed to its parsed value. */
module ParserExamples {
  import opened Common
  import opened Text
  import opened Parsers

  /** The basement spellings "B3", "b 3F", "지하3층" and "지하 3" all give depth 3,
      as do the numbers 3 and -3. */
  lemma BasementSpellings()
    ensures ParseBasementFloorCount(Int(3)) == Some(3)
    ensures ParseBasementFloorCount(Int(-3)) == Some(3)
    ensures ParseBasementFloorCount(Str("B3")) == Some(3)
    ensures ParseBasementFloorCount(Str("b 3F")) == Some(3)
    ensures ParseBasementFloorCount(Str("지하3층")) == Some(3)
    ensures ParseBasementFloorCount(Str("지하 3")) == Some(3)
  {
    BasementB3();
    BasementB3F();
    UndergroundDepth();
  }

  lemma BasementB3()
    ensures ParseBasementFloorCount(Str("B3")) == Some(3)
  {
    BasementCodeText("B3", 'B', "", "");
  }

  lemma BasementB3F()
    ensures ParseBasementFloorCount(Str("b 3F")) == Some(3)
  {
    BasementCodeText("b 3F", 'b', " ", "F");
  }

  /** The letter, the whitespace `sp`, the digit 3 and `suffix`: the `B` form, depth 3. */
  lemma BasementCodeText(s: string, c: char, sp: string, suffix: string)
    requires s == [c] + (sp + ("3" + ("" + suffix)))
    requires (c == 'B' || c == 'b') && AllSpaces(sp) && (suffix == "" || suffix == "F")
    ensures ParseBasementFloorCount(Str(s)) == Some(3)
  {
    assert BasementCode(s) == Some(3) by {
      BasementCodeAcceptsShape(s, sp, "3", "", suffix);
      assert DigitsValue("3") == 3 by { assert "3"[..0] == ""; }
    }
    CodeTextEnds(s, c, sp, suffix);
    StripClean(s);
    BasementCodeStep(s, 3);
  }

  /** The first and last characters of such a `B` code text. */
  lemma CodeTextEnds(s: string, c: char, sp: string, suffix: string)
    requires s == [c] + (sp + ("3" + ("" + suffix)))
    requires (c == 'B' || c == 'b') && (suffix == "" || suffix == "F")
    ensures s != [] && s[0] == c && !IsSpace(s[0]) && !IsSpace(s[|s| - 1])
  {
    var rest := "3" + suffix;
    assert s == ([c] + sp) + rest;
    assert s[|s| - 1] == rest[|rest| - 1];
    assert rest[|rest| - 1] == '3' || rest[|rest| - 1] == 'F';
  }

  /** Text that is a `B` code for `n` gives `n`. */
  lemma BasementCodeStep(t: string, n: nat)
    requires Strip(t) == t && BasementCode(t) == Some(n)
    ensures ParseBasementFloorCount(Str(t)) == Some(n)
  {
  }

  /** Text assembled from pieces is the literal it spells. */
  lemma SpelledAs(pieces: string, literal: string)
    requires pieces == literal
    ensures ParseBasementFloorCount(Str(pieces)) == ParseBasementFloorCount(Str(literal))
  {
  }

  /** "지하3층" and "지하 3" give depth 3 through the `지하\s*(\d+)` search. */
  lemma UndergroundDepth()
    ensures ParseBasementFloorCount(Str("지하3층")) == Some(3)
    ensures ParseBasementFloorCount(Str("지하 3")) == Some(3)
  {
    UndergroundNoSpace();
    UndergroundSpace();
  }

  lemma UndergroundNoSpace()
    ensures ParseBasementFloorCount(Str("지하3층")) == Some(3)
  {
    UndergroundText("", "층");
    SpelledAs("지하" + ("" + ("3" + "층")), "지하3층");
  }

  lemma UndergroundSpace()
    ensures ParseBasementFloorCount(Str("지하 3")) == Some(3)
  {
    UndergroundText(" ", "");
    SpelledAs("지하" + (" " + ("3" + "")), "지하 3");
  }

  /** "지하", whitespace `sp`, the digit 3 and a `tail` that starts with no
      digit: not the `B` form, and the `지하` search reads 3. */
  lemma UndergroundText(sp: string, tail: string)
    requires AllSpaces(sp)
    requires tail == [] || (!IsDigit(tail[0]) && !IsSpace(tail[|tail| - 1]))
    ensures ParseBasementFloorCount(Str("지하" + (sp + ("3" + tail)))) == Some(3)
  {
    var s := "지하" + (sp + ("3" + tail));
    StripClean(s);
    assert BasementCode(s).None? by { assert s[0] == '지'; }
    UndergroundRun(sp, tail);
    UndergroundStep(s, 3);
  }

  lemma UndergroundRun(sp: string, tail: string)
    requires AllSpaces(sp)
    requires tail == [] || !IsDigit(tail[0])
    ensures SearchInt(Underground, "지하" + (sp + ("3" + tail))) == Some(3)
  {
    var s := "지하" + (sp + ("3" + tail));
    var t := s[2..];
    assert t == sp + ("3" + tail);
    LeadingSpacesOf(sp, "3" + tail);
    assert t[|sp|..] == "3" + tail;
    LeadingDigitsOf("3", tail);
    assert ("3" + tail)[..1] == "3";
    assert DigitsValue("3") == 3 by { assert "3"[..0] == ""; }
    assert IsLeftmostMatch(Underground, s, 0);
  }

  /** Text that is no `B` code and whose `지하` search finds `n` gives `n`. */
  lemma UndergroundStep(t: string, n: int)
    requires Strip(t) == t && t != "" && BasementCode(t).None? && SearchInt(Underground, t) == Some(n)
    ensures ParseBasementFloorCount(Str(t)) == Some(n)
  {
  }

  /** A date string gives the year in front of it: "1985-01-01" is 1985. */
  lemma YearOfDate()
    ensures ParseYear(Str("1985-01-01")) == Some(1985)
  {
    assert "1985-01-01" == "1985" + "-01-01";
    YearLeadsText("1985", "-01-01");
    Value1985();
  }

  /** Text made of four digits followed by something that is neither a digit
      nor a decimal point (and holds no comma) is no number: its year is its
      leading four digits. */
  lemma YearLeadsText(y: string, rest: string)
    requires |y| == 4 && AllDigits(y)
    requires rest != [] && rest[0] != '.' && !IsDigit(rest[0]) && ',' !in rest && !IsSpace(rest[|rest| - 1])
    ensures ParseYear(Str(y + rest)) == Some(DigitsValue(y))
  {
    LeadsClean(y, rest);
    LeadsNoDecimal(y, rest);
    LeadsYearRun(y, rest);
    YearRunStep(y + rest, DigitsValue(y));
  }

  lemma LeadsClean(y: string, rest: string)
    requires |y| == 4 && AllDigits(y)
    requires rest != [] && ',' !in rest && !IsSpace(rest[|rest| - 1])
    ensures Strip(y + rest) == y + rest && RemoveCommas(y + rest) == y + rest
  {
    var s := y + rest;
    StripClean(s);
    assert ',' !in s by {
      assert forall i :: 0 <= i < |y| ==> y[i] != ',';
    }
    RemoveNoCommas(s);
  }

  lemma LeadsNoDecimal(y: string, rest: string)
    requires |y| == 4 && AllDigits(y)
    requires rest != [] && rest[0] != '.' && !IsDigit(rest[0])
    ensures !IsDecimalLiteral(y + rest)
  {
    var s := y + rest;
    LeadingDigitsOf(y, rest);
    assert SignLength(s) == 0 && s[0..] == s;
  }

  lemma LeadsYearRun(y: string, rest: string)
    requires |y| == 4 && AllDigits(y)
    ensures SearchInt(FourDigits, y + rest) == Some(DigitsValue(y))
  {
    var s := y + rest;
    assert s[0..4] == y;
    assert IsLeftmostMatch(FourDigits, s, 0);
  }

  /** Text that is no decimal literal and whose four-digit search finds `y` gives `y`. */
  lemma YearRunStep(t: string, y: int)
    requires Strip(t) == t && t != "" && !IsDecimalLiteral(RemoveCommas(t))
    requires SearchInt(FourDigits, t) == Some(y)
    ensures ParseYear(Str(t)) == Some(y)
  {
  }

  lemma Value1985()
    ensures DigitsValue("1985") == 1985
  {
    assert "1985"[..3] == "198" && "198"[..2] == "19" && "19"[..1] == "1" && "1"[..0] == "";
  }

  /** A comma-grouped decimal gives its integer part: "1,985.0" is 1985. */
  lemma YearOfGroupedDecimal()
    ensures ParseYear(Str("1,985.0")) == Some(1985)
  {
    assert Strip("1,985.0") == "1,985.0" by { StripClean("1,985.0"); }
    GroupedCommas();
    GroupedDecimal("1985.0");
    YearDecimalStep("1,985.0", "1985.0", 1985);
  }

  /** Text that is a decimal literal `n` once commas are removed gives the integer part of `n`. */
  lemma YearDecimalStep(t: string, n: string, y: int)
    requires Strip(t) == t && t != "" && RemoveCommas(t) == n && IsDecimalLiteral(n) && DecimalTrunc(n) == y
    ensures ParseYear(Str(t)) == Some(y)
  {
    DecimalTruncIsIntOfFloat(n);
  }

  lemma GroupedCommas()
    ensures RemoveCommas("1,985.0") == "1985.0"
  {
    CommaTail();
    assert "1,985.0" == ['1'] + ",985.0";
    RemoveCommasCons('1', ",985.0");
    var n := "1985.0";
    assert n[1..] == "985.0";
    assert n == [n[0]] + n[1..];
  }

  lemma CommaTail()
    ensures RemoveCommas(",985.0") == "985.0"
  {
    assert ",985.0" == [','] + "985.0";
    RemoveCommasCons(',', "985.0");
    RemoveNoCommas("985.0");
  }

  /** "1985.0" is a decimal literal whose integer part is 1985. */
  lemma GroupedDecimal(n: string)
    requires n == "1985.0"
    ensures IsDecimalLiteral(n) && DecimalTrunc(n) == 1985
  {
    assert n == "1985" + ".0";
    LeadingDigitsOf("1985", ".0");
    assert n[5..] == "0" + [];
    LeadingDigitsOf("0", []);
    assert SignLength(n) == 0 && n[0..] == n && n[..4] == "1985";
    Value1985();
  }

  /** "지상 12층" gives 12 above-ground floors. */
  lemma FloorsOfText()
    ensures ParseFloorCount(Str("지상 12층")) == Some(12)
  {
    FloorsText("지상 12층");
  }

  lemma FloorsText(s: string)
    requires s == "지상 12층"
    ensures ParseFloorCount(Str(s)) == Some(12)
  {
    Clean(s);
    assert !IsDecimalLiteral(s) by {
      assert SignLength(s) == 0 && LeadingDigits(s) == 0;
    }
    FloorsRun(s);
    FloorsRunStep(s, 12);
  }

  /** The first `-?\d+` of "지상 12층" is 12, at position 3. */
  lemma FloorsRun(s: string)
    requires s == "지상 12층"
    ensures SearchInt(SignedDigits, s) == Some(12)
  {
    assert !MatchesAt(SignedDigits, s, 0) && !MatchesAt(SignedDigits, s, 1) && !MatchesAt(SignedDigits, s, 2);
    assert MatchesAt(SignedDigits, s, 3);
    assert SearchFrom(SignedDigits, s, 2) == Some(3);
    assert SearchFrom(SignedDigits, s, 1) == Some(3);
    assert SearchFrom(SignedDigits, s, 0) == Some(3);
    assert Captured(SignedDigits, s, 3) == 12 by {
      assert s[3..] == "12" + "층";
      LeadingDigitsOf("12", "층");
      assert ("12" + "층")[..2] == "12";
      assert DigitsValue("12") == 12 by { assert "12"[..1] == "1" && "1"[..0] == ""; }
    }
  }

  /** Text that is no decimal literal and whose first `-?\d+` is `n >= 0` gives `n`. */
  lemma FloorsRunStep(t: string, n: int)
    requires Strip(t) == t && t != "" && !IsDecimalLiteral(RemoveCommas(t))
    requires SearchInt(SignedDigits, t) == Some(n) && n >= 0
    ensures ParseFloorCount(Str(t)) == Some(n)
  {
  }

  /** Text without whitespace at its ends and without commas is left alone
      by `strip()` and by removing commas. */
  lemma Clean(s: string)
    requires s != [] && !IsSpace(s[0]) && !IsSpace(s[|s| - 1]) && ',' !in s
    ensures Strip(s) == s && RemoveCommas(s) == s
  {
    StripClean(s);
    RemoveNoCommas(s);
  }

  /** The elevator count pattern is `(\d+)`, so "-3" counts 3 elevators. */
  lemma CountIgnoresMinus()
    ensures ParseNonnegIntCount(Str("-3")) == Some(3)
  {
    CountText("-3");
  }

  lemma CountText(s: string)
    requires s == "-3"
    ensures ParseNonnegIntCount(Str(s)) == Some(3)
  {
    StripClean(s);
    RemoveNoCommas(s);
    assert !MatchesAt(DigitRun, s, 0) && MatchesAt(DigitRun, s, 1);
    assert SearchFrom(DigitRun, s, 0) == Some(1);
    assert s[1..] == "3" && LeadingDigits("3") == 1 && "3"[..1] == "3";
    assert DigitsValue("3") == 3 by { assert "3"[..0] == ""; }
  }

  /** Blank text, like a missing cell, parses to nothing. */
  lemma BlankParsesToNothing(t: string)
    requires AllSpaces(t)
    ensures ParseYear(Str(t)) == None && ParseFloorCount(Str(t)) == None
    ensures ParseBasementFloorCount(Str(t)) == None && ParseNonnegIntCount(Str(t)) == None
  {
    StripAllSpaces(t);
  }
}
