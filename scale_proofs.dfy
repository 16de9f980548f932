/** What `trimZeros` writes and what `scaleIngredientLine` makes of a line:
    blank and number-free lines pass through, a number or a range is
    rewritten scaled, and a rendered number reads back as its value rounded
    to hundredths. */
module ScaleProofs {
  import opened Common
  import opened Text
  import opened Quantity
  import opened QuantityProofs
  import opened RangeProofs
  import opened ScaleLines

  // ---------------------------------------------------------------------
  // trimZeros

  /** On a two-decimal string `w.d1d2` the trailing-zero pattern removes
      `.00` entirely, a final `0` after a non-zero first decimal, and
      nothing else; the digits of the whole part are never touched. */
  lemma TrimZerosFixed(w: string, d1: char, d2: char)
    requires Numeral(w) && IsDigit(d1) && IsDigit(d2)
    ensures TrimZeros(w + "." + [d1, d2])
      == if d1 == '0' && d2 == '0' then w
         else if d2 == '0' then w + "." + [d1]
         else w + "." + [d1, d2]
  {
    var s := w + "." + [d1, d2];
    var n := |s|;
    var z := TrailingZeros(s);
    assert s[n - 1] == d2 && s[n - 2] == d1 && s[n - 3] == '.';
    if d2 != '0' {
      assert z == 0;
    } else if d1 != '0' {
      assert z == 1;
      assert s[..n - 1] == w + "." + [d1];
    } else {
      assert z == 2;
      assert s[..n - 3] == w;
    }
  }

  /** The examples of the helper's contract: `100.00`, `1.50`, `1.05`. */
  lemma TrimZerosExamples()
    ensures TrimZeros("100.00") == "100"
    ensures TrimZeros("1.50") == "1.5"
    ensures TrimZeros("1.05") == "1.05"
  {
    TrimZerosFixed("100", '0', '0');
    assert "100" + "." + ['0', '0'] == "100.00";
    TrimZerosFixed("1", '5', '0');
    assert "1" + "." + ['5', '0'] == "1.50" && "1" + "." + ['5'] == "1.5";
    TrimZerosFixed("1", '0', '5');
    assert "1" + "." + ['0', '5'] == "1.05";
  }

  // ---------------------------------------------------------------------
  // Writing a scaled number

  /** The numeral `trimZeros` writes for a non-negative `x`: the whole
      hundreds of its cents, then as many of the two decimals as are not
      trailing zeros. */
  function FormatToken(x: real): Token
    requires x >= 0.0
  {
    var n := Cents(x);
    var c := n % 100;
    var w := NatToString(n / 100);
    if c == 0 then Decimal(w, "")
    else if c % 10 == 0 then Decimal(w, [DigitChar(c / 10)])
    else Decimal(w, [DigitChar(c / 10), DigitChar(c % 10)])
  }

  /** A non-negative number is written as a canonical decimal numeral whose
      value is the number in whole hundredths. */
  lemma FormatIsToken(x: real)
    requires x >= 0.0
    ensures ValidToken(FormatToken(x))
    ensures Format(x) == Render(FormatToken(x))
    ensures Amount(FormatToken(x)) * 100.0 == Cents(x) as real
  {
    var n := Cents(x);
    var c := n % 100;
    var w := NatToString(n / 100);
    var d1, d2 := DigitChar(c / 10), DigitChar(c % 10);
    assert Fixed2(x) == w + "." + [d1, d2];
    TrimZerosFixed(w, d1, d2);
    NatToStringValue(n / 100);
    assert DigitsValue([d1]) == c / 10 by {
      assert [d1][..0] == [];
    }
    assert DigitsValue([d1, d2]) == c by {
      assert [d1, d2][..1] == [d1];
    }
    assert Pow10(2) == 100;
  }

  /** Reading back what `trimZeros` writes for a non-negative number gives
      the number to within half a hundredth, and the whole text is the
      numeral. */
  lemma FormatReadsBack(x: real)
    requires x >= 0.0
    ensures ParseLeadingQuantity(Format(x)).Some?
    ensures ParseLeadingQuantity(Format(x)).value.length == |Format(x)|
    ensures x - 0.005 < ParseLeadingQuantity(Format(x)).value.value <= x + 0.005
  {
    var t := FormatToken(x);
    FormatIsToken(x);
    ParseQuantityRoundTrip("", t, "");
    assert "" + (Render(t) + "") == Format(x);
  }

  /** A whole number is written with its digits and nothing after them. */
  lemma FormatWhole(n: nat)
    ensures Format(n as real) == NatToString(n)
  {
    var x := n as real;
    var m := 100 * n;
    assert x * 100.0 == m as real;
    var k := Cents(x);
    assert k == m;
    assert k / 100 == n && k % 100 == 0;
    assert Fixed2(x) == NatToString(n) + "." + ['0', '0'];
    TrimZerosFixed(NatToString(n), '0', '0');
  }

  // ---------------------------------------------------------------------
  // Scaling a line

  /** After its numeral, the line does not go on (past white space) with a
      dash. */
  predicate NoDashNext(rest: string) {
    TrimStart(rest) == [] || !IsDash(TrimStart(rest)[0])
  }

  lemma NoDashAt(s: string, e: nat)
    requires e <= |s| && NoDashNext(s[e..])
    ensures DashEnd(s, e).None?
  {
    SpaceRunTrimStart(s, e);
    var k := e + SpaceRun(s, e);
    if k < |s| {
      assert TrimStart(s[e..])[0] == s[k];
    }
  }

  /** A numeral that no dash follows does not start a range, whichever
      alternative of the token pattern is tried. */
  lemma NoRange(s: string, pad: nat, t: Token, rest: string, correctSecond: bool)
    requires ValidToken(t) && Separates(rest) && NoDashNext(rest) && s == Render(t) + rest
    ensures RangeIn(s, pad, correctSecond).None?
  {
    Placed(t, rest);
    TokenEnds(s, 0, t);
    assert s[|Render(t)|..] == rest;
    NoDashAt(s, |Render(t)|);
    if t.Fraction? {
      NoDashAfterNumerator(s, t.num, t.den);
    }
  }

  /** A numeral ends with a digit. */
  lemma RenderEnds(t: Token)
    requires ValidToken(t)
    ensures |Render(t)| > 0 && IsDigit(Render(t)[|Render(t)| - 1])
  {
  }

  /** A text that starts with a digit and does not end in white space is
      what trimming it after white space gives, and `trimStart` keeps it. */
  lemma LineTrimmed(pad: string, x: string)
    requires AllSpaces(pad) && StartsWithDigit(x) && !IsSpace(x[|x| - 1])
    ensures Trim(pad + x) == x && TrimStart(x) == x
  {
    TrimAfterSpaces(pad, x);
  }

  /** `u + v` ends where `v` does, or where `u` does when `v` is empty. */
  lemma LastOf(u: string, v: string)
    requires |u| > 0 && (v == [] || !IsSpace(v[|v| - 1])) && !IsSpace(u[|u| - 1])
    ensures !IsSpace((u + v)[|u + v| - 1])
  {
  }

  /** A line holding, after white space, one numeral that does not read as
      a fraction over zero, then text that separates it and no dash, is
      written as the scaled number, one space and the remainder without its
      leading white space; either range pattern leaves it alone. */
  lemma ScaleQuantityLine(pad: string, t: Token, rest: string, factor: real)
    requires AllSpaces(pad) && ValidToken(t) && NonZeroDen(t) && Separates(rest) && NoDashNext(rest)
    requires rest == [] || !IsSpace(rest[|rest| - 1])
    ensures ScaleIngredientLine(pad + (Render(t) + rest), factor)
      == Trim(Format(Scale(Amount(t), factor)) + " " + TrimStart(rest))
    ensures ScaleIngredientLineAsWritten(pad + (Render(t) + rest), factor)
      == Trim(Format(Scale(Amount(t), factor)) + " " + TrimStart(rest))
  {
    ScaleQuantityLineAt(pad + (Render(t) + rest), pad, t, rest, factor);
    ScaleQuantityLineAsWrittenAt(pad + (Render(t) + rest), pad, t, rest, factor);
  }

  lemma ScaleQuantityLineAt(line: string, pad: string, t: Token, rest: string, factor: real)
    requires line == pad + (Render(t) + rest)
    requires AllSpaces(pad) && ValidToken(t) && NonZeroDen(t) && Separates(rest) && NoDashNext(rest)
    requires rest == [] || !IsSpace(rest[|rest| - 1])
    ensures ScaleIngredientLine(line, factor) == Trim(Format(Scale(Amount(t), factor)) + " " + TrimStart(rest))
  {
    QuantityLineFacts(line, pad, t, rest);
    assert QuantityLine(line, Render(t) + rest, Amount(t), |Render(t)|, rest);
    ScaledQuantity(line, t, rest, factor);
  }

  lemma ScaledQuantity(line: string, t: Token, rest: string, factor: real)
    requires QuantityLine(line, Render(t) + rest, Amount(t), |Render(t)|, rest)
    ensures ScaleIngredientLine(line, factor) == Trim(Format(Scale(Amount(t), factor)) + " " + TrimStart(rest))
  {
    ScaleQuantityLineIs(line, factor, Render(t) + rest, Amount(t), |Render(t)|, rest);
  }

  lemma ScaleQuantityLineAsWrittenAt(line: string, pad: string, t: Token, rest: string, factor: real)
    requires line == pad + (Render(t) + rest)
    requires AllSpaces(pad) && ValidToken(t) && NonZeroDen(t) && Separates(rest) && NoDashNext(rest)
    requires rest == [] || !IsSpace(rest[|rest| - 1])
    ensures ScaleIngredientLineAsWritten(line, factor) == Trim(Format(Scale(Amount(t), factor)) + " " + TrimStart(rest))
  {
    QuantityLineFacts(line, pad, t, rest);
    assert QuantityLine(line, Render(t) + rest, Amount(t), |Render(t)|, rest);
    ScaledQuantityAsWritten(line, t, rest, factor);
  }

  lemma ScaledQuantityAsWritten(line: string, t: Token, rest: string, factor: real)
    requires QuantityLine(line, Render(t) + rest, Amount(t), |Render(t)|, rest)
    ensures ScaleIngredientLineAsWritten(line, factor) == Trim(Format(Scale(Amount(t), factor)) + " " + TrimStart(rest))
  {
    ScaleQuantityLineAsWrittenIs(line, factor, Render(t) + rest, Amount(t), |Render(t)|, rest);
  }

  /** What the scaling of a single-numeral line needs to know of it. */
  lemma QuantityLineFacts(line: string, pad: string, t: Token, rest: string)
    requires line == pad + (Render(t) + rest)
    requires AllSpaces(pad) && ValidToken(t) && NonZeroDen(t) && Separates(rest) && NoDashNext(rest)
    requires rest == [] || !IsSpace(rest[|rest| - 1])
    ensures QuantityLine(line, Render(t) + rest, Amount(t), |Render(t)|, rest)
  {
    var x := Render(t) + rest;
    QuantityLineTrimmed(line, pad, t, rest);
    NoRange(x, 0, t, rest, true);
    NoRange(x, 0, t, rest, false);
    QuantityReadBack(t, rest);
    QuantityOfTrimmed(line, x, Amount(t), |Render(t)|, rest);
  }

  lemma QuantityOfTrimmed(line: string, x: string, v: real, len: nat, rest: string)
    requires Trim(line) == x && len <= |x| && x[len..] == rest
    requires ParseLeadingQuantity(x).Some? && ParseLeadingQuantity(x).value.value == v
    requires ParseLeadingQuantity(x).value.length == len
    requires ParseLeadingRange(x).None? && ParseLeadingRangeAsWritten(x).None?
    ensures QuantityLine(line, x, v, len, rest)
  {
  }

  lemma QuantityLineTrimmed(line: string, pad: string, t: Token, rest: string)
    requires line == pad + (Render(t) + rest)
    requires AllSpaces(pad) && ValidToken(t) && Separates(rest)
    requires rest == [] || !IsSpace(rest[|rest| - 1])
    ensures Trim(line) == Render(t) + rest
    ensures TrimStart(Render(t) + rest) == Render(t) + rest
  {
    QuantityEnds(t, rest);
    LineTrimmed(pad, Render(t) + rest);
  }

  /** A numeral with text after it starts with a digit and ends where the
      text does, or with the numeral's last digit. */
  lemma QuantityEnds(t: Token, rest: string)
    requires ValidToken(t) && Separates(rest)
    requires rest == [] || !IsSpace(rest[|rest| - 1])
    ensures StartsWithDigit(Render(t) + rest) && !IsSpace((Render(t) + rest)[|Render(t) + rest| - 1])
  {
    Placed(t, rest);
    RenderEnds(t);
    LastOf(Render(t), rest);
  }

  /** `parseLeadingQuantity` of a numeral that is not a fraction over zero,
      with the text after it. */
  lemma QuantityReadBack(t: Token, rest: string)
    requires ValidToken(t) && NonZeroDen(t) && Separates(rest)
    ensures ParseLeadingQuantity(Render(t) + rest).Some?
    ensures ParseLeadingQuantity(Render(t) + rest).value.value == Amount(t)
    ensures ParseLeadingQuantity(Render(t) + rest).value.length == |Render(t)|
  {
    ParseQuantityRoundTrip("", t, rest);
    assert "" + (Render(t) + rest) == Render(t) + rest;
  }

  /** A line holding, after white space, a range of two numerals and then
      text that separates the second is written, with the corrected range
      pattern, as both scaled values around an en dash, one space and the
      remainder without its leading white space. */
  lemma ScaleRangeLine(pad: string, t1: Token, sp1: string, dash: char, sp2: string, t2: Token, rest: string,
                       factor: real)
    requires AllSpaces(pad) && RangeParts(t1, sp1, dash, sp2, t2, rest)
    requires rest == [] || !IsSpace(rest[|rest| - 1])
    ensures ScaleIngredientLine(pad + RangeText(t1, sp1, dash, sp2, t2, rest), factor)
      == Trim(Format(Scale(Amount(t1), factor)) + "\U{2013}" + Format(Scale(Amount(t2), factor)) + " " + TrimStart(rest))
  {
    ScaleRangeLineAt(pad + RangeText(t1, sp1, dash, sp2, t2, rest), pad, t1, sp1, dash, sp2, t2, rest, factor);
  }

  lemma ScaleRangeLineAt(line: string, pad: string, t1: Token, sp1: string, dash: char, sp2: string, t2: Token,
                         rest: string, factor: real)
    requires line == pad + RangeText(t1, sp1, dash, sp2, t2, rest)
    requires AllSpaces(pad) && RangeParts(t1, sp1, dash, sp2, t2, rest)
    requires rest == [] || !IsSpace(rest[|rest| - 1])
    ensures ScaleIngredientLine(line, factor)
      == Trim(Format(Scale(Amount(t1), factor)) + "\U{2013}" + Format(Scale(Amount(t2), factor)) + " " + TrimStart(rest))
  {
    var len := RangeLineFacts(line, pad, t1, sp1, dash, sp2, t2, rest);
    var x := RangeText(t1, sp1, dash, sp2, t2, rest);
    assert RangeLine(line, x, ParseLeadingRange(Trim(line)), Amount(t1), Amount(t2), len, rest);
    ScaledRange(line, x, t1, t2, len, rest, factor);
  }

  lemma ScaledRange(line: string, x: string, t1: Token, t2: Token, len: nat, rest: string, factor: real)
    requires RangeLine(line, x, ParseLeadingRange(Trim(line)), Amount(t1), Amount(t2), len, rest)
    ensures ScaleIngredientLine(line, factor)
      == Trim(Format(Scale(Amount(t1), factor)) + "\U{2013}" + Format(Scale(Amount(t2), factor)) + " " + TrimStart(rest))
  {
    ScaleRangeLineIs(line, factor, x, Amount(t1), Amount(t2), len, rest);
  }

  /** What the scaling of a range line needs to know of it. */
  lemma RangeLineFacts(line: string, pad: string, t1: Token, sp1: string, dash: char, sp2: string, t2: Token,
                       rest: string)
      returns (len: nat)
    requires line == pad + RangeText(t1, sp1, dash, sp2, t2, rest)
    requires AllSpaces(pad) && RangeParts(t1, sp1, dash, sp2, t2, rest)
    requires rest == [] || !IsSpace(rest[|rest| - 1])
    ensures RangeLine(line, RangeText(t1, sp1, dash, sp2, t2, rest), ParseLeadingRange(Trim(line)),
                      Amount(t1), Amount(t2), len, rest)
  {
    len := RangeTextFacts(t1, sp1, dash, sp2, t2, rest);
    RangeTrimmed(line, pad, t1, sp1, dash, sp2, t2, rest);
    RangeOfTrimmed(line, RangeText(t1, sp1, dash, sp2, t2, rest), Amount(t1), Amount(t2), len, rest);
  }

  /** The corrected range pattern reads `a` and `b` from the front of `x`,
      over its first `len` characters. */
  predicate ReadsRange(x: string, a: real, b: real, len: nat) {
    var r := ParseLeadingRange(x);
    r.Some? && r.value.a == a && r.value.b == b && r.value.length == len
  }

  /** The corrected range pattern reads a range text up to its remainder. */
  lemma RangeTextFacts(t1: Token, sp1: string, dash: char, sp2: string, t2: Token, rest: string)
      returns (len: nat)
    requires RangeParts(t1, sp1, dash, sp2, t2, rest)
    ensures len <= |RangeText(t1, sp1, dash, sp2, t2, rest)|
    ensures RangeText(t1, sp1, dash, sp2, t2, rest)[len..] == rest
    ensures ReadsRange(RangeText(t1, sp1, dash, sp2, t2, rest), Amount(t1), Amount(t2), len)
  {
    len := |Render(t1)| + |sp1| + 1 + |sp2| + |Render(t2)|;
    RangeReadBack(t1, sp1, dash, sp2, t2, rest);
    RangeRest(t1, sp1, dash, sp2, t2, rest);
  }

  /** A range text ends with its remainder. */
  lemma RangeRest(t1: Token, sp1: string, dash: char, sp2: string, t2: Token, rest: string)
    ensures |Render(t1)| + |sp1| + 1 + |sp2| + |Render(t2)| <= |RangeText(t1, sp1, dash, sp2, t2, rest)|
    ensures RangeText(t1, sp1, dash, sp2, t2, rest)[|Render(t1)| + |sp1| + 1 + |sp2| + |Render(t2)|..] == rest
  {
    RestAfter(Render(t1), sp1, dash, sp2, Render(t2), rest);
  }

  /** The remainder of a range text, on its pieces as plain strings. */
  lemma RestAfter(a: string, sp1: string, dash: char, sp2: string, b: string, rest: string)
    ensures |a| + |sp1| + 1 + |sp2| + |b| <= |a + (sp1 + ([dash] + (sp2 + (b + rest))))|
    ensures (a + (sp1 + ([dash] + (sp2 + (b + rest)))))[|a| + |sp1| + 1 + |sp2| + |b|..] == rest
  {
    var q := |a| + |sp1| + 1 + |sp2|;
    SecondPlaced(a + (sp1 + ([dash] + (sp2 + (b + rest)))), q, a, sp1, dash, sp2, b, rest);
  }

  lemma RangeOfTrimmed(line: string, x: string, a: real, b: real, len: nat, rest: string)
    requires Trim(line) == x && x != [] && len <= |x| && x[len..] == rest
    requires ReadsRange(x, a, b, len)
    ensures RangeLine(line, x, ParseLeadingRange(Trim(line)), a, b, len, rest)
  {
  }

  /** The corrected `parseLeadingRange` of a range text, end by end. */
  lemma RangeReadBack(t1: Token, sp1: string, dash: char, sp2: string, t2: Token, rest: string)
    requires RangeParts(t1, sp1, dash, sp2, t2, rest)
    ensures ReadsRange(RangeText(t1, sp1, dash, sp2, t2, rest), Amount(t1), Amount(t2),
                       |Render(t1)| + |sp1| + 1 + |sp2| + |Render(t2)|)
  {
    var x := RangeText(t1, sp1, dash, sp2, t2, rest);
    ParseRangeRoundTrip("", t1, sp1, dash, sp2, t2, rest);
    assert "" + x == x;
    RangeReadingCorrected(t1, t2, |Render(t1)| + |sp1| + 1 + |sp2|, 0);
  }

  lemma RangeTrimmed(line: string, pad: string, t1: Token, sp1: string, dash: char, sp2: string, t2: Token,
                     rest: string)
    requires line == pad + RangeText(t1, sp1, dash, sp2, t2, rest)
    requires AllSpaces(pad) && RangeParts(t1, sp1, dash, sp2, t2, rest)
    requires rest == [] || !IsSpace(rest[|rest| - 1])
    ensures Trim(line) == RangeText(t1, sp1, dash, sp2, t2, rest)
    ensures StartsWithDigit(RangeText(t1, sp1, dash, sp2, t2, rest))
  {
    RangeEnds(t1, sp1, dash, sp2, t2, rest);
    LineTrimmed(pad, RangeText(t1, sp1, dash, sp2, t2, rest));
  }

  /** A range text starts with a digit and ends where its remainder does,
      or with the last digit of its second numeral. */
  lemma RangeEnds(t1: Token, sp1: string, dash: char, sp2: string, t2: Token, rest: string)
    requires RangeParts(t1, sp1, dash, sp2, t2, rest)
    requires rest == [] || !IsSpace(rest[|rest| - 1])
    ensures StartsWithDigit(RangeText(t1, sp1, dash, sp2, t2, rest))
    ensures !IsSpace(RangeText(t1, sp1, dash, sp2, t2, rest)[|RangeText(t1, sp1, dash, sp2, t2, rest)| - 1])
  {
    var a, b := Render(t1), Render(t2);
    var x := RangeText(t1, sp1, dash, sp2, t2, rest);
    var u := a + sp1 + [dash] + sp2 + b;
    assert x == u + rest;
    RenderEnds(t2);
    assert u[|u| - 1] == b[|b| - 1];
    LastOf(u, rest);
    TokenValueRender(t1);
    assert x[0] == a[0];
  }

  /** `1-1/2 cups` doubled: the corrected range pattern gives `2–1 cups`;
      as written it gives `2–2 /2 cups`, the second end read as 1 and the
      `/2` left in the remainder. */
  lemma HalfCupScaled()
    ensures ScaleIngredientLine("1-1/2 cups", 2.0) == "2\U{2013}1 cups"
    ensures ScaleIngredientLineAsWritten("1-1/2 cups", 2.0) == "2\U{2013}2 /2 cups"
  {
    var line := "1-1/2 cups";
    HalfCupLines(line);
    ScaleRangeLineIs(line, 2.0, line, 1.0, 0.5, 5, " cups");
    ScaleRangeLineAsWrittenIs(line, 2.0, line, 1.0, 1.0, 3, "/2 cups");
    HalfCupTexts();
  }

  /** The recipe page doubling an ingredient list holding `1-1/2 cups`: as
      written it shows `2–2 /2 cups`, corrected `2–1 cups`. */
  lemma HalfCupListScaled()
    ensures ScaleIngredients(Some(["1-1/2 cups"]), 2.0, false) == ["2\U{2013}2 /2 cups"]
    ensures ScaleIngredients(Some(["1-1/2 cups"]), 2.0, true) == ["2\U{2013}1 cups"]
  {
    HalfCupScaled();
    OneLineScaled("1-1/2 cups", 2.0, false);
    OneLineScaled("1-1/2 cups", 2.0, true);
  }

  lemma OneLineScaled(line: string, factor: real, correctSecond: bool)
    requires factor != 1.0
    ensures ScaleIngredients(Some([line]), factor, correctSecond) == [ScaleLineWith(line, factor, correctSecond)]
  {
  }

  lemma HalfCupLines(line: string)
    requires line == "1-1/2 cups"
    ensures RangeLine(line, line, ParseLeadingRange(Trim(line)), 1.0, 0.5, 5, " cups")
    ensures RangeLine(line, line, ParseLeadingRangeAsWritten(Trim(line)), 1.0, 1.0, 3, "/2 cups")
  {
    HalfCupRange();
    HalfCupSlices(line);
  }

  lemma HalfCupSlices(line: string)
    requires line == "1-1/2 cups"
    ensures Trim(line) == line && line[5..] == " cups" && line[3..] == "/2 cups"
  {
    assert IsTrimmed(line);
  }

  lemma HalfCupTexts()
    ensures Trim(Format(Scale(1.0, 2.0)) + "\U{2013}" + Format(Scale(0.5, 2.0)) + " " + TrimStart(" cups")) == "2\U{2013}1 cups"
    ensures Trim(Format(Scale(1.0, 2.0)) + "\U{2013}" + Format(Scale(1.0, 2.0)) + " " + TrimStart("/2 cups")) == "2\U{2013}2 /2 cups"
  {
    HalfCupNumbers();
    HalfCupCorrectText();
    HalfCupAsWrittenText();
  }

  lemma HalfCupCorrectText()
    ensures Trim("2" + "\U{2013}" + "1" + " " + TrimStart(" cups")) == "2\U{2013}1 cups"
  {
    assert TrimStart(" cups") == "cups";
    assert "2\U{2013}1 cups" == "2" + "\U{2013}" + "1" + " " + "cups";
    TrimmedText("2", "1", "cups", "2\U{2013}1 cups");
  }

  lemma HalfCupAsWrittenText()
    ensures Trim("2" + "\U{2013}" + "2" + " " + TrimStart("/2 cups")) == "2\U{2013}2 /2 cups"
  {
    assert TrimStart("/2 cups") == "/2 cups";
    assert "2\U{2013}2 /2 cups" == "2" + "\U{2013}" + "2" + " " + "/2 cups";
    TrimmedText("2", "2", "/2 cups", "2\U{2013}2 /2 cups");
  }

  lemma HalfCupNumbers()
    ensures Format(Scale(1.0, 2.0)) == "2" && Format(Scale(0.5, 2.0)) == "1"
  {
    FormatWhole(2);
    FormatWhole(1);
    assert NatToString(2) == "2" && NatToString(1) == "1";
    assert 1.0 * 2.0 == 2 as real && 0.5 * 2.0 == 1 as real;
  }

  lemma TrimmedText(a: string, b: string, rest: string, out: string)
    requires out == a + "\U{2013}" + b + " " + rest && IsTrimmed(out)
    ensures Trim(a + "\U{2013}" + b + " " + rest) == out
  {
  }
}
