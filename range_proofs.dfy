/** What `parseLeadingRange` reads from `a–b` written with two numerals:
    with the second token read as a fraction when it is one, both ends come
    back with their values; with the pattern as written, a fraction as the
    second end is cut at its slash. */
module RangeProofs {
  import opened Common
  import opened Text
  import opened Quantity
  import opened QuantityProofs

  /** How much of a numeral the first alternative of a range token reads:
      all of it, except that of a fraction it reads only the numerator. */
  function GreedyLength(t: Token): nat {
    if t.Fraction? then |t.num| else |Render(t)|
  }

  /** The value the first alternative gives a numeral. */
  function GreedyAmount(t: Token): real {
    if t.Fraction? then DigitsValue(t.num) as real else Amount(t)
  }

  /** How much of the second numeral is read: all of it with the corrected
      pattern, the first alternative's share of it with the pattern as written. */
  function SecondLength(t: Token, correctSecond: bool): nat {
    if correctSecond then |Render(t)| else GreedyLength(t)
  }

  function SecondAmount(t: Token, correctSecond: bool): real {
    if correctSecond then Amount(t) else GreedyAmount(t)
  }

  /** The range read from `t1`, a dash and `t2` starting `q` characters
      after the first numeral's start, `pad` characters into the text. */
  function RangeReading(t1: Token, t2: Token, q: nat, pad: nat, correctSecond: bool): Range {
    Range(Amount(t1), SecondAmount(t2, correctSecond), pad + q + SecondLength(t2, correctSecond))
  }

  /** A range written `t1 sp1 dash sp2 t2 rest`. */
  function RangeText(t1: Token, sp1: string, dash: char, sp2: string, t2: Token, rest: string): string {
    Render(t1) + (sp1 + ([dash] + (sp2 + (Render(t2) + rest))))
  }

  /** What may be written around the dash and after the range. */
  predicate RangeParts(t1: Token, sp1: string, dash: char, sp2: string, t2: Token, rest: string) {
    ValidToken(t1) && ValidToken(t2) && AllSpaces(sp1) && IsDash(dash) && AllSpaces(sp2) && Separates(rest)
  }

  // ---------------------------------------------------------------------
  // A numeral in place

  /** A numeral starts with a digit. */
  lemma TokenStarts(s: string, i: nat, t: Token)
    requires TokenAt(s, i, t)
    ensures i < |s| && IsDigit(s[i])
  {
    var x := Lead(t);
    assert Render(t)[..|x|] == x;
    assert s[i] == s[i..i + |Render(t)|][0];
  }

  lemma DecimalEnds(s: string, i: nat, w: string, f: string)
    requires TokenAt(s, i, Decimal(w, f))
    ensures GreedyTokenEnd(s, i) == i + |Render(Decimal(w, f))|
    ensures FractionTokenEnd(s, i).None?
  {
    TokenStarts(s, i, Decimal(w, f));
    DecimalLayout(s, i, w, f);
    DecimalScans(s, i, |w|, |f|);
  }

  lemma FractionEnds(s: string, i: nat, n: string, d: string)
    requires TokenAt(s, i, Fraction(n, d))
    ensures GreedyTokenEnd(s, i) == i + |n|
    ensures FractionTokenEnd(s, i) == Some(i + |Render(Fraction(n, d))|)
  {
    TokenStarts(s, i, Fraction(n, d));
    FractionLayout(s, i, n, d);
    FractionScans(s, i, |n|, |d|);
  }

  lemma MixedEnds(s: string, i: nat, w: string, n: string, d: string)
    requires TokenAt(s, i, Mixed(w, n, d))
    ensures GreedyTokenEnd(s, i) == i + |Render(Mixed(w, n, d))|
    ensures FractionTokenEnd(s, i).None?
  {
    TokenStarts(s, i, Mixed(w, n, d));
    MixedLayout(s, i, w, n, d);
    MixedScans(s, i, |w|, |n|, |d|);
  }

  /** Where the two alternatives of a range token end on a numeral. */
  lemma TokenEnds(s: string, i: nat, t: Token)
    requires TokenAt(s, i, t)
    ensures i < |s| && IsDigit(s[i])
    ensures GreedyTokenEnd(s, i) == i + GreedyLength(t)
    ensures FractionTokenEnd(s, i) == if t.Fraction? then Some(i + |Render(t)|) else None
  {
    TokenStarts(s, i, t);
    match t
    case Decimal(w, f) => DecimalEnds(s, i, w, f);
    case Fraction(n, d) => FractionEnds(s, i, n, d);
    case Mixed(w, n, d) => MixedEnds(s, i, w, n, d);
  }

  /** `tokenToNumber` of a run of digits is its value. */
  lemma NumeralValue(x: string)
    requires Numeral(x)
    ensures StartsWithDigit(x) && TokenValue(x) == DigitsValue(x) as real
  {
    TokenValueRender(Decimal(x, []));
    assert Render(Decimal(x, [])) == x;
  }

  lemma NumeratorPlaced(s: string, i: nat, r: string, n: string, d: string)
    requires r == n + "/" + d && i + |r| <= |s| && s[i..i + |r|] == r
    ensures i + |n| <= |s| && s[i..i + |n|] == n
  {
    assert s[i..i + |n|] == r[..|n|];
  }

  /** The text of the second token that the range pattern reads. */
  function SecondText(t: Token, correctSecond: bool): string {
    if !correctSecond && t.Fraction? then t.num else Render(t)
  }

  /** `tokenToNumber` of what is read of the second token. */
  lemma SecondTextValue(t: Token, correctSecond: bool)
    requires ValidToken(t)
    ensures |SecondText(t, correctSecond)| == SecondLength(t, correctSecond)
    ensures StartsWithDigit(SecondText(t, correctSecond))
    ensures TokenValue(SecondText(t, correctSecond)) == SecondAmount(t, correctSecond)
  {
    if !correctSecond && t.Fraction? {
      NumeralValue(t.num);
    } else {
      TokenValueRender(t);
    }
  }

  /** What is read of the second token sits where the token does. */
  lemma SecondTextPlaced(s: string, i: nat, t: Token, correctSecond: bool)
    requires TokenAt(s, i, t)
    ensures i + SecondLength(t, correctSecond) <= |s|
    ensures s[i..i + SecondLength(t, correctSecond)] == SecondText(t, correctSecond)
  {
    if !correctSecond && t.Fraction? {
      NumeratorPlaced(s, i, Render(t), t.num, t.den);
    }
  }

  /** The first token is the start of the text. */
  lemma FirstTextPlaced(s: string, t: Token)
    requires TokenAt(s, 0, t)
    ensures |Render(t)| <= |s| && s[..|Render(t)|] == Render(t)
  {
    assert s[..|Render(t)|] == s[0..|Render(t)|];
  }

  /** Where the second token of a range ends. */
  lemma SecondEndAt(s: string, i: nat, t: Token, correctSecond: bool)
    requires TokenAt(s, i, t)
    ensures i < |s| && IsDigit(s[i])
    ensures SecondEnd(s, i, correctSecond) == i + SecondLength(t, correctSecond)
  {
    TokenEnds(s, i, t);
  }

  // ---------------------------------------------------------------------
  // The pieces of a range in place

  /** The first numeral `a` of a text opens it and ends at `e1`. */
  lemma FirstPlaced(s: string, e1: nat, a: string, m: string)
    requires s == a + m && e1 == |a|
    ensures e1 <= |s| && s[0..e1] == a && s[e1..] == m
  {
    assert s[0..e1] == (a + m)[..|a|];
  }

  /** The second numeral `b` of a range text sits at `q`, before `rest`. */
  lemma SecondPlaced(s: string, q: nat, a: string, sp1: string, dash: char, sp2: string, b: string, rest: string)
    requires s == a + (sp1 + ([dash] + (sp2 + (b + rest))))
    requires q == |a| + |sp1| + 1 + |sp2|
    ensures q + |b| <= |s| && s[q..q + |b|] == b && s[q + |b|..] == rest
  {
    assert s == (a + sp1 + [dash] + sp2) + (b + rest);
    At(s, q, a + sp1 + [dash] + sp2, b, rest);
  }

  /** The white space and the dash of a range text between `e1` and `q`. */
  lemma DashPlaced(s: string, e1: nat, p: nat, q: nat,
                   a: string, sp1: string, dash: char, sp2: string, b: string, rest: string)
    requires s == a + (sp1 + ([dash] + (sp2 + (b + rest))))
    requires e1 == |a| && p == e1 + |sp1| && q == p + 1 + |sp2|
    ensures q <= |s| && s[e1..p] == sp1 && s[p] == dash && s[p + 1..q] == sp2
  {
    assert s[e1..p] == sp1 by {
      At(s, e1, a, sp1, [dash] + (sp2 + (b + rest)));
    }
    assert s[p] == dash by {
      assert s == (a + sp1) + ([dash] + (sp2 + (b + rest)));
      At(s, p, a + sp1, [dash], sp2 + (b + rest));
    }
    assert q <= |s| && s[p + 1..q] == sp2 by {
      assert s == (a + sp1 + [dash]) + (sp2 + (b + rest));
      At(s, p + 1, a + sp1 + [dash], sp2, b + rest);
    }
  }

  /** `m` sits at `i` in `s` when `s` is `x`, then `m`, then `y`. */
  lemma At(s: string, i: nat, x: string, m: string, y: string)
    requires s == x + (m + y) && i == |x|
    ensures i + |m| <= |s| && s[i..i + |m|] == m && s[i + |m|..] == y
    ensures |m| > 0 ==> s[i] == m[0]
  {
    assert s[i..] == m + y;
    assert s[i..i + |m|] == (m + y)[..|m|];
    assert s[i + |m|..] == (m + y)[|m|..];
  }
  /** The text after the first numeral separates it: it starts with white
      space or the dash, and the dash follows the white space. */
  lemma DashSeparates(sp1: string, dash: char, after: string)
    requires AllSpaces(sp1) && IsDash(dash)
    ensures Separates(sp1 + ([dash] + after))
  {
    var m := sp1 + ([dash] + after);
    TrimStartPad(sp1, [dash] + after);
    if sp1 == [] {
      assert m[0] == dash;
    } else {
      assert m[0] == sp1[0];
    }
  }

  /** Both numerals of a range sit in the range text. */
  lemma RangeTokens(s: string, q: nat, t1: Token, sp1: string, dash: char, sp2: string, t2: Token, rest: string)
    requires RangeParts(t1, sp1, dash, sp2, t2, rest) && s == RangeText(t1, sp1, dash, sp2, t2, rest)
    requires q == |Render(t1)| + |sp1| + 1 + |sp2|
    ensures TokenAt(s, 0, t1) && TokenAt(s, q, t2)
  {
    var a, b := Render(t1), Render(t2);
    assert TokenAt(s, 0, t1) by {
      FirstPlaced(s, |a|, a, sp1 + ([dash] + (sp2 + (b + rest))));
      DashSeparates(sp1, dash, sp2 + (b + rest));
      TokenBefore(s, 0, t1, a);
    }
    assert TokenAt(s, q, t2) by {
      SecondPlaced(s, q, a, sp1, dash, sp2, b, rest);
      TokenBefore(s, q, t2, b);
    }
  }

  /** A numeral followed by a separating text sits in place. */
  lemma TokenBefore(s: string, i: nat, t: Token, r: string)
    requires ValidToken(t) && r == Render(t)
    requires i + |r| <= |s| && s[i..i + |r|] == r && Separates(s[i + |r|..])
    ensures TokenAt(s, i, t)
  {
    SeparatedAt(s, i + |r|);
  }

  /** `\s*[-–]\s*` read in place: white space, the dash, white space, and
      then something other than white space. */
  lemma DashIn(s: string, e1: nat, p: nat, q: nat, sp1: string, dash: char, sp2: string)
    requires AllSpaces(sp1) && IsDash(dash) && AllSpaces(sp2)
    requires p == e1 + |sp1| && q == p + 1 + |sp2|
    requires q < |s| && !IsSpace(s[q])
    requires s[e1..p] == sp1 && s[p] == dash && s[p + 1..q] == sp2
    ensures DashEnd(s, e1) == Some(q)
  {
    SpacesPlaced(s, e1, sp1);
    SpaceRunIs(s, e1, |sp1|);
    SpacesPlaced(s, p + 1, sp2);
    SpaceRunIs(s, p + 1, |sp2|);
  }

  /** A numeral starts with a digit. */
  lemma RenderStarts(s: string, i: nat, t: Token)
    requires ValidToken(t) && i + |Render(t)| <= |s| && s[i..i + |Render(t)|] == Render(t)
    ensures i < |s| && IsDigit(s[i])
  {
    var x := Lead(t);
    assert Render(t)[..|x|] == x;
    assert s[i] == s[i..i + |Render(t)|][0];
  }

  /** The dash between the numerals: `\s*[-–]\s*` runs from the end of the
      first numeral to the start of the second. */
  lemma DashAt(s: string, q: nat, t1: Token, sp1: string, dash: char, sp2: string, t2: Token, rest: string)
    requires RangeParts(t1, sp1, dash, sp2, t2, rest) && s == RangeText(t1, sp1, dash, sp2, t2, rest)
    requires q == |Render(t1)| + |sp1| + 1 + |sp2|
    ensures |Render(t1)| <= |s| && DashEnd(s, |Render(t1)|) == Some(q)
  {
    var e1 := |Render(t1)|;
    var p := e1 + |sp1|;
    assert q < |s| && IsDigit(s[q]) by {
      SecondPlaced(s, q, Render(t1), sp1, dash, sp2, Render(t2), rest);
      RenderStarts(s, q, t2);
    }
    DashPlaced(s, e1, p, q, Render(t1), sp1, dash, sp2, Render(t2), rest);
    DashIn(s, e1, p, q, sp1, dash, sp2);
  }

  /** No dash follows the numerator of a fraction: a slash does. */
  lemma NoDashAfterNumerator(s: string, n: string, d: string)
    requires TokenAt(s, 0, Fraction(n, d))
    ensures |n| <= |s| && DashEnd(s, |n|).None?
  {
    FractionLayout(s, 0, n, d);
    SpaceRunIs(s, |n|, 0);
  }

  // ---------------------------------------------------------------------
  // The range pattern

  /** `RangeFrom` once the dash and the end of the second token are known:
      both tokens are read by `tokenToNumber`. */
  lemma RangeFromAt(s: string, pad: nat, e1: nat, q: nat, e2: nat, correctSecond: bool)
    requires 0 < e1 <= |s| && IsDigit(s[0]) && DashEnd(s, e1) == Some(q) && q < |s| && IsDigit(s[q])
    requires SecondEnd(s, q, correctSecond) == e2
    ensures RangeFrom(s, pad, e1, correctSecond).Some?
    ensures RangeFrom(s, pad, e1, correctSecond).value == Range(TokenValue(s[..e1]), TokenValue(s[q..e2]), pad + e2)
  {
  }

  /** No range is read on from a token that no dash follows. */
  lemma RangeFromNoDash(s: string, pad: nat, e1: nat, correctSecond: bool)
    requires 0 < e1 <= |s| && IsDigit(s[0]) && DashEnd(s, e1).None?
    ensures RangeFrom(s, pad, e1, correctSecond).None?
  {
  }

  /** `RangeFrom` once both tokens and their values are known. */
  lemma RangeFromValues(s: string, pad: nat, e1: nat, q: nat, e2: nat, x1: string, x2: string,
                        a: real, b: real, correctSecond: bool)
    requires 0 < e1 <= |s| && IsDigit(s[0]) && DashEnd(s, e1) == Some(q) && q < |s| && IsDigit(s[q])
    requires SecondEnd(s, q, correctSecond) == e2
    requires s[..e1] == x1 && StartsWithDigit(x1) && TokenValue(x1) == a
    requires s[q..e2] == x2 && StartsWithDigit(x2) && TokenValue(x2) == b
    ensures RangeFrom(s, pad, e1, correctSecond).Some? && RangeFrom(s, pad, e1, correctSecond).value == Range(a, b, pad + e2)
  {
    RangeFromAt(s, pad, e1, q, e2, correctSecond);
  }

  /** What the range pattern needs of its first numeral. */
  lemma FirstTokenFacts(s: string, t: Token) returns (x: string)
    requires TokenAt(s, 0, t)
    ensures 0 < |Render(t)| <= |s| && IsDigit(s[0]) && s[..|Render(t)|] == x
    ensures StartsWithDigit(x) && TokenValue(x) == Amount(t)
  {
    x := Render(t);
    TokenStarts(s, 0, t);
    FirstTextPlaced(s, t);
    TokenValueRender(t);
  }

  /** What the range pattern needs of its second numeral. */
  lemma SecondTokenFacts(s: string, q: nat, t: Token, correctSecond: bool) returns (x: string)
    requires TokenAt(s, q, t)
    ensures q < |s| && IsDigit(s[q]) && SecondEnd(s, q, correctSecond) == q + SecondLength(t, correctSecond)
    ensures q + SecondLength(t, correctSecond) <= |s|
    ensures s[q..q + SecondLength(t, correctSecond)] == x
    ensures StartsWithDigit(x)
    ensures TokenValue(x) == SecondAmount(t, correctSecond)
  {
    x := SecondText(t, correctSecond);
    SecondTextPlaced(s, q, t, correctSecond);
    SecondEndAt(s, q, t, correctSecond);
    SecondTextValue(t, correctSecond);
  }

  /** `RangeIn` when the first alternative of the first token reads a range. */
  lemma RangeInGreedy(s: string, pad: nat, correctSecond: bool, v: Range)
    requires StartsWithDigit(s) && RangeFrom(s, pad, GreedyTokenEnd(s, 0), correctSecond).Some?
    requires RangeFrom(s, pad, GreedyTokenEnd(s, 0), correctSecond).value == v
    ensures RangeIn(s, pad, correctSecond).Some? && RangeIn(s, pad, correctSecond).value == v
  {
  }

  /** `RangeIn` when only the second alternative of the first token does. */
  lemma RangeInFraction(s: string, pad: nat, correctSecond: bool, e: nat, v: Range)
    requires StartsWithDigit(s) && RangeFrom(s, pad, GreedyTokenEnd(s, 0), correctSecond).None?
    requires FractionTokenEnd(s, 0) == Some(e) && RangeFrom(s, pad, e, correctSecond).Some?
    requires RangeFrom(s, pad, e, correctSecond).value == v
    ensures RangeIn(s, pad, correctSecond).Some? && RangeIn(s, pad, correctSecond).value == v
  {
  }

  /** The range pattern on two numerals with a dash between them, stated
      on positions: the first alternative of the first token ends at `g1`,
      which is the end `e1` of the numeral unless it is a fraction, and then
      no dash follows `g1` and the second alternative reaches `e1`. */
  lemma RangeInValues(s: string, pad: nat, correctSecond: bool, e1: nat, g1: nat, q: nat, e2: nat,
                      x1: string, x2: string, a: real, b: real)
    requires StartsWithDigit(s) && 0 < e1 <= |s| && GreedyTokenEnd(s, 0) == g1
    requires FractionTokenEnd(s, 0) == (if g1 == e1 then None else Some(e1))
    requires g1 != e1 ==> DashEnd(s, g1).None?
    requires DashEnd(s, e1) == Some(q) && q < |s| && IsDigit(s[q]) && SecondEnd(s, q, correctSecond) == e2
    requires s[..e1] == x1 && StartsWithDigit(x1) && TokenValue(x1) == a
    requires s[q..e2] == x2 && StartsWithDigit(x2) && TokenValue(x2) == b
    ensures RangeIn(s, pad, correctSecond).Some? && RangeIn(s, pad, correctSecond).value == Range(a, b, pad + e2)
  {
    RangeFromValues(s, pad, e1, q, e2, x1, x2, a, b, correctSecond);
    if g1 != e1 {
      RangeFromNoDash(s, pad, g1, correctSecond);
      RangeInFraction(s, pad, correctSecond, e1, Range(a, b, pad + e2));
    } else {
      RangeInGreedy(s, pad, correctSecond, Range(a, b, pad + e2));
    }
  }

  /** Where the pieces of a range text are, as the range pattern reads them:
      the ends of the first numeral for both alternatives, the dash, what is
      read of the second numeral, and the values `tokenToNumber` gives them. */
  lemma RangeFacts(s: string, q: nat, t1: Token, sp1: string, dash: char, sp2: string, t2: Token, rest: string,
                   correctSecond: bool)
      returns (e1: nat, g1: nat, e2: nat, x1: string, x2: string)
    requires RangeParts(t1, sp1, dash, sp2, t2, rest) && s == RangeText(t1, sp1, dash, sp2, t2, rest)
    requires q == |Render(t1)| + |sp1| + 1 + |sp2|
    ensures StartsWithDigit(s) && 0 < e1 <= |s| && GreedyTokenEnd(s, 0) == g1
    ensures FractionTokenEnd(s, 0) == (if g1 == e1 then None else Some(e1))
    ensures g1 != e1 ==> DashEnd(s, g1).None?
    ensures DashEnd(s, e1) == Some(q) && q < |s| && IsDigit(s[q]) && SecondEnd(s, q, correctSecond) == e2
    ensures s[..e1] == x1 && StartsWithDigit(x1) && TokenValue(x1) == Amount(t1)
    ensures s[q..e2] == x2 && StartsWithDigit(x2) && TokenValue(x2) == SecondAmount(t2, correctSecond)
    ensures e2 == q + SecondLength(t2, correctSecond)
  {
    e1, g1, x1 := FirstFacts(s, q, t1, sp1, dash, sp2, t2, rest);
    e2, x2 := SecondFacts(s, q, t1, sp1, dash, sp2, t2, rest, correctSecond);
  }

  /** The first numeral of a range text and the dash after it. */
  lemma FirstFacts(s: string, q: nat, t1: Token, sp1: string, dash: char, sp2: string, t2: Token, rest: string)
      returns (e1: nat, g1: nat, x1: string)
    requires RangeParts(t1, sp1, dash, sp2, t2, rest) && s == RangeText(t1, sp1, dash, sp2, t2, rest)
    requires q == |Render(t1)| + |sp1| + 1 + |sp2|
    ensures StartsWithDigit(s) && 0 < e1 <= |s| && GreedyTokenEnd(s, 0) == g1
    ensures FractionTokenEnd(s, 0) == (if g1 == e1 then None else Some(e1))
    ensures g1 != e1 ==> DashEnd(s, g1).None?
    ensures DashEnd(s, e1) == Some(q)
    ensures s[..e1] == x1 && StartsWithDigit(x1) && TokenValue(x1) == Amount(t1)
  {
    RangeTextLaid(s, q, t1, sp1, dash, sp2, t2, rest);
    e1, g1 := |Render(t1)|, GreedyLength(t1);
    TokenEnds(s, 0, t1);
    if t1.Fraction? {
      NoDashAfterNumerator(s, t1.num, t1.den);
    }
    x1 := FirstTokenFacts(s, t1);
  }

  /** The second numeral of a range text, as much of it as is read. */
  lemma SecondFacts(s: string, q: nat, t1: Token, sp1: string, dash: char, sp2: string, t2: Token, rest: string,
                    correctSecond: bool)
      returns (e2: nat, x2: string)
    requires RangeParts(t1, sp1, dash, sp2, t2, rest) && s == RangeText(t1, sp1, dash, sp2, t2, rest)
    requires q == |Render(t1)| + |sp1| + 1 + |sp2|
    ensures q < |s| && IsDigit(s[q]) && SecondEnd(s, q, correctSecond) == e2
    ensures s[q..e2] == x2 && StartsWithDigit(x2) && TokenValue(x2) == SecondAmount(t2, correctSecond)
    ensures e2 == q + SecondLength(t2, correctSecond)
  {
    RangeTokens(s, q, t1, sp1, dash, sp2, t2, rest);
    e2 := q + SecondLength(t2, correctSecond);
    x2 := SecondTokenFacts(s, q, t2, correctSecond);
  }

  /** Both numerals and the dash of a range text are in place. */
  lemma RangeTextLaid(s: string, q: nat, t1: Token, sp1: string, dash: char, sp2: string, t2: Token, rest: string)
    requires RangeParts(t1, sp1, dash, sp2, t2, rest) && s == RangeText(t1, sp1, dash, sp2, t2, rest)
    requires q == |Render(t1)| + |sp1| + 1 + |sp2|
    ensures TokenAt(s, 0, t1) && TokenAt(s, q, t2) && |Render(t1)| <= |s| && DashEnd(s, |Render(t1)|) == Some(q)
  {
    RangeTokens(s, q, t1, sp1, dash, sp2, t2, rest);
    DashAt(s, q, t1, sp1, dash, sp2, t2, rest);
  }

  /** Leading white space only moves where the range ends. */
  lemma RangeAfterPad(pad: string, s: string, correctSecond: bool)
    requires AllSpaces(pad) && StartsWithDigit(s)
    ensures ParseRangeWith(pad + s, correctSecond) == RangeIn(s, |pad|, correctSecond)
  {
    TrimStartPad(pad, s);
    assert |pad + s| - |TrimStart(pad + s)| == |pad|;
  }

  /** The range read after white space from a range text. */
  lemma ParseRangeText(pad: string, t1: Token, sp1: string, dash: char, sp2: string, t2: Token, rest: string,
                       correctSecond: bool)
    requires AllSpaces(pad) && RangeParts(t1, sp1, dash, sp2, t2, rest)
    ensures ParseRangeWith(pad + RangeText(t1, sp1, dash, sp2, t2, rest), correctSecond).Some?
    ensures ParseRangeWith(pad + RangeText(t1, sp1, dash, sp2, t2, rest), correctSecond).value
      == RangeReading(t1, t2, |Render(t1)| + |sp1| + 1 + |sp2|, |pad|, correctSecond)
  {
    var s := RangeText(t1, sp1, dash, sp2, t2, rest);
    var q := |Render(t1)| + |sp1| + 1 + |sp2|;
    var e1, g1, e2, x1, x2 := RangeFacts(s, q, t1, sp1, dash, sp2, t2, rest, correctSecond);
    var a, b := Amount(t1), SecondAmount(t2, correctSecond);
    RangeInValues(s, |pad|, correctSecond, e1, g1, q, e2, x1, x2, a, b);
    RangeAfterPad(pad, s, correctSecond);
    RangeReadingIs(t1, t2, q, |pad|, correctSecond, |pad| + e2);
  }

  lemma CorrectedIs(text: string)
    ensures ParseLeadingRange(text) == ParseRangeWith(text, true)
  {
  }

  lemma AsWrittenIs(text: string)
    ensures ParseLeadingRangeAsWritten(text) == ParseRangeWith(text, false)
  {
  }

  lemma RangeReadingIs(t1: Token, t2: Token, q: nat, pad: nat, correctSecond: bool, len: nat)
    requires len == pad + q + SecondLength(t2, correctSecond)
    ensures RangeReading(t1, t2, q, pad, correctSecond) == Range(Amount(t1), SecondAmount(t2, correctSecond), len)
  {
  }

  /** With the corrected pattern, a range reads both numerals whole. */
  lemma RangeReadingCorrected(t1: Token, t2: Token, q: nat, pad: nat)
    ensures RangeReading(t1, t2, q, pad, true) == Range(Amount(t1), Amount(t2), pad + q + |Render(t2)|)
  {
  }

  /** With the pattern as written, the second numeral is read as far as its
      first alternative goes. */
  lemma RangeReadingAsWritten(t1: Token, t2: Token, q: nat, pad: nat)
    ensures RangeReading(t1, t2, q, pad, false) == Range(Amount(t1), GreedyAmount(t2), pad + q + GreedyLength(t2))
  {
  }

  /** The corrected `parseLeadingRange` reads back a range of two numerals
      written after white space: both values, and the length up to the end
      of the second numeral (`RangeReadingCorrected`). */
  lemma ParseRangeRoundTrip(pad: string, t1: Token, sp1: string, dash: char, sp2: string, t2: Token, rest: string)
    requires AllSpaces(pad) && RangeParts(t1, sp1, dash, sp2, t2, rest)
    ensures ParseLeadingRange(pad + RangeText(t1, sp1, dash, sp2, t2, rest)).Some?
    ensures ParseLeadingRange(pad + RangeText(t1, sp1, dash, sp2, t2, rest)).value
      == RangeReading(t1, t2, |Render(t1)| + |sp1| + 1 + |sp2|, |pad|, true)
  {
    ParseRangeText(pad, t1, sp1, dash, sp2, t2, rest, true);
    CorrectedIs(pad + RangeText(t1, sp1, dash, sp2, t2, rest));
  }

  /** `parseLeadingRange` as written reads the second numeral with the
      first alternative of its token pattern only: a fraction there is read
      as its numerator, and the range ends before the slash
      (`RangeReadingAsWritten`). */
  lemma ParseRangeAsWrittenRoundTrip(pad: string, t1: Token, sp1: string, dash: char, sp2: string, t2: Token, rest: string)
    requires AllSpaces(pad) && RangeParts(t1, sp1, dash, sp2, t2, rest)
    ensures ParseLeadingRangeAsWritten(pad + RangeText(t1, sp1, dash, sp2, t2, rest)).Some?
    ensures ParseLeadingRangeAsWritten(pad + RangeText(t1, sp1, dash, sp2, t2, rest)).value
      == RangeReading(t1, t2, |Render(t1)| + |sp1| + 1 + |sp2|, |pad|, false)
  {
    ParseRangeText(pad, t1, sp1, dash, sp2, t2, rest, false);
    AsWrittenIs(pad + RangeText(t1, sp1, dash, sp2, t2, rest));
  }

  /** On `1-1/2 cups` the pattern as written reads the range 1 to 1 and
      stops before `/2`; the corrected pattern reads 1 to 1/2. */
  lemma HalfCupRange()
    ensures ParseLeadingRangeAsWritten("1-1/2 cups") == Some(Range(1.0, 1.0, 3))
    ensures ParseLeadingRange("1-1/2 cups") == Some(Range(1.0, 0.5, 5))
  {
    var t1 := Decimal("1", "");
    var t2 := Fraction("1", "2");
    HalfCupParts(t1, t2);
    ParseRangeRoundTrip("", t1, "", '-', "", t2, " cups");
    ParseRangeAsWrittenRoundTrip("", t1, "", '-', "", t2, " cups");
    HalfCupReadings(t1, t2);
  }

  /** `1-1/2 cups` is the range text of `1` and `1/2` around a hyphen. */
  lemma HalfCupParts(t1: Token, t2: Token)
    requires t1 == Decimal("1", "") && t2 == Fraction("1", "2")
    ensures RangeParts(t1, "", '-', "", t2, " cups")
    ensures "" + RangeText(t1, "", '-', "", t2, " cups") == "1-1/2 cups"
  {
    assert AllDigits("1") && AllDigits("2") && !IsDigit(' ');
    assert TrimStart(" cups") == "cups";
  }

  /** The readings of `1` and `1/2` two characters apart. */
  lemma HalfCupReadings(t1: Token, t2: Token)
    requires t1 == Decimal("1", "") && t2 == Fraction("1", "2")
    ensures RangeReading(t1, t2, 2, 0, true) == Range(1.0, 0.5, 5)
    ensures RangeReading(t1, t2, 2, 0, false) == Range(1.0, 1.0, 3)
  {
    assert DigitsValue("1") == 1 && DigitsValue("2") == 2;
    assert Amount(t2) == Ratio(1, 2) == 0.5;
  }

  /** On `1/4-1/2 tsp`, a range that reads only one way, the pattern as
      written reads 1/4 to 1 over 5 characters and leaves `/2 tsp`; the
      corrected pattern reads 1/4 to 1/2 over 7. */
  lemma QuarterHalfRange()
    ensures ParseLeadingRangeAsWritten("1/4-1/2 tsp") == Some(Range(0.25, 1.0, 5))
    ensures ParseLeadingRange("1/4-1/2 tsp") == Some(Range(0.25, 0.5, 7))
  {
    var t1 := Fraction("1", "4");
    var t2 := Fraction("1", "2");
    QuarterHalfParts(t1, t2);
    ParseRangeRoundTrip("", t1, "", '-', "", t2, " tsp");
    ParseRangeAsWrittenRoundTrip("", t1, "", '-', "", t2, " tsp");
    QuarterHalfReadings(t1, t2);
  }

  /** `1/4-1/2 tsp` is the range text of `1/4` and `1/2` around a hyphen. */
  lemma QuarterHalfParts(t1: Token, t2: Token)
    requires t1 == Fraction("1", "4") && t2 == Fraction("1", "2")
    ensures RangeParts(t1, "", '-', "", t2, " tsp")
    ensures |Render(t1)| == 3
    ensures "" + RangeText(t1, "", '-', "", t2, " tsp") == "1/4-1/2 tsp"
  {
    assert AllDigits("1") && AllDigits("2") && AllDigits("4") && !IsDigit(' ');
    assert TrimStart(" tsp") == "tsp";
  }

  /** The readings of `1/4` and `1/2` four characters apart. */
  lemma QuarterHalfReadings(t1: Token, t2: Token)
    requires t1 == Fraction("1", "4") && t2 == Fraction("1", "2")
    ensures RangeReading(t1, t2, 4, 0, true) == Range(0.25, 0.5, 7)
    ensures RangeReading(t1, t2, 4, 0, false) == Range(0.25, 1.0, 5)
  {
    assert DigitsValue("1") == 1 && DigitsValue("2") == 2 && DigitsValue("4") == 4;
    assert Amount(t1) == Ratio(1, 4) == 0.25;
    assert Amount(t2) == Ratio(1, 2) == 0.5;
  }
}
