/** What the quantity helpers of the recipe page do with the numerals an
    ingredient line is written with: a canonical numeral is read back
    exactly, a range is read with the value of both of its ends, a scaled
    number is written rounded to hundredths, and a scaled line keeps its
    remainder. */
module QuantityProofs {
  import opened Common
  import opened Text
  import opened Quantity

  /** A numeral as an ingredient line writes it, by its digit strings: `2`
      or `1.5`, `3/4`, `1 1/2`. */
  datatype Token =
    | Decimal(whole: string, frac: string)
    | Fraction(num: string, den: string)
    | Mixed(whole: string, num: string, den: string)

  /** Every part is a non-empty run of digits, except that a whole number
      has no digits after a dot. */
  predicate ValidToken(t: Token) {
    match t
    case Decimal(w, f) => Numeral(w) && AllDigits(f)
    case Fraction(n, d) => Numeral(n) && Numeral(d)
    case Mixed(w, n, d) => Numeral(w) && Numeral(n) && Numeral(d)
  }

  predicate Numeral(x: string) {
    0 < |x| && AllDigits(x)
  }

  function Render(t: Token): string {
    match t
    case Decimal(w, f) => if f == [] then w else w + "." + f
    case Fraction(n, d) => n + "/" + d
    case Mixed(w, n, d) => w + " " + n + "/" + d
  }

  /** The digits the numeral starts with. */
  function Lead(t: Token): string {
    match t
    case Decimal(w, _) => w
    case Fraction(n, _) => n
    case Mixed(w, _, _) => w
  }

  predicate NonZeroDen(t: Token) {
    t.Decimal? || DigitsValue(t.den) != 0
  }

  /** The number a numeral stands for; a fraction over zero counts as 0, as
      in the range reader. */
  function Amount(t: Token): real {
    match t
    case Decimal(w, f) => DecimalValue(DigitsValue(w), DigitsValue(f), |f|)
    case Fraction(n, d) => Ratio(DigitsValue(n), DigitsValue(d))
    case Mixed(w, n, d) => DigitsValue(w) as real + Ratio(DigitsValue(n), DigitsValue(d))
  }

  /** The value of a decimal numeral with whole part `w` and `f` digits
      after the dot that read as `fv`. */
  function DecimalValue(w: nat, fv: nat, f: nat): real {
    w as real + if f == 0 then 0.0 else Ratio(fv, Pow10(f))
  }

  /** What may follow a numeral so that it ends there: not a digit, a dot or
      a slash, and no digit after the white space that follows it. */
  predicate Separates(rest: string) {
    rest == [] || (!IsDigit(rest[0]) && rest[0] != '.' && rest[0] != '/' && !StartsWithDigit(TrimStart(rest)))
  }

  /** `s` holds the numeral `t` at `i`, and nothing after it continues it. */
  predicate TokenAt(s: string, i: nat, t: Token) {
    ValidToken(t) && i + |Render(t)| <= |s| && s[i..i + |Render(t)|] == Render(t)
    && EndsAt(s, i + |Render(t)|) && NoDigitAfterSpaces(s, i + |Render(t)|)
  }

  /** Nothing after position `e` continues a numeral. */
  predicate EndsAt(s: string, e: nat)
    requires e <= |s|
  {
    e == |s| || (!IsDigit(s[e]) && s[e] != '.' && s[e] != '/')
  }

  /** No digit follows the white space after position `e`. */
  predicate NoDigitAfterSpaces(s: string, e: nat)
    requires e <= |s|
  {
    e + SpaceRun(s, e) == |s| || !IsDigit(s[e + SpaceRun(s, e)])
  }

  // ---------------------------------------------------------------------
  // Runs

  /** Every character of `s[lo..hi]` is a digit. */
  predicate DigitsBetween(s: string, lo: nat, hi: nat)
    requires lo <= hi <= |s|
  {
    forall k :: lo <= k < hi ==> IsDigit(s[k])
  }

  /** Every character of `s[lo..hi]` is white space. */
  predicate SpacesBetween(s: string, lo: nat, hi: nat)
    requires lo <= hi <= |s|
  {
    forall k :: lo <= k < hi ==> IsSpace(s[k])
  }

  /** A digit string found in place. */
  lemma DigitsPlaced(s: string, i: nat, x: string)
    requires i + |x| <= |s| && s[i..i + |x|] == x && AllDigits(x)
    ensures DigitsBetween(s, i, i + |x|)
  {
    forall k | i <= k < i + |x| ensures IsDigit(s[k]) {
      assert s[k] == x[k - i];
    }
  }

  /** White space found in place. */
  lemma SpacesPlaced(s: string, i: nat, x: string)
    requires i + |x| <= |s| && s[i..i + |x|] == x && AllSpaces(x)
    ensures SpacesBetween(s, i, i + |x|)
  {
    forall k | i <= k < i + |x| ensures IsSpace(s[k]) {
      assert s[k] == x[k - i];
    }
  }

  lemma {:induction false} DigitRunIs(s: string, i: nat, n: nat)
    requires i + n <= |s| && DigitsBetween(s, i, i + n)
    requires i + n == |s| || !IsDigit(s[i + n])
    ensures DigitRun(s, i) == n
    decreases n
  {
    if n > 0 {
      DigitRunIs(s, i + 1, n - 1);
    }
  }

  lemma {:induction false} SpaceRunIs(s: string, i: nat, n: nat)
    requires i + n <= |s| && SpacesBetween(s, i, i + n)
    requires i + n == |s| || !IsSpace(s[i + n])
    ensures SpaceRun(s, i) == n
    decreases n
  {
    if n > 0 {
      SpaceRunIs(s, i + 1, n - 1);
    }
  }

  /** Skipping the run of white space at `j` is `trimStart` of the rest. */
  lemma {:induction false} SpaceRunTrimStart(s: string, j: nat)
    requires j <= |s|
    ensures s[j + SpaceRun(s, j)..] == TrimStart(s[j..])
    decreases |s| - j
  {
    if j < |s| && IsSpace(s[j]) {
      SpaceRunTrimStart(s, j + 1);
      assert TrimStart(s[j..]) == TrimStart(s[j + 1..]) by {
        assert s[j..][1..] == s[j + 1..];
        assert s[j..][0] == s[j];
      }
    } else {
      assert TrimStart(s[j..]) == s[j..] by {
        if j < |s| {
          assert s[j..][0] == s[j];
        }
      }
    }
  }

  lemma {:induction false} TrimStartPad(pad: string, x: string)
    requires AllSpaces(pad) && (x == [] || !IsSpace(x[0]))
    ensures TrimStart(pad + x) == x
  {
    if pad == [] {
      assert pad + x == x;
    } else {
      assert (pad + x)[1..] == pad[1..] + x;
      TrimStartPad(pad[1..], x);
    }
  }

  /** Text that separates a numeral ends it where it is placed. */
  lemma SeparatedAt(s: string, e: nat)
    requires e <= |s| && Separates(s[e..])
    ensures EndsAt(s, e) && NoDigitAfterSpaces(s, e)
  {
    var rest := s[e..];
    if e < |s| {
      assert rest[0] == s[e];
    }
    SpaceRunTrimStart(s, e);
    var k := e + SpaceRun(s, e);
    if k < |s| {
      assert TrimStart(rest)[0] == s[k];
    }
  }

  // ---------------------------------------------------------------------
  // Reading digits in place

  /** Reading digits in place is reading the substring they form. */
  lemma {:induction false} DigitsInSlice(s: string, lo: nat, hi: nat)
    requires lo <= hi <= |s|
    ensures DigitsIn(s, lo, hi) == DigitsValue(s[lo..hi])
    decreases hi - lo
  {
    if lo < hi {
      DigitsInSlice(s, lo, hi - 1);
      assert s[lo..hi][..hi - lo - 1] == s[lo..hi - 1];
      assert s[lo..hi][hi - lo - 1] == s[hi - 1];
    }
  }

  /** Where the pieces of a decimal numeral `r`, that is `x` or `x.f`, sit. */
  lemma DecimalPlaced(s: string, i: nat, r: string, x: string, f: string)
    requires r == if f == [] then x else x + "." + f
    requires i + |r| <= |s| && s[i..i + |r|] == r && EndsAt(s, i + |r|) && NoDigitAfterSpaces(s, i + |r|)
    ensures |r| == DecimalSpan(|x|, |f|) && i + DecimalSpan(|x|, |f|) <= |s|
    ensures s[i..i + |x|] == x
    ensures f != [] ==> s[i + |x|] == '.' && s[i + |x| + 1..i + |x| + 1 + |f|] == f
    ensures EndsAt(s, i + DecimalSpan(|x|, |f|)) && NoDigitAfterSpaces(s, i + DecimalSpan(|x|, |f|))
  {
    if f != [] {
      assert s[i..i + |x|] == r[..|x|];
      assert s[i + |x|] == r[|x|];
      assert s[i + |x| + 1..i + |x| + 1 + |f|] == r[|x| + 1..];
    }
  }

  /** Where the pieces of a fraction `r`, that is `x/y`, sit. */
  lemma FractionPlaced(s: string, i: nat, r: string, x: string, y: string)
    requires r == x + "/" + y
    requires i + |r| <= |s| && s[i..i + |r|] == r && EndsAt(s, i + |r|)
    ensures |r| == |x| + 1 + |y| && i + |x| + 1 + |y| <= |s|
    ensures s[i..i + |x|] == x && s[i + |x|] == '/' && s[i + |x| + 1..i + |x| + 1 + |y|] == y
    ensures EndsAt(s, i + |x| + 1 + |y|)
  {
    assert s[i..i + |x|] == r[..|x|];
    assert s[i + |x|] == r[|x|];
    assert s[i + |x| + 1..i + |x| + 1 + |y|] == r[|x| + 1..];
  }

  /** Where the pieces of a mixed number `r`, that is `x y/z`, sit. */
  lemma MixedPlaced(s: string, i: nat, r: string, x: string, y: string, z: string)
    requires r == x + " " + y + "/" + z
    requires i + |r| <= |s| && s[i..i + |r|] == r && EndsAt(s, i + |r|)
    ensures |r| == |x| + 2 + |y| + |z| && i + |x| + 2 + |y| + |z| <= |s|
    ensures s[i..i + |x|] == x && s[i + |x|] == ' '
    ensures s[i + |x| + 1..i + |x| + 1 + |y|] == y && s[i + |x| + 1 + |y|] == '/'
    ensures s[i + |x| + 2 + |y|..i + |x| + 2 + |y| + |z|] == z
    ensures EndsAt(s, i + |x| + 2 + |y| + |z|)
  {
    var u := x + " " + y;
    assert s[i..i + |u|] == r[..|u|] == u;
    assert s[i..i + |x|] == u[..|x|];
    assert s[i + |x|] == u[|x|];
    assert s[i + |x| + 1..i + |x| + 1 + |y|] == u[|x| + 1..];
    assert s[i + |u|] == r[|u|];
    assert s[i + |u| + 1..i + |r|] == r[|u| + 1..];
  }

  // ---------------------------------------------------------------------
  // A numeral in place, as plain facts about the text

  /** The length of `\d+(?:\.\d+)?` with `a` digits, then a dot and `f`
      digits when `f > 0`. */
  function DecimalSpan(a: nat, f: nat): nat {
    if f == 0 then a else a + 1 + f
  }

  /** Digits `s[i..i+a]`, then, when `f > 0`, a dot and `f` more digits. */
  predicate DecimalParts(s: string, i: nat, a: nat, f: nat) {
    0 < a && i + a <= |s| && DigitsBetween(s, i, i + a)
    && (f > 0 ==> i + a + 1 + f <= |s| && s[i + a] == '.' && DigitsBetween(s, i + a + 1, i + a + 1 + f))
  }

  /** The decimal numeral with whole part `w` and digits after the dot worth
      `fv` sits at `i` and ends there. */
  predicate DecimalAt(s: string, i: nat, a: nat, f: nat, w: nat, fv: nat) {
    DecimalParts(s, i, a, f) && EndsAt(s, i + DecimalSpan(a, f)) && NoDigitAfterSpaces(s, i + DecimalSpan(a, f))
    && DigitsIn(s, i, i + a) == w && (f > 0 ==> DigitsIn(s, i + a + 1, i + a + 1 + f) == fv)
  }

  /** Digits `s[i..i+a]`, a slash, and `b` more digits. */
  predicate FractionParts(s: string, i: nat, a: nat, b: nat) {
    0 < a && 0 < b && i + a + 1 + b <= |s| && DigitsBetween(s, i, i + a) && s[i + a] == '/'
    && DigitsBetween(s, i + a + 1, i + a + 1 + b)
  }

  /** The fraction `n/d` sits at `i` and ends there. */
  predicate FractionAt(s: string, i: nat, a: nat, b: nat, n: nat, d: nat) {
    FractionParts(s, i, a, b) && EndsAt(s, i + a + 1 + b)
    && DigitsIn(s, i, i + a) == n && DigitsIn(s, i + a + 1, i + a + 1 + b) == d
  }

  /** Digits `s[i..i+a]`, one space, `b` digits, a slash, `c` digits. */
  predicate MixedParts(s: string, i: nat, a: nat, b: nat, c: nat) {
    0 < a && 0 < b && 0 < c && i + a + 2 + b + c <= |s| && DigitsBetween(s, i, i + a) && s[i + a] == ' '
    && DigitsBetween(s, i + a + 1, i + a + 1 + b) && s[i + a + 1 + b] == '/'
    && DigitsBetween(s, i + a + 2 + b, i + a + 2 + b + c)
  }

  /** The mixed number `w n/d` sits at `i` and ends there. */
  predicate MixedAt(s: string, i: nat, a: nat, b: nat, c: nat, w: nat, n: nat, d: nat) {
    MixedParts(s, i, a, b, c) && EndsAt(s, i + a + 2 + b + c)
    && DigitsIn(s, i, i + a) == w && DigitsIn(s, i + a + 1, i + a + 1 + b) == n
    && DigitsIn(s, i + a + 2 + b, i + a + 2 + b + c) == d
  }

  /** The pieces of `x.f`, or of `x` alone when `f` is empty, read in place. */
  lemma DecimalIn(s: string, i: nat, x: string, f: string)
    requires 0 < |x| && AllDigits(x) && AllDigits(f) && i + DecimalSpan(|x|, |f|) <= |s|
    requires s[i..i + |x|] == x
    requires f != [] ==> s[i + |x|] == '.' && s[i + |x| + 1..i + |x| + 1 + |f|] == f
    requires EndsAt(s, i + DecimalSpan(|x|, |f|)) && NoDigitAfterSpaces(s, i + DecimalSpan(|x|, |f|))
    ensures DecimalAt(s, i, |x|, |f|, DigitsValue(x), DigitsValue(f))
  {
    DecimalPartsIn(s, i, x, f);
    DecimalValuesIn(s, i, x, f);
  }

  lemma DecimalValuesIn(s: string, i: nat, x: string, f: string)
    requires i + DecimalSpan(|x|, |f|) <= |s|
    requires s[i..i + |x|] == x
    requires f != [] ==> s[i + |x| + 1..i + |x| + 1 + |f|] == f
    ensures DigitsIn(s, i, i + |x|) == DigitsValue(x)
    ensures f != [] ==> DigitsIn(s, i + |x| + 1, i + |x| + 1 + |f|) == DigitsValue(f)
  {
    DigitsInSlice(s, i, i + |x|);
    if f != [] {
      DigitsInSlice(s, i + |x| + 1, i + |x| + 1 + |f|);
    }
  }

  lemma DecimalPartsIn(s: string, i: nat, x: string, f: string)
    requires 0 < |x| && AllDigits(x) && AllDigits(f) && i + DecimalSpan(|x|, |f|) <= |s|
    requires s[i..i + |x|] == x
    requires f != [] ==> s[i + |x|] == '.' && s[i + |x| + 1..i + |x| + 1 + |f|] == f
    ensures DecimalParts(s, i, |x|, |f|)
  {
    DigitsPlaced(s, i, x);
    if f != [] {
      DigitsPlaced(s, i + |x| + 1, f);
    }
  }

  /** The pieces of `x/y` read in place. */
  lemma FractionIn(s: string, i: nat, x: string, y: string)
    requires 0 < |x| && 0 < |y| && AllDigits(x) && AllDigits(y) && i + |x| + 1 + |y| <= |s|
    requires s[i..i + |x|] == x && s[i + |x|] == '/' && s[i + |x| + 1..i + |x| + 1 + |y|] == y
    requires EndsAt(s, i + |x| + 1 + |y|)
    ensures FractionAt(s, i, |x|, |y|, DigitsValue(x), DigitsValue(y))
  {
    FractionPartsIn(s, i, x, y);
    FractionValuesIn(s, i, x, y);
  }

  lemma FractionValuesIn(s: string, i: nat, x: string, y: string)
    requires i + |x| + 1 + |y| <= |s|
    requires s[i..i + |x|] == x && s[i + |x| + 1..i + |x| + 1 + |y|] == y
    ensures DigitsIn(s, i, i + |x|) == DigitsValue(x)
    ensures DigitsIn(s, i + |x| + 1, i + |x| + 1 + |y|) == DigitsValue(y)
  {
    DigitsInSlice(s, i, i + |x|);
    DigitsInSlice(s, i + |x| + 1, i + |x| + 1 + |y|);
  }

  lemma FractionPartsIn(s: string, i: nat, x: string, y: string)
    requires 0 < |x| && 0 < |y| && AllDigits(x) && AllDigits(y) && i + |x| + 1 + |y| <= |s|
    requires s[i..i + |x|] == x && s[i + |x|] == '/' && s[i + |x| + 1..i + |x| + 1 + |y|] == y
    ensures FractionParts(s, i, |x|, |y|)
  {
    DigitsPlaced(s, i, x);
    DigitsPlaced(s, i + |x| + 1, y);
  }

  /** The pieces of `x y/z` read in place. */
  lemma MixedIn(s: string, i: nat, x: string, y: string, z: string)
    requires 0 < |x| && 0 < |y| && 0 < |z| && AllDigits(x) && AllDigits(y) && AllDigits(z)
    requires i + |x| + 2 + |y| + |z| <= |s|
    requires s[i..i + |x|] == x && s[i + |x|] == ' '
    requires s[i + |x| + 1..i + |x| + 1 + |y|] == y && s[i + |x| + 1 + |y|] == '/'
    requires s[i + |x| + 2 + |y|..i + |x| + 2 + |y| + |z|] == z
    requires EndsAt(s, i + |x| + 2 + |y| + |z|)
    ensures MixedAt(s, i, |x|, |y|, |z|, DigitsValue(x), DigitsValue(y), DigitsValue(z))
  {
    MixedPartsIn(s, i, x, y, z);
    MixedValuesIn(s, i, x, y, z);
  }

  lemma MixedPartsIn(s: string, i: nat, x: string, y: string, z: string)
    requires 0 < |x| && 0 < |y| && 0 < |z| && AllDigits(x) && AllDigits(y) && AllDigits(z)
    requires i + |x| + 2 + |y| + |z| <= |s|
    requires s[i..i + |x|] == x && s[i + |x|] == ' '
    requires s[i + |x| + 1..i + |x| + 1 + |y|] == y && s[i + |x| + 1 + |y|] == '/'
    requires s[i + |x| + 2 + |y|..i + |x| + 2 + |y| + |z|] == z
    ensures MixedParts(s, i, |x|, |y|, |z|)
  {
    DigitsPlaced(s, i, x);
    DigitsPlaced(s, i + |x| + 1, y);
    DigitsPlaced(s, i + |x| + 2 + |y|, z);
  }

  lemma MixedValuesIn(s: string, i: nat, x: string, y: string, z: string)
    requires i + |x| + 2 + |y| + |z| <= |s|
    requires s[i..i + |x|] == x
    requires s[i + |x| + 1..i + |x| + 1 + |y|] == y
    requires s[i + |x| + 2 + |y|..i + |x| + 2 + |y| + |z|] == z
    ensures DigitsIn(s, i, i + |x|) == DigitsValue(x)
    ensures DigitsIn(s, i + |x| + 1, i + |x| + 1 + |y|) == DigitsValue(y)
    ensures DigitsIn(s, i + |x| + 2 + |y|, i + |x| + 2 + |y| + |z|) == DigitsValue(z)
  {
    DigitsInSlice(s, i, i + |x|);
    DigitsInSlice(s, i + |x| + 1, i + |x| + 1 + |y|);
    DigitsInSlice(s, i + |x| + 2 + |y|, i + |x| + 2 + |y| + |z|);
  }

  lemma DecimalLayout(s: string, i: nat, w: string, f: string)
    requires TokenAt(s, i, Decimal(w, f))
    ensures DecimalAt(s, i, |w|, |f|, DigitsValue(w), DigitsValue(f))
    ensures |Render(Decimal(w, f))| == DecimalSpan(|w|, |f|)
  {
    DecimalPlaced(s, i, Render(Decimal(w, f)), w, f);
    DecimalIn(s, i, w, f);
  }

  lemma FractionLayout(s: string, i: nat, n: string, d: string)
    requires TokenAt(s, i, Fraction(n, d))
    ensures FractionAt(s, i, |n|, |d|, DigitsValue(n), DigitsValue(d))
    ensures |Render(Fraction(n, d))| == |n| + 1 + |d|
  {
    FractionPlaced(s, i, Render(Fraction(n, d)), n, d);
    FractionIn(s, i, n, d);
  }

  lemma MixedLayout(s: string, i: nat, w: string, n: string, d: string)
    requires TokenAt(s, i, Mixed(w, n, d))
    ensures MixedAt(s, i, |w|, |n|, |d|, DigitsValue(w), DigitsValue(n), DigitsValue(d))
    ensures |Render(Mixed(w, n, d))| == |w| + 2 + |n| + |d|
  {
    MixedPlaced(s, i, Render(Mixed(w, n, d)), w, n, d);
    MixedIn(s, i, w, n, d);
  }

  // ---------------------------------------------------------------------
  // How the scanners read a numeral, given where its parts sit

  lemma DecimalEndOf(s: string, i: nat, a: nat, f: nat)
    requires DecimalParts(s, i, a, f) && EndsAt(s, i + DecimalSpan(a, f))
    ensures DigitRun(s, i) == a
    ensures DecimalEnd(s, i) == i + DecimalSpan(a, f)
  {
    DigitRunIs(s, i, a);
    if f != 0 {
      DigitRunIs(s, i + a + 1, f);
    }
  }

  lemma DecimalScans(s: string, i: nat, a: nat, f: nat)
    requires DecimalParts(s, i, a, f) && EndsAt(s, i + DecimalSpan(a, f))
    requires NoDigitAfterSpaces(s, i + DecimalSpan(a, f))
    ensures GreedyTokenEnd(s, i) == i + DecimalSpan(a, f)
    ensures FractionTokenEnd(s, i).None?
  {
    var e := i + DecimalSpan(a, f);
    DecimalEndOf(s, i, a, f);
    DigitRunIs(s, e + SpaceRun(s, e), 0);
  }

  lemma DecimalValueOf(s: string, i: nat, a: nat, f: nat)
    requires DecimalParts(s, i, a, f) && EndsAt(s, i + DecimalSpan(a, f))
    ensures DecimalValueAt(s, i) == DigitsIn(s, i, i + a) as real
      + if f == 0 then 0.0 else Ratio(DigitsIn(s, i + a + 1, i + a + 1 + f), Pow10(f))
  {
    DecimalEndOf(s, i, a, f);
  }

  lemma FractionEndOf(s: string, i: nat, a: nat, b: nat)
    requires FractionParts(s, i, a, b) && EndsAt(s, i + a + 1 + b)
    ensures DigitRun(s, i) == a
    ensures DecimalEnd(s, i) == i + a
    ensures SpaceRun(s, i + a) == 0
    ensures DigitRun(s, i + a + 1) == b
  {
    DigitRunIs(s, i, a);
    DigitRunIs(s, i + a + 1, b);
    SpaceRunIs(s, i + a, 0);
  }

  lemma FractionScans(s: string, i: nat, a: nat, b: nat)
    requires FractionParts(s, i, a, b) && EndsAt(s, i + a + 1 + b)
    ensures GreedyTokenEnd(s, i) == i + a
    ensures FractionTokenEnd(s, i) == Some(i + a + 1 + b)
    ensures DecimalValueAt(s, i) == DigitsIn(s, i, i + a) as real
  {
    FractionEndOf(s, i, a, b);
  }

  lemma MixedEndOf(s: string, i: nat, a: nat, b: nat, c: nat)
    requires MixedParts(s, i, a, b, c) && EndsAt(s, i + a + 2 + b + c)
    ensures DigitRun(s, i) == a
    ensures DecimalEnd(s, i) == i + a
    ensures SpaceRun(s, i + a) == 1
    ensures DigitRun(s, i + a + 1) == b
    ensures DigitRun(s, i + a + 2 + b) == c
  {
    DigitRunIs(s, i, a);
    assert IsDigit(s[i + a + 1]);
    SpaceRunIs(s, i + a, 1);
    DigitRunIs(s, i + a + 1, b);
    DigitRunIs(s, i + a + 2 + b, c);
  }

  lemma MixedScans(s: string, i: nat, a: nat, b: nat, c: nat)
    requires MixedParts(s, i, a, b, c) && EndsAt(s, i + a + 2 + b + c)
    ensures GreedyTokenEnd(s, i) == i + a + 2 + b + c
    ensures FractionTokenEnd(s, i).None?
    ensures DecimalValueAt(s, i) == DigitsIn(s, i, i + a) as real
  {
    MixedEndOf(s, i, a, b, c);
  }

  // ---------------------------------------------------------------------
  // The anchored patterns on a numeral at the start of the text

  lemma ScanDecimal(s: string, a: nat, f: nat)
    requires DecimalParts(s, 0, a, f)
    requires EndsAt(s, DecimalSpan(a, f)) && NoDigitAfterSpaces(s, DecimalSpan(a, f))
    ensures ScanMixed(s).None? && ScanFraction(s).None?
  {
    DecimalEndOf(s, 0, a, f);
    if f != 0 {
      SpaceRunIs(s, a, 0);
    } else {
      DigitRunIs(s, a + SpaceRun(s, a), 0);
    }
  }

  lemma ScanFractionParts(s: string, a: nat, b: nat)
    requires FractionParts(s, 0, a, b) && EndsAt(s, a + 1 + b)
    ensures ScanMixed(s).None?
    ensures ScanFraction(s) == Some(FractionScan(DigitsIn(s, 0, a), DigitsIn(s, a + 1, a + 1 + b), a, a + 1 + b))
  {
    FractionEndOf(s, 0, a, b);
  }

  lemma ScanMixedParts(s: string, a: nat, b: nat, c: nat)
    requires MixedParts(s, 0, a, b, c) && EndsAt(s, a + 2 + b + c)
    ensures ScanFraction(s).None?
    ensures ScanMixed(s) == Some(MixedScan(DigitsIn(s, 0, a), DigitsIn(s, a + 1, a + 1 + b),
      DigitsIn(s, a + 2 + b, a + 2 + b + c), a, a + 2 + b + c))
  {
    MixedEndOf(s, 0, a, b, c);
    ScanMixedIs(s, a, b, c);
  }

  lemma ScanMixedIs(s: string, a: nat, b: nat, c: nat)
    requires DigitRun(s, 0) == a && 0 < a && SpaceRun(s, a) == 1 && DigitRun(s, a + 1) == b && 0 < b
    requires a + 1 + b < |s| && s[a + 1 + b] == '/' && DigitRun(s, a + 2 + b) == c && 0 < c
    ensures ScanMixed(s) == Some(MixedScan(DigitsIn(s, 0, a), DigitsIn(s, a + 1, a + 1 + b),
      DigitsIn(s, a + 2 + b, a + 2 + b + c), a, a + 2 + b + c))
  {
  }

  lemma QuantityAtDecimal(s: string, a: nat, f: nat, e: nat, w: nat, fv: nat)
    requires DecimalAt(s, 0, a, f, w, fv) && e == DecimalSpan(a, f)
    ensures QuantityAt(s) == Some(Quantity(DecimalValue(w, fv, f), e))
  {
    ScanDecimal(s, a, f);
    DecimalEndOf(s, 0, a, f);
    DecimalValueOf(s, 0, a, f);
  }

  lemma QuantityAtFraction(s: string, a: nat, b: nat, e: nat, n: nat, d: nat)
    requires FractionAt(s, 0, a, b, n, d) && e == a + 1 + b
    ensures QuantityAt(s) == FractionReading(n, d, a, e)
  {
    ScanFractionParts(s, a, b);
    FractionScans(s, 0, a, b);
  }

  lemma QuantityAtMixed(s: string, a: nat, b: nat, c: nat, e: nat, w: nat, n: nat, d: nat)
    requires MixedAt(s, 0, a, b, c, w, n, d) && e == a + 2 + b + c
    ensures QuantityAt(s) == MixedReading(w, n, d, a, e)
  {
    ScanMixedParts(s, a, b, c);
    MixedScans(s, 0, a, b, c);
  }

  // ---------------------------------------------------------------------
  // Reading a numeral

  /** A fraction `n/d` whose numerator has `a` digits and which ends at `e`
      reads as its value, or, over zero, as its numerator up to the slash. */
  function FractionReading(n: nat, d: nat, a: nat, e: nat): Option<Quantity> {
    if d != 0 then Some(Quantity(Ratio(n, d), e)) else Some(Quantity(n as real, a))
  }

  /** A mixed number `w n/d` whose whole part has `a` digits and which ends
      at `e` reads as its value, or, over zero, as its whole part. */
  function MixedReading(w: nat, n: nat, d: nat, a: nat, e: nat): Option<Quantity> {
    if d != 0 then Some(Quantity(w as real + Ratio(n, d), e)) else Some(Quantity(w as real, a))
  }

  /** What reading the numeral `t` after `pad` characters of white space
      gives: its value and the length up to its end, or, for a fraction over
      zero, its leading number and the length up to the slash. */
  function Reading(t: Token, pad: nat): Option<Quantity> {
    if NonZeroDen(t) then Some(Quantity(Amount(t), pad + |Render(t)|))
    else Some(Quantity(DigitsValue(Lead(t)) as real, pad + |Lead(t)|))
  }

  /** The patterns of `parseLeadingQuantity` read a numeral at the start of
      `s` as its value, up to its end; a fraction over zero falls through to
      the decimal pattern, which reads its leading number. */
  lemma QuantityAtToken(s: string, t: Token)
    requires TokenAt(s, 0, t)
    ensures QuantityAt(s) == Reading(t, 0)
  {
    match t
    case Decimal(w, f) => QuantityAtDecimalToken(s, w, f);
    case Fraction(n, d) => QuantityAtFractionToken(s, n, d);
    case Mixed(w, n, d) => QuantityAtMixedToken(s, w, n, d);
  }

  lemma QuantityAtDecimalToken(s: string, w: string, f: string)
    requires TokenAt(s, 0, Decimal(w, f))
    ensures QuantityAt(s) == Reading(Decimal(w, f), 0)
  {
    DecimalLayout(s, 0, w, f);
    QuantityAtDecimal(s, |w|, |f|, |Render(Decimal(w, f))|, DigitsValue(w), DigitsValue(f));
  }

  lemma QuantityAtFractionToken(s: string, n: string, d: string)
    requires TokenAt(s, 0, Fraction(n, d))
    ensures QuantityAt(s) == Reading(Fraction(n, d), 0)
  {
    FractionReadingIs(n, d);
    FractionLayout(s, 0, n, d);
    QuantityAtFraction(s, |n|, |d|, |Render(Fraction(n, d))|, DigitsValue(n), DigitsValue(d));
  }

  lemma FractionReadingIs(n: string, d: string)
    ensures Reading(Fraction(n, d), 0)
      == FractionReading(DigitsValue(n), DigitsValue(d), |n|, |Render(Fraction(n, d))|)
  {
  }

  lemma QuantityAtMixedToken(s: string, w: string, n: string, d: string)
    requires TokenAt(s, 0, Mixed(w, n, d))
    ensures QuantityAt(s) == Reading(Mixed(w, n, d), 0)
  {
    MixedReadingIs(w, n, d);
    MixedLayout(s, 0, w, n, d);
    QuantityAtMixed(s, |w|, |n|, |d|, |Render(Mixed(w, n, d))|, DigitsValue(w), DigitsValue(n), DigitsValue(d));
  }

  lemma MixedReadingIs(w: string, n: string, d: string)
    ensures Reading(Mixed(w, n, d), 0)
      == MixedReading(DigitsValue(w), DigitsValue(n), DigitsValue(d), |w|, |Render(Mixed(w, n, d))|)
  {
  }

  /** A numeral followed by text that separates it is a token at the start. */
  lemma Placed(t: Token, rest: string)
    requires ValidToken(t) && Separates(rest)
    ensures TokenAt(Render(t) + rest, 0, t) && StartsWithDigit(Render(t) + rest)
  {
    var r := Render(t);
    var s := r + rest;
    assert s[0..|r|] == r;
    assert s[|r|..] == rest;
    SeparatedAt(s, |r|);
    var x := Lead(t);
    assert s[0] == x[0];
  }

  /** `parseLeadingQuantity` reads back a numeral written after white space
      and before text that separates it: its value, and the length up to its
      end. A fraction over zero is read only up to the slash. */
  lemma ParseQuantityRoundTrip(pad: string, t: Token, rest: string)
    requires AllSpaces(pad) && ValidToken(t) && Separates(rest)
    ensures ParseLeadingQuantity(pad + (Render(t) + rest)) == Reading(t, |pad|)
  {
    QuantityAtPlaced(t, rest);
    ParseAfterPad(pad, Render(t) + rest);
    ReadingShifted(t, |pad|);
  }

  lemma ReadingShifted(t: Token, pad: nat)
    ensures Shifted(Reading(t, 0), pad) == Reading(t, pad)
  {
  }

  lemma QuantityAtPlaced(t: Token, rest: string)
    requires ValidToken(t) && Separates(rest)
    ensures StartsWithDigit(Render(t) + rest)
    ensures QuantityAt(Render(t) + rest) == Reading(t, 0)
  {
    Placed(t, rest);
    QuantityAtToken(Render(t) + rest, t);
  }

  /** Leading white space only moves where the quantity ends. */
  lemma ParseAfterPad(pad: string, s: string)
    requires AllSpaces(pad) && StartsWithDigit(s)
    ensures ParseLeadingQuantity(pad + s) == Shifted(QuantityAt(s), |pad|)
  {
    TrimStartPad(pad, s);
    assert |pad + s| - |TrimStart(pad + s)| == |pad|;
  }

  // ---------------------------------------------------------------------
  // tokenToNumber

  lemma TokenValueDecimal(s: string, a: nat, f: nat, w: nat, fv: nat)
    requires DecimalAt(s, 0, a, f, w, fv) && |s| == DecimalSpan(a, f)
    ensures TokenValue(s) == DecimalValue(w, fv, f)
  {
    SpaceRunIs(s, |s|, 0);
    ScanDecimal(s, a, f);
    DecimalValueOf(s, 0, a, f);
  }

  lemma TokenValueFraction(s: string, a: nat, b: nat, n: nat, d: nat)
    requires FractionAt(s, 0, a, b, n, d) && |s| == a + 1 + b
    ensures TokenValue(s) == Ratio(n, d)
  {
    ScanFractionParts(s, a, b);
  }

  lemma TokenValueMixed(s: string, a: nat, b: nat, c: nat, w: nat, n: nat, d: nat)
    requires MixedAt(s, 0, a, b, c, w, n, d) && |s| == a + 2 + b + c
    ensures TokenValue(s) == w as real + Ratio(n, d)
  {
    ScanMixedParts(s, a, b, c);
  }

  /** `tokenToNumber` of a numeral is its value. */
  lemma TokenValueRender(t: Token)
    requires ValidToken(t)
    ensures StartsWithDigit(Render(t))
    ensures TokenValue(Render(t)) == Amount(t)
  {
    var r := Render(t);
    Placed(t, []);
    assert r + [] == r;
    match t
    case Decimal(w, f) =>
      DecimalLayout(r, 0, w, f);
      TokenValueDecimal(r, |w|, |f|, DigitsValue(w), DigitsValue(f));
    case Fraction(n, d) =>
      FractionLayout(r, 0, n, d);
      TokenValueFraction(r, |n|, |d|, DigitsValue(n), DigitsValue(d));
    case Mixed(w, n, d) =>
      MixedLayout(r, 0, w, n, d);
      TokenValueMixed(r, |w|, |n|, |d|, DigitsValue(w), DigitsValue(n), DigitsValue(d));
  }
}
