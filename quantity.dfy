/** The ingredient-quantity helpers of the recipe page
    (apps/web/src/pages/RecipeDetails.tsx): reading a leading quantity or
    range from an ingredient line, rendering a scaled number with at most two
    decimals, and rescaling every line of a recipe.

    The regular expressions of the source are written out as scanners over
    the string. Each scanner follows the greedy path of its pattern; for
    these patterns no backtracking path can succeed where the greedy one
    fails, because every quantifier stops at a character the next element of
    the pattern cannot match. Quantities are exact `real` numbers. */
module Quantity {
  import opened Common
  import opened Text

  /** A parsed single quantity: its value and how many characters of the
      text it covers, leading white space included. */
  datatype Quantity = Quantity(value: real, length: nat)

  /** A parsed range `a-b`: both ends and the characters covered. */
  datatype Range = Range(a: real, b: real, length: nat)

  predicate StartsWithDigit(s: string) {
    s != [] && IsDigit(s[0])
  }

  predicate IsDash(c: char) {
    c == '-' || c == '\U{2013}'
  }

  function Pow10(k: nat): (p: nat)
    ensures p >= 1
  {
    if k == 0 then 1 else 10 * Pow10(k - 1)
  }

  /** The quotient `n / d` of two parsed integers; the callers that may meet
      a zero divisor count the fraction as 0. */
  function Ratio(n: nat, d: nat): (r: real)
    ensures d != 0 ==> r * d as real == n as real
    ensures d == 0 ==> r == 0.0
    ensures r >= 0.0
  {
    if d == 0 then 0.0 else n as real / d as real
  }

  // ---------------------------------------------------------------------
  // Scanners

  /** The length of the run of digits starting at `i` (greedy `\d*`). */
  function DigitRun(s: string, i: nat): (n: nat)
    requires i <= |s|
    ensures i + n <= |s|
    ensures i + n == |s| || !IsDigit(s[i + n])
    ensures n > 0 ==> IsDigit(s[i + n - 1])
    decreases |s| - i
  {
    if i < |s| && IsDigit(s[i]) then 1 + DigitRun(s, i + 1) else 0
  }

  /** The length of the run of white space starting at `i` (greedy `\s*`). */
  function SpaceRun(s: string, i: nat): (n: nat)
    requires i <= |s|
    ensures i + n <= |s|
    ensures i + n == |s| || !IsSpace(s[i + n])
    decreases |s| - i
  {
    if i < |s| && IsSpace(s[i]) then 1 + SpaceRun(s, i + 1) else 0
  }

  /** `\b` at position `p`: a word character on exactly one side. */
  predicate AtWordBoundary(s: string, p: nat)
    requires p <= |s|
  {
    (p > 0 && IsWordChar(s[p - 1])) != (p < |s| && IsWordChar(s[p]))
  }

  /** The closing group `(\b|[^0-9x])` of a pattern, where `x` is the one
      further character the class excludes. Whichever alternative matches,
      the source subtracts that group's length again, so the consumed length
      is the position before it. */
  predicate Terminates(s: string, p: nat, x: char)
    requires p <= |s|
  {
    AtWordBoundary(s, p) || (p < |s| && !IsDigit(s[p]) && s[p] != x)
  }

  /** The greedy end of `\d+(?:\.\d+)?` starting at a digit. */
  function DecimalEnd(s: string, i: nat): (e: nat)
    requires i < |s| && IsDigit(s[i])
    ensures i < e <= |s|
    ensures e == |s| || !IsDigit(s[e])
  {
    var p := i + DigitRun(s, i);
    if p < |s| && s[p] == '.' && DigitRun(s, p + 1) > 0 then p + 1 + DigitRun(s, p + 1) else p
  }

  /** `parseInt` of the digits `s[lo..hi]`, read where they stand (exactly,
      without the precision limit of a double). */
  function DigitsIn(s: string, lo: nat, hi: nat): nat
    requires lo <= hi <= |s|
    decreases hi - lo
  {
    if lo == hi then 0 else DigitsIn(s, lo, hi - 1) * 10 + DigitOf(s[hi - 1])
  }

  /** `parseFloat` of the decimal numeral `\d+(?:\.\d+)?` found greedily at `i`. */
  function DecimalValueAt(s: string, i: nat): real
    requires i < |s| && IsDigit(s[i])
  {
    var p := i + DigitRun(s, i);
    var e := DecimalEnd(s, i);
    DigitsIn(s, i, p) as real + if e == p then 0.0 else Ratio(DigitsIn(s, p + 1, e), Pow10(e - p - 1))
  }

  /** The parts of `\d+\s+\d+\/\d+` at the start of `s`, scanned greedily:
      the three numbers and where the denominator ends. */
  datatype MixedScan = MixedScan(whole: nat, num: nat, den: nat, wholeLen: nat, end: nat)

  function ScanMixed(s: string): (r: Option<MixedScan>)
    ensures r.Some? ==> 0 < r.value.wholeLen < r.value.end <= |s|
    ensures r.Some? ==> r.value.end == |s| || !IsDigit(s[r.value.end])
  {
    var d1 := DigitRun(s, 0);
    var w := if d1 == 0 then 0 else SpaceRun(s, d1);
    if d1 == 0 || w == 0 then None
    else
      var d2 := DigitRun(s, d1 + w);
      var p := d1 + w + d2;
      if d2 == 0 || p == |s| || s[p] != '/' then None
      else
        var d3 := DigitRun(s, p + 1);
        if d3 == 0 then None
        else
          Some(MixedScan(DigitsIn(s, 0, d1), DigitsIn(s, d1 + w, p), DigitsIn(s, p + 1, p + 1 + d3), d1, p + 1 + d3))
  }

  /** The parts of `\d+\/\d+` at the start of `s`, scanned greedily. */
  datatype FractionScan = FractionScan(num: nat, den: nat, numLen: nat, end: nat)

  function ScanFraction(s: string): (r: Option<FractionScan>)
    ensures r.Some? ==> 0 < r.value.numLen < r.value.end <= |s|
    ensures r.Some? ==> r.value.end == |s| || !IsDigit(s[r.value.end])
  {
    var d1 := DigitRun(s, 0);
    if d1 == 0 || d1 == |s| || s[d1] != '/' then None
    else
      var d2 := DigitRun(s, d1 + 1);
      if d2 == 0 then None
      else
        Some(FractionScan(DigitsIn(s, 0, d1), DigitsIn(s, d1 + 1, d1 + 1 + d2), d1, d1 + 1 + d2))
  }

  // ---------------------------------------------------------------------
  // parseLeadingQuantity

  /** `/^(\d+)\s+(\d+)\/(\d+)(\b|[^0-9/])/` */
  function MatchMixed(s: string): Option<MixedScan>
  {
    var m := ScanMixed(s);
    if m.Some? && Terminates(s, m.value.end, '/') then m else None
  }

  /** `/^(\d+)\/(\d+)(\b|[^0-9/])/` */
  function MatchFraction(s: string): Option<FractionScan>
  {
    var m := ScanFraction(s);
    if m.Some? && Terminates(s, m.value.end, '/') then m else None
  }

  /** `/^(\d+(?:\.\d+)?)(\b|[^0-9.])/`: the value and the end of the numeral. */
  function MatchDecimal(s: string): Option<Quantity>
  {
    if StartsWithDigit(s) && Terminates(s, DecimalEnd(s, 0), '.') then
      Some(Quantity(DecimalValueAt(s, 0), DecimalEnd(s, 0)))
    else None
  }

  /** `/^(\d+(?:\.\d+)?)$/`: the whole string is one numeral. */
  function MatchWhole(s: string): Option<Quantity>
  {
    if StartsWithDigit(s) && DecimalEnd(s, 0) == |s| then Some(Quantity(DecimalValueAt(s, 0), |s|)) else None
  }

  /** `parseLeadingQuantity(text)`: after the leading white space, a mixed
      number, else a fraction, else a decimal, else the whole remaining text
      as a numeral; a zero denominator makes its pattern fall through to the
      next one. The consumed length counts the leading white space and stops
      before the terminating character. (`parseFloat` of a matched numeral is
      never NaN, so the source's NaN tests never fire.) */
  function ParseLeadingQuantity(text: string): (r: Option<Quantity>)
    ensures r.Some? ==> r.value.length <= |text|
  {
    var s := TrimStart(text);
    Shifted(QuantityAt(s), |text| - |s|)
  }

  /** What `parseLeadingQuantity` consumes: white space, then a numeral that
      starts with a digit and is not followed by one; nothing when the text
      after the white space does not start with a digit. */
  lemma ParseLeadingQuantityShape(text: string)
    ensures ParseLeadingQuantity(text).None? <==> !StartsWithDigit(TrimStart(text))
    ensures var r := ParseLeadingQuantity(text); var pad := |text| - |TrimStart(text)|;
      r.Some? ==>
        pad < r.value.length <= |text| && AllSpaces(text[..pad]) && IsDigit(text[pad])
        && (r.value.length == |text| || !IsDigit(text[r.value.length]))
  {
    var s := TrimStart(text);
    var pad := |text| - |s|;
    TrimStartSplits(text);
    QuantityAtShape(s);
    if QuantityAt(s).Some? {
      var q := QuantityAt(s).value;
      assert text[pad] == s[0];
      if pad + q.length < |text| {
        assert text[pad + q.length] == s[q.length];
      }
    }
  }

  /** A quantity found after `pad` characters of white space. */
  function Shifted(q: Option<Quantity>, pad: nat): Option<Quantity> {
    match q
    case None => None
    case Some(q) => Some(Quantity(q.value, pad + q.length))
  }

  /** The patterns of `parseLeadingQuantity`, tried in order on the text
      after its leading white space. */
  function QuantityAt(s: string): (r: Option<Quantity>)
    ensures r.Some? ==> 0 < r.value.length <= |s|
  {
    var mixed := MatchMixed(s);
    var fraction := MatchFraction(s);
    if mixed.Some? && mixed.value.den != 0 then
      Some(Quantity(mixed.value.whole as real + Ratio(mixed.value.num, mixed.value.den), mixed.value.end))
    else if fraction.Some? && fraction.value.den != 0 then
      Some(Quantity(Ratio(fraction.value.num, fraction.value.den), fraction.value.end))
    else
      var decimal := MatchDecimal(s);
      if decimal.Some? then decimal
      else
        var whole := MatchWhole(s);
        if whole.Some? then whole else None
  }

  /** A quantity is found exactly when the text starts with a digit, and it
      is not followed by another digit. */
  lemma QuantityAtShape(s: string)
    ensures QuantityAt(s).None? <==> !StartsWithDigit(s)
    ensures QuantityAt(s).Some? ==> QuantityAt(s).value.length == |s| || !IsDigit(s[QuantityAt(s).value.length])
  {
    DecimalTerminates(s);
  }

  /** The closing group of the decimal pattern always matches after the
      greedy numeral: the character there is not a digit, and it is either a
      non-word character (a boundary) or a word character other than a digit
      or a dot (the class). */
  lemma DecimalTerminates(s: string)
    ensures StartsWithDigit(s) ==> Terminates(s, DecimalEnd(s, 0), '.')
  {
    if StartsWithDigit(s) {
      var e := DecimalEnd(s, 0);
      assert IsDigit(s[e - 1]);
    }
  }

  // ---------------------------------------------------------------------
  // parseLeadingRange

  /** The greedy end of the first alternative of a range token,
      `\d+(?:\.\d+)?(?:\s+\d+\/\d+)?`, starting at a digit. */
  function GreedyTokenEnd(s: string, i: nat): (e: nat)
    requires i < |s| && IsDigit(s[i])
    ensures i < e <= |s|
  {
    var e1 := DecimalEnd(s, i);
    var w := SpaceRun(s, e1);
    var d2 := DigitRun(s, e1 + w);
    var p := e1 + w + d2;
    if w > 0 && d2 > 0 && p < |s| && s[p] == '/' && DigitRun(s, p + 1) > 0 then p + 1 + DigitRun(s, p + 1) else e1
  }

  /** The end of the second alternative of a range token, `\d+\/\d+`, at `i`. */
  function FractionTokenEnd(s: string, i: nat): (e: Option<nat>)
    requires i <= |s|
    ensures e.Some? ==> i < e.value <= |s|
  {
    var d1 := DigitRun(s, i);
    if d1 == 0 || i + d1 == |s| || s[i + d1] != '/' || DigitRun(s, i + d1 + 1) == 0 then None
    else Some(i + d1 + 1 + DigitRun(s, i + d1 + 1))
  }

  /** `\s*[-–]\s*` at `p`: where the second token may start. */
  function DashEnd(s: string, p: nat): (q: Option<nat>)
    requires p <= |s|
    ensures q.Some? ==> p < q.value <= |s|
  {
    var w := SpaceRun(s, p);
    if p + w < |s| && IsDash(s[p + w]) then Some(p + w + 1 + SpaceRun(s, p + w + 1)) else None
  }

  /** `tokenToNumber`: a mixed number (`whole + num/den`, the fraction
      counting 0 when `den` is 0), else a fraction (0 when `den` is 0), else
      `parseFloat`, which reads the leading decimal numeral. */
  function TokenValue(tok: string): (v: real)
    requires StartsWithDigit(tok)
    ensures v >= 0.0
  {
    var mixed := ScanMixed(tok);
    var fraction := ScanFraction(tok);
    if mixed.Some? && mixed.value.end == |tok| then
      mixed.value.whole as real + Ratio(mixed.value.num, mixed.value.den)
    else if fraction.Some? && fraction.value.end == |tok| then
      Ratio(fraction.value.num, fraction.value.den)
    else DecimalValueAt(tok, 0)
  }

  /** The first token ends at `e1`; read the dash and the second token, whose
      end `SecondEnd` picks. */
  function RangeFrom(s: string, pad: nat, e1: nat, correctSecond: bool): (r: Option<Range>)
    requires 0 < e1 <= |s| && IsDigit(s[0])
    ensures r.Some? ==> e1 < r.value.length - pad <= |s|
  {
    var q := DashEnd(s, e1);
    if q.None? || q.value == |s| || !IsDigit(s[q.value]) then None
    else
      var start2 := q.value;
      var e2 := SecondEnd(s, start2, correctSecond);
      Some(Range(TokenValue(s[..e1]), TokenValue(s[start2..e2]), pad + e2))
  }

  /** Where the second token ends. As written, the first alternative always
      wins, because everything after the token is optional; corrected, a
      fraction `\d+\/\d+` is read as one token. */
  function SecondEnd(s: string, i: nat, correctSecond: bool): (e: nat)
    requires i < |s| && IsDigit(s[i])
    ensures i < e <= |s|
  {
    var f := FractionTokenEnd(s, i);
    if correctSecond && f.Some? then f.value else GreedyTokenEnd(s, i)
  }

  /** `/^(TOK)\s*[-–]\s*(TOK)(\b|[^0-9/.\s])?/` with
      `TOK = \d+(?:\.\d+)?(?:\s+\d+\/\d+)?|\d+\/\d+`: the first alternative
      of the first token is tried first, then the second. */
  function ParseRangeWith(text: string, correctSecond: bool): (r: Option<Range>)
    ensures r.Some? ==> StartsWithDigit(TrimStart(text))
    ensures r.Some? ==> |text| - |TrimStart(text)| < r.value.length <= |text|
  {
    var s := TrimStart(text);
    RangeIn(s, |text| - |s|, correctSecond)
  }

  /** The range pattern on the text after its leading white space, `pad`
      characters of which were skipped. */
  function RangeIn(s: string, pad: nat, correctSecond: bool): (r: Option<Range>)
    ensures r.Some? ==> StartsWithDigit(s)
    ensures r.Some? ==> pad < r.value.length <= pad + |s|
  {
    if !StartsWithDigit(s) then None
    else
      var viaGreedy := RangeFrom(s, pad, GreedyTokenEnd(s, 0), correctSecond);
      var f := FractionTokenEnd(s, 0);
      if viaGreedy.Some? then viaGreedy
      else if f.Some? then RangeFrom(s, pad, f.value, correctSecond)
      else None
  }

  /** `parseLeadingRange(text)` exactly as the source's pattern reads it. */
  function ParseLeadingRangeAsWritten(text: string): (r: Option<Range>)
    ensures r.Some? ==> StartsWithDigit(TrimStart(text))
    ensures r.Some? ==> |text| - |TrimStart(text)| < r.value.length <= |text|
  {
    ParseRangeWith(text, false)
  }

  /** `parseLeadingRange(text)` with the second token read as a fraction when
      it is one, as the pattern's `|\d+\/\d+` alternative intends. */
  function ParseLeadingRange(text: string): (r: Option<Range>)
    ensures r.Some? ==> StartsWithDigit(TrimStart(text))
    ensures r.Some? ==> |text| - |TrimStart(text)| < r.value.length <= |text|
  {
    ParseRangeWith(text, true)
  }

  // ---------------------------------------------------------------------
  // Rendering

  /** `x.toFixed(2)`: the nearest multiple of 1/100 (the larger on a tie),
      written with two decimals; a negative number gets a leading `-`. */
  function Fixed2(x: real): (s: string)
    ensures |s| >= 4 && s[|s| - 3] == '.' && IsDigit(s[|s| - 2]) && IsDigit(s[|s| - 1])
    ensures s[0] == '-' <==> x < 0.0
    ensures x >= 0.0 ==> IsDigit(s[0])
  {
    if x < 0.0 then "-" + Fixed2Abs(-x) else Fixed2Abs(x)
  }

  function Fixed2Abs(x: real): (s: string)
    requires x >= 0.0
    ensures |s| >= 4 && s[|s| - 3] == '.' && IsDigit(s[|s| - 2]) && IsDigit(s[|s| - 1])
    ensures IsDigit(s[0])
  {
    var n := Cents(x);
    var c := n % 100;
    NatToString(n / 100) + "." + [DigitChar(c / 10), DigitChar(c % 10)]
  }

  /** `x` in hundredths, rounded to the nearest (the larger on a tie). */
  function Cents(x: real): (n: nat)
    requires x >= 0.0
    ensures n as real <= x * 100.0 + 0.5 < n as real + 1.0
  {
    (x * 100.0 + 0.5).Floor
  }

  /** The number of `0` characters at the end of `s`. */
  function TrailingZeros(s: string): (z: nat)
    ensures z <= |s|
    ensures forall k :: |s| - z <= k < |s| ==> s[k] == '0'
    ensures z == |s| || s[|s| - z - 1] != '0'
  {
    if s != [] && s[|s| - 1] == '0' then 1 + TrailingZeros(s[..|s| - 1]) else 0
  }

  /** `s.replace(/\.?0+$/, '')`: the leftmost match of `\.?0+` that reaches
      the end is the run of trailing zeros, together with the dot before it
      when there is one. */
  function TrimZeros(s: string): (r: string)
    ensures |r| <= |s| && r == s[..|r|]
  {
    var z := TrailingZeros(s);
    if z == 0 then s
    else if z < |s| && s[|s| - z - 1] == '.' then s[..|s| - z - 1]
    else s[..|s| - z]
  }

  /** `trimZeros(x)`: `x` rounded to two decimals without trailing zeros. */
  function Format(x: real): (s: string)
    ensures |Fixed2(x)| - 3 <= |s| <= |Fixed2(x)| && s == Fixed2(x)[..|s|]
    ensures x >= 0.0 ==> s != [] && IsDigit(s[0])
  {
    TrimZeros(Fixed2(x))
  }

  // ---------------------------------------------------------------------
  // Scaling

  /** A quantity multiplied by the scaling factor. */
  function Scale(x: real, factor: real): real {
    x * factor
  }

  /** `scaleIngredientLine(line, factor)`, given the range read from the
      trimmed line: a blank line is returned as it is; a range is scaled
      at both ends and written with an en dash; otherwise a single leading
      quantity is scaled; a line with neither is returned as it is. */
  function ScaleWithRange(line: string, factor: real, range: Option<Range>): (r: string)
    requires range.Some? ==> range.value.length <= |Trim(line)|
    ensures r == line || IsTrimmed(r)
  {
    var trimmed := Trim(line);
    if trimmed == [] then line
    else if range.Some? then
      var rest := TrimStart(trimmed[range.value.length..]);
      Trim(Format(Scale(range.value.a, factor)) + "\U{2013}" + Format(Scale(range.value.b, factor)) + " " + rest)
    else
      match ParseLeadingQuantity(trimmed)
      case Some(q) => Trim(Format(Scale(q.value, factor)) + " " + TrimStart(trimmed[q.length..]))
      case None => line
  }

  /** `scaleIngredientLine`, reading ranges with the corrected pattern. */
  function ScaleIngredientLine(line: string, factor: real): (r: string)
    ensures r == line || (StartsWithDigit(Trim(line)) && IsTrimmed(r))
  {
    var x := Trim(line);
    assert TrimStart(x) == x;
    ParseLeadingQuantityShape(x);
    ScaleWithRange(line, factor, ParseLeadingRange(x))
  }

  /** `scaleIngredientLine` with the range pattern exactly as written. */
  function ScaleIngredientLineAsWritten(line: string, factor: real): (r: string)
    ensures r == line || (StartsWithDigit(Trim(line)) && IsTrimmed(r))
  {
    var x := Trim(line);
    assert TrimStart(x) == x;
    ParseLeadingQuantityShape(x);
    ScaleWithRange(line, factor, ParseLeadingRangeAsWritten(x))
  }

  /** `scaleIngredientLine` with the range pattern corrected, or exactly as
      written. */
  function ScaleLineWith(line: string, factor: real, correctSecond: bool): string
  {
    if correctSecond then ScaleIngredientLine(line, factor) else ScaleIngredientLineAsWritten(line, factor)
  }

  /** `lines.map((ln) => scaleIngredientLine(ln, factor))`. */
  function ScaleEach(lines: seq<string>, factor: real, correctSecond: bool): (r: seq<string>)
    ensures |r| == |lines|
    ensures forall i :: 0 <= i < |lines| ==> r[i] == ScaleLineWith(lines[i], factor, correctSecond)
  {
    if lines == [] then []
    else [ScaleLineWith(lines[0], factor, correctSecond)] + ScaleEach(lines[1..], factor, correctSecond)
  }

  /** `scaleIngredients(lines, factor)`: no lines give `[]`; a factor of
      exactly 1 gives the lines back untouched; otherwise each line is
      scaled on its own. `correctSecond` picks the range pattern. */
  function ScaleIngredients(lines: Option<seq<string>>, factor: real, correctSecond: bool): (r: seq<string>)
    ensures lines.None? ==> r == []
    ensures lines.Some? && factor == 1.0 ==> r == lines.value
    ensures lines.Some? ==> |r| == |lines.value|
    ensures lines.Some? && factor != 1.0 ==>
      forall i :: 0 <= i < |r| ==> r[i] == ScaleLineWith(lines.value[i], factor, correctSecond)
  {
    match lines
    case None => []
    case Some(ls) => if factor == 1.0 then ls else ScaleEach(ls, factor, correctSecond)
  }
}
