/** The two branches of `scaleIngredientLine` that change a line, each
    once what the line starts with is known, and the case that leaves it
    alone. */
module ScaleLines {
  import opened Common
  import opened Text
  import opened Quantity

  /** A line that, once trimmed, is empty or does not start with a digit
      holds no quantity and is kept exactly as it is, white space included. */
  lemma ScaleKeeps(line: string, factor: real)
    requires !StartsWithDigit(Trim(line))
    ensures ScaleIngredientLine(line, factor) == line
    ensures ScaleIngredientLineAsWritten(line, factor) == line
  {
    var x := Trim(line);
    assert TrimStart(x) == x;
    ParseLeadingQuantityShape(x);
  }

  /** The single-quantity branch of `scaleIngredientLine` once the quantity
      is known. */
  lemma ScaleQuantityIs(line: string, factor: real, range: Option<Range>, x: string, v: real, len: nat, rest: string)
    requires Trim(line) == x && x != [] && range.None?
    requires ParseLeadingQuantity(Trim(line)).Some? && ParseLeadingQuantity(Trim(line)).value.value == v
    requires ParseLeadingQuantity(Trim(line)).value.length == len && x[len..] == rest
    ensures ScaleWithRange(line, factor, range) == Trim(Format(Scale(v, factor)) + " " + TrimStart(rest))
  {
    ScaleQuantityBranch(line, factor, range);
    QuantityTextIs(line, factor, x, v, len, rest);
  }

  // Unfolds the text of the quantity branch of `ScaleWithRange` for `ScaleQuantityIs` (behind `ScaleQuantityLineIs`); no property of its own.
  lemma QuantityTextIs(line: string, factor: real, x: string, v: real, len: nat, rest: string)
    requires Trim(line) == x && x != []
    requires ParseLeadingQuantity(Trim(line)).Some? && ParseLeadingQuantity(Trim(line)).value.value == v
    requires ParseLeadingQuantity(Trim(line)).value.length == len && x[len..] == rest
    ensures Trim(Format(Scale(ParseLeadingQuantity(Trim(line)).value.value, factor)) + " "
                 + TrimStart(Trim(line)[ParseLeadingQuantity(Trim(line)).value.length..]))
      == Trim(Format(Scale(v, factor)) + " " + TrimStart(rest))
  {
    var scaled := Format(Scale(ParseLeadingQuantity(Trim(line)).value.value, factor));
    var after := TrimStart(Trim(line)[ParseLeadingQuantity(Trim(line)).value.length..]);
    assert scaled == Format(Scale(v, factor));
    assert after == TrimStart(rest);
  }

  // Unfolds the quantity branch of `ScaleWithRange` for `ScaleQuantityIs` (behind `ScaleQuantityLineIs`); no property of its own.
  lemma ScaleQuantityBranch(line: string, factor: real, range: Option<Range>)
    requires Trim(line) != [] && range.None? && ParseLeadingQuantity(Trim(line)).Some?
    ensures ScaleWithRange(line, factor, range)
      == Trim(Format(Scale(ParseLeadingQuantity(Trim(line)).value.value, factor)) + " "
              + TrimStart(Trim(line)[ParseLeadingQuantity(Trim(line)).value.length..]))
  {
  }

  /** The range branch of `scaleIngredientLine` once the range is known. */
  lemma ScaleWithRangeIs(line: string, factor: real, range: Option<Range>, x: string,
                         a: real, b: real, len: nat, rest: string)
    requires Trim(line) == x && x != []
    requires range.Some? && range.value.a == a && range.value.b == b && range.value.length == len
    requires len <= |x| && x[len..] == rest
    ensures ScaleWithRange(line, factor, range)
      == Trim(Format(Scale(a, factor)) + "\U{2013}" + Format(Scale(b, factor)) + " " + TrimStart(rest))
  {
    ScaleRangeBranch(line, factor, range, x, rest);
    RangeTextIs(factor, range, a, b, rest);
  }

  // Unfolds the text of the range branch of `ScaleWithRange` for `ScaleWithRangeIs` (behind `ScaleRangeLineIs`); no property of its own.
  lemma RangeTextIs(factor: real, range: Option<Range>, a: real, b: real, rest: string)
    requires range.Some? && range.value.a == a && range.value.b == b
    ensures Trim(Format(Scale(range.value.a, factor)) + "\U{2013}" + Format(Scale(range.value.b, factor)) + " " + TrimStart(rest))
      == Trim(Format(Scale(a, factor)) + "\U{2013}" + Format(Scale(b, factor)) + " " + TrimStart(rest))
  {
    var fa := Format(Scale(a, factor));
    var fb := Format(Scale(b, factor));
    assert Format(Scale(range.value.a, factor)) == fa;
    assert Format(Scale(range.value.b, factor)) == fb;
  }

  // Unfolds the range branch of `ScaleWithRange` for `ScaleWithRangeIs` (behind `ScaleRangeLineIs`); no property of its own.
  lemma ScaleRangeBranch(line: string, factor: real, range: Option<Range>, x: string, rest: string)
    requires Trim(line) == x && x != []
    requires range.Some? && range.value.length <= |x| && x[range.value.length..] == rest
    ensures ScaleWithRange(line, factor, range)
      == Trim(Format(Scale(range.value.a, factor)) + "\U{2013}" + Format(Scale(range.value.b, factor)) + " " + TrimStart(rest))
  {
  }

  /** `line` trims to `x`, which no range pattern matches and from which
      `parseLeadingQuantity` reads `v` over its first `len` characters,
      leaving `rest`. */
  predicate QuantityLine(line: string, x: string, v: real, len: nat, rest: string) {
    Trim(line) == x && x != [] && len <= |x| && x[len..] == rest
    && ParseLeadingRange(Trim(line)).None? && ParseLeadingRangeAsWritten(Trim(line)).None?
    && ParseLeadingQuantity(Trim(line)).Some? && ParseLeadingQuantity(Trim(line)).value.value == v
    && ParseLeadingQuantity(Trim(line)).value.length == len
  }

  /** A line with one quantity and no range is written as the scaled
      quantity, one space and the remainder without its leading white space. */
  lemma ScaleQuantityLineIs(line: string, factor: real, x: string, v: real, len: nat, rest: string)
    requires QuantityLine(line, x, v, len, rest)
    ensures ScaleIngredientLine(line, factor) == Trim(Format(Scale(v, factor)) + " " + TrimStart(rest))
  {
    ScaleQuantityIs(line, factor, ParseLeadingRange(Trim(line)), x, v, len, rest);
  }

  /** The same with the range pattern as written. */
  lemma ScaleQuantityLineAsWrittenIs(line: string, factor: real, x: string, v: real, len: nat, rest: string)
    requires QuantityLine(line, x, v, len, rest)
    ensures ScaleIngredientLineAsWritten(line, factor) == Trim(Format(Scale(v, factor)) + " " + TrimStart(rest))
  {
    ScaleQuantityIs(line, factor, ParseLeadingRangeAsWritten(Trim(line)), x, v, len, rest);
  }

  /** `line` trims to `x`, from which the range pattern `range` reads `a`
      to `b` over its first `len` characters, leaving `rest`. */
  predicate RangeLine(line: string, x: string, range: Option<Range>, a: real, b: real, len: nat, rest: string) {
    Trim(line) == x && x != [] && len <= |x| && x[len..] == rest
    && range.Some? && range.value.a == a && range.value.b == b && range.value.length == len
  }

  /** A line with a range, read by the corrected pattern, is written as
      both scaled ends around an en dash, one space and the remainder
      without its leading white space. */
  lemma ScaleRangeLineIs(line: string, factor: real, x: string, a: real, b: real, len: nat, rest: string)
    requires RangeLine(line, x, ParseLeadingRange(Trim(line)), a, b, len, rest)
    ensures ScaleIngredientLine(line, factor)
      == Trim(Format(Scale(a, factor)) + "\U{2013}" + Format(Scale(b, factor)) + " " + TrimStart(rest))
  {
    ScaleWithRangeIs(line, factor, ParseLeadingRange(Trim(line)), x, a, b, len, rest);
  }

  /** The same with the range pattern as written. */
  lemma ScaleRangeLineAsWrittenIs(line: string, factor: real, x: string, a: real, b: real, len: nat, rest: string)
    requires RangeLine(line, x, ParseLeadingRangeAsWritten(Trim(line)), a, b, len, rest)
    ensures ScaleIngredientLineAsWritten(line, factor)
      == Trim(Format(Scale(a, factor)) + "\U{2013}" + Format(Scale(b, factor)) + " " + TrimStart(rest))
  {
    ScaleWithRangeIs(line, factor, ParseLeadingRangeAsWritten(Trim(line)), x, a, b, len, rest);
  }
}
