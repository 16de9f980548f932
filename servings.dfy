/** The servings control of the recipe page: the number of servings the
    reader wants, the buttons that step it, the box that sets it, and the
    factor by which the ingredient list is scaled. */
module Servings {
  import opened Common
  import opened Quantity

  /** `baseServings`: the recipe's servings, or 1 when it has none. */
  function BaseOf(servings: Option<int>): int {
    servings.GetOr(1)
  }

  /** `curServings`: the chosen number, or the base while none is chosen. */
  function CurrentOf(base: int, target: Option<real>): real {
    target.GetOr(base as real)
  }

  /** `factor`: the chosen servings over the base, or 1 when the base is
      not positive. */
  function FactorOf(base: int, target: Option<real>): (f: real)
    ensures base > 0 ==> f * (base as real) == CurrentOf(base, target)
    ensures base <= 0 ==> f == 1.0
  {
    if base > 0 then CurrentOf(base, target) / (base as real) else 1.0
  }

  /** What `dec` sets: one less, but never below 1. */
  function Decremented(cur: real): (r: real)
    ensures r >= 1.0
    ensures r == cur - 1.0 || (r == 1.0 && cur < 2.0)
  {
    if cur - 1.0 > 1.0 then cur - 1.0 else 1.0
  }

  /** Whether `onInput` takes a number: it must be finite (`None` stands for
      `NaN` and the infinities that `Number` can produce) and at least 1. */
  predicate Accepts(v: Option<real>) {
    v.Some? && v.value >= 1.0
  }

  class ServingsControl {
    /** `baseServings`, fixed once the recipe is loaded. */
    const base: int
    /** `targetServings`. */
    var target: Option<real>

    /** Once the base is a real serving count, the chosen count is too. */
    predicate Valid()
      reads this
    {
      base >= 1 ==> CurrentOf(base, target) >= 1.0
    }

    /** Loading a recipe: the base is its servings or 1, and the target
        starts at the base. */
    constructor(servings: Option<int>)
      ensures base == BaseOf(servings)
      ensures target == Some(base as real)
      ensures Valid()
    {
      base := BaseOf(servings);
      target := Some(BaseOf(servings) as real);
    }

    function Factor(): real
      reads this
    {
      FactorOf(base, target)
    }

    /** `dec`. */
    method Dec()
      requires Valid()
      modifies this
      ensures target == Some(Decremented(old(CurrentOf(base, target))))
      ensures Valid()
    {
      target := Some(Decremented(CurrentOf(base, target)));
    }

    /** `inc`. */
    method Inc()
      requires Valid()
      modifies this
      ensures target == Some(old(CurrentOf(base, target)) + 1.0)
      ensures Valid()
    {
      target := Some(CurrentOf(base, target) + 1.0);
    }

    /** `onInput`: a finite number of at least 1 becomes the target; any
        other input leaves it as it was. */
    method OnInput(v: Option<real>)
      requires Valid()
      modifies this
      ensures Accepts(v) ==> target == v
      ensures !Accepts(v) ==> target == old(target)
      ensures Valid()
    {
      if Accepts(v) {
        target := v;
      }
    }

    /** `resetServings`. */
    method Reset()
      requires Valid()
      modifies this
      ensures target == Some(base as real)
      ensures Valid()
    {
      target := Some(base as real);
    }
  }

  /** Stepping up and then down returns to a count of at least 1. */
  lemma IncThenDec(cur: real)
    requires cur >= 1.0
    ensures Decremented(cur + 1.0) == cur
  {
  }

  /** Once the base is a real serving count, the ingredients are never
      scaled by zero or a negative factor. */
  lemma FactorPositive(base: int, target: Option<real>)
    requires base >= 1 && CurrentOf(base, target) >= 1.0
    ensures FactorOf(base, target) > 0.0
  {
    var f := FactorOf(base, target);
    assert f * (base as real) >= 1.0;
  }

  /** At the base servings, which is where the control starts and where
      `resetServings` puts it, the factor is exactly 1, so the ingredient
      lines are shown as stored. */
  lemma AtBaseUnscaled(base: int, lines: seq<string>, correctSecond: bool)
    ensures FactorOf(base, Some(base as real)) == 1.0
    ensures ScaleIngredients(Some(lines), FactorOf(base, Some(base as real)), correctSecond) == lines
  {
    if base > 0 {
      var f := FactorOf(base, Some(base as real));
      assert f * (base as real) == 1.0 * (base as real);
    }
  }

  /** Following a step up with a step down gives the unscaled list back
      whenever the control was at the base. */
  lemma IncDecAtBase(base: int, lines: seq<string>, correctSecond: bool)
    requires base >= 1
    ensures ScaleIngredients(Some(lines), FactorOf(base, Some(Decremented(base as real + 1.0))), correctSecond) == lines
  {
    IncThenDec(base as real);
    AtBaseUnscaled(base, lines, correctSecond);
  }
}
