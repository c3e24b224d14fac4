/** The random draws the simulator makes.  A draw of `random.random()` is
    a `Unit` value, and the model lets each call of `randint`, `uniform` or
    `choice` take exactly one such value and map it to its range: every
    value of the range is reachable and nothing outside it is.  The mapping
    of `uniform` is Python's own; those of `randint` and `choice` are the
    model's. */
module Chance {

  /** A value of `random.random()`: in [0, 1). */
  type Unit = r: real | 0.0 <= r < 1.0 witness 0.0

  /** The fraction `u` of a width `w`, which lies between 0 and `w`. */
  function Part(w: real, u: Unit): (p: real)
    ensures w >= 0.0 ==> 0.0 <= p <= w
    ensures w > 0.0 ==> p < w
    ensures w <= 0.0 ==> w <= p <= 0.0
    ensures p == w * u
  {
    if w >= 0.0 then
      NonNegativeProduct(w, u);
      NonNegativeProduct(w, 1.0 - u);
      if w > 0.0 then PositiveProduct(w, 1.0 - u); w * u else w * u
    else
      NonNegativeProduct(-w, u);
      NonNegativeProduct(-w, 1.0 - u);
      w * u
  }

  lemma NonNegativeProduct(a: real, b: real)
    requires a >= 0.0 && b >= 0.0
    ensures a * b >= 0.0
  {
  }

  lemma PositiveProduct(a: real, b: real)
    requires a > 0.0 && b > 0.0
    ensures a * b > 0.0
  {
  }

  /** `random.randint(lo, hi)`, both ends included. */
  function RandInt(lo: int, hi: int, u: Unit): (r: int)
    requires lo <= hi
    ensures lo <= r <= hi
  {
    lo + Part((hi - lo + 1) as real, u).Floor
  }

  /** Every value of the range is the result of some draw. */
  lemma RandIntReaches(lo: int, hi: int, n: int)
    requires lo <= n <= hi
    ensures exists u: Unit :: RandInt(lo, hi, u) == n
  {
    var width := (hi - lo + 1) as real;
    var u: Unit := (n - lo) as real / width;
    assert Part(width, u) == (n - lo) as real;
    assert RandInt(lo, hi, u) == n;
  }

  /** `random.uniform(a, b)`: a value between the two bounds. */
  function Uniform(a: real, b: real, u: Unit): (r: real)
    ensures a <= b ==> a <= r <= b
    ensures b <= a ==> b <= r <= a
  {
    a + Part(b - a, u)
  }

  /** `random.choice(xs)`. */
  function Choice<T>(xs: seq<T>, u: Unit): (r: T)
    requires |xs| > 0
    ensures r in xs
  {
    xs[RandInt(0, |xs| - 1, u)]
  }

  /** Every element of a list is the choice of some draw. */
  lemma ChoiceReaches<T>(xs: seq<T>, i: nat)
    requires i < |xs|
    ensures exists u: Unit :: Choice(xs, u) == xs[i]
  {
    RandIntReaches(0, |xs| - 1, i);
    var u: Unit :| RandInt(0, |xs| - 1, u) == i;
    assert Choice(xs, u) == xs[i];
  }
}
