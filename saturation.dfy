/** The last tier of every control step: the candidate output is forced into
    the range the controller declares as safe. Every `apply_*_saturation` and
    `apply_*_limits` helper of the controllers is this one function with the
    controller's own bounds. */
module Saturation {

  /** Distance between two integers. */
  function Dist(x: int, y: int): nat {
    if x < y then y - x else x - y
  }

  /** "above the maximum gives the maximum, below the minimum gives the
      minimum, otherwise unchanged". The result is always in range, and a value
      already in range passes through. */
  function Clamp(x: int, lo: int, hi: int): (r: int)
    requires lo <= hi
    ensures lo <= r <= hi
    ensures lo <= x <= hi ==> r == x
  {
    if x > hi then hi else if x < lo then lo else x
  }

  /** The clamp picks the value of the range nearest to its input, so it
      never moves a value further than the range forces it to. */
  lemma ClampIsNearest(x: int, lo: int, hi: int, y: int)
    requires lo <= hi && lo <= y <= hi
    ensures Dist(Clamp(x, lo, hi), x) <= Dist(y, x)
  {
  }

  /** Clamping twice is clamping once. */
  lemma ClampIdempotent(x: int, lo: int, hi: int)
    requires lo <= hi
    ensures Clamp(Clamp(x, lo, hi), lo, hi) == Clamp(x, lo, hi)
  {
  }

  /** A larger candidate never gives a smaller output. */
  lemma ClampMonotone(x: int, y: int, lo: int, hi: int)
    requires lo <= hi && x <= y
    ensures Clamp(x, lo, hi) <= Clamp(y, lo, hi)
  {
  }
}

/** C's integer division. Dafny's `/` on `int` is Euclidean; C's `/` truncates
    toward zero (C99 6.5.5, paragraph 6), which differs when exactly one
    operand is negative. */
module CArith {

  function Abs(x: int): (r: nat)
    ensures r == x || r == -x
  {
    if x < 0 then -x else x
  }

  /** C's `a / b` for a positive divisor (the only kind the controllers
      use): the magnitude is |a| / b rounded down, and the quotient is never
      on the other side of zero from the dividend. */
  function CDiv(a: int, b: int): (q: int)
    requires b > 0
    ensures Abs(q) == Abs(a) / b
    ensures q < 0 ==> a < 0
    ensures a < 0 ==> q <= 0
  {
    if a >= 0 then a / b else -((-a) / b)
  }

  /** On a non-negative dividend, C and Dafny agree. */
  lemma CDivNonNegative(a: int, b: int)
    requires a >= 0 && b > 0
    ensures CDiv(a, b) == a / b
  {
  }

  /** An instance of the difference: -3 / 2 is -1 in C and -2 in Dafny. */
  lemma CDivTruncatesTowardZero()
    ensures CDiv(-3, 2) == -1 && -3 / 2 == -2
  {
  }
}
