/** The easing curves of the animation engine (Source/INTUEasingFunctions.c)
    that are rational in the completion fraction p: Linear, the Quadratic,
    Cubic, Quartic and Quintic curves in their In, Out and InOut forms, the
    Bounce curves, and the guards of the Exponential curves.

    Each function computes exactly the expression of the C function, in
    the same order of operations and with the same branch conditions. The
    lemmas state what the comments above the C functions promise (the
    closed form each expression is modelled after), that every curve starts
    at 0 and ends at 1, that an Out curve is its In curve reflected through
    the point (1/2, 1/2), and that each InOut curve runs its In curve over
    the first half and its Out curve over the second, so both halves meet
    at 1/2. */
module Easing {

  /** x raised to the natural power n; the x^n of the source's comments. */
  function Pow(x: real, n: nat): real
  {
    if n == 0 then 1.0 else x * Pow(x, n - 1)
  }

  /** The small powers that the curves multiply out by hand. */
  lemma PowSmall(x: real)
    ensures Pow(x, 2) == x * x
    ensures Pow(x, 3) == x * x * x
    ensures Pow(x, 4) == x * x * x * x
    ensures Pow(x, 5) == x * x * x * x * x
  {
    assert Pow(x, 1) == x;
    assert Pow(x, 2) == x * Pow(x, 1);
    assert Pow(x, 3) == x * Pow(x, 2);
    assert Pow(x, 4) == x * Pow(x, 3);
    assert Pow(x, 5) == x * Pow(x, 4);
  }

  // ---------------------------------------------------------------------
  // Linear

  /** INTULinear: the line y = x. */
  function Linear(p: real): (r: real)
    ensures p == 0.0 ==> r == 0.0
    ensures p == 1.0 ==> r == 1.0
  {
    p
  }

  // ---------------------------------------------------------------------
  // Quadratic

  /** INTUEaseInQuadratic: the parabola y = x^2. */
  function EaseInQuadratic(p: real): (r: real)
    ensures p == 0.0 ==> r == 0.0
    ensures p == 1.0 ==> r == 1.0
  {
    p * p
  }

  /** INTUEaseOutQuadratic: the parabola y = -x^2 + 2x. */
  function EaseOutQuadratic(p: real): (r: real)
    ensures p == 0.0 ==> r == 0.0
    ensures p == 1.0 ==> r == 1.0
  {
    -(p * (p - 2.0))
  }

  /** INTUEaseInOutQuadratic: 2p^2 below 1/2, -2p^2 + 4p - 1 from 1/2 on. */
  function EaseInOutQuadratic(p: real): (r: real)
    ensures p == 0.0 ==> r == 0.0
    ensures p == 1.0 ==> r == 1.0
  {
    if p < 0.5 then 2.0 * p * p else (-2.0 * p * p) + (4.0 * p) - 1.0
  }

  /** The Out quadratic is y = -x^2 + 2x. */
  lemma OutQuadraticClosedForm(p: real)
    ensures EaseOutQuadratic(p) == -Pow(p, 2) + 2.0 * p
  {
    PowSmall(p);
  }

  /** The InOut quadratic is (1/2)(2x)^2 on [0, 1/2) and
      -(1/2)((2x - 1)(2x - 3) - 1) on [1/2, 1]. */
  lemma InOutQuadraticClosedForm(p: real)
    ensures p < 0.5 ==> EaseInOutQuadratic(p) == 0.5 * Pow(2.0 * p, 2)
    ensures p >= 0.5 ==> EaseInOutQuadratic(p) == -0.5 * ((2.0 * p - 1.0) * (2.0 * p - 3.0) - 1.0)
  {
    PowSmall(2.0 * p);
  }

  /** Out is In reflected through (1/2, 1/2). */
  lemma QuadraticReflection(p: real)
    ensures EaseOutQuadratic(p) == 1.0 - EaseInQuadratic(1.0 - p)
  {
  }

  /** InOut runs In over the first half and Out over the second. */
  lemma QuadraticHalves(p: real)
    ensures EaseInOutQuadratic(p) ==
      if p < 0.5 then 0.5 * EaseInQuadratic(2.0 * p) else 0.5 * EaseOutQuadratic(2.0 * p - 1.0) + 0.5
  {
  }

  // ---------------------------------------------------------------------
  // Cubic

  /** INTUEaseInCubic: the cubic y = x^3. */
  function EaseInCubic(p: real): (r: real)
    ensures p == 0.0 ==> r == 0.0
    ensures p == 1.0 ==> r == 1.0
  {
    p * p * p
  }

  /** INTUEaseOutCubic: the cubic y = (x - 1)^3 + 1. */
  function EaseOutCubic(p: real): (r: real)
    ensures p == 0.0 ==> r == 0.0
    ensures p == 1.0 ==> r == 1.0
  {
    var f := p - 1.0;
    f * f * f + 1.0
  }

  /** INTUEaseInOutCubic: 4p^3 below 1/2, (1/2)f^3 + 1 with f = 2p - 2 from
      1/2 on. */
  function EaseInOutCubic(p: real): (r: real)
    ensures p == 0.0 ==> r == 0.0
    ensures p == 1.0 ==> r == 1.0
  {
    if p < 0.5 then 4.0 * p * p * p
    else
      var f := (2.0 * p) - 2.0;
      0.5 * f * f * f + 1.0
  }

  /** The Out cubic is y = (x - 1)^3 + 1. */
  lemma OutCubicClosedForm(p: real)
    ensures EaseOutCubic(p) == Pow(p - 1.0, 3) + 1.0
  {
    PowSmall(p - 1.0);
  }

  /** The InOut cubic is (1/2)(2x)^3 on [0, 1/2) and (1/2)((2x - 2)^3 + 2)
      on [1/2, 1]. */
  lemma InOutCubicClosedForm(p: real)
    ensures p < 0.5 ==> EaseInOutCubic(p) == 0.5 * Pow(2.0 * p, 3)
    ensures p >= 0.5 ==> EaseInOutCubic(p) == 0.5 * (Pow(2.0 * p - 2.0, 3) + 2.0)
  {
    PowSmall(2.0 * p);
    PowSmall(2.0 * p - 2.0);
  }

  /** Out is In reflected through (1/2, 1/2). */
  lemma CubicReflection(p: real)
    ensures EaseOutCubic(p) == 1.0 - EaseInCubic(1.0 - p)
  {
    var f := p - 1.0;
    assert (1.0 - p) * (1.0 - p) * (1.0 - p) == -(f * f * f);
  }

  /** InOut runs In over the first half and Out over the second. */
  lemma CubicHalves(p: real)
    ensures EaseInOutCubic(p) ==
      if p < 0.5 then 0.5 * EaseInCubic(2.0 * p) else 0.5 * EaseOutCubic(2.0 * p - 1.0) + 0.5
  {
    if p < 0.5 {
      assert (2.0 * p) * (2.0 * p) * (2.0 * p) == 8.0 * (p * p * p);
      assert 4.0 * p * p * p == 4.0 * (p * p * p);
    } else {
      var q := 2.0 * p - 1.0;
      var g := q - 1.0;
      assert EaseOutCubic(q) == g * g * g + 1.0;
    }
  }

  // ---------------------------------------------------------------------
  // Quartic

  /** INTUEaseInQuartic: the quartic y = x^4. */
  function EaseInQuartic(p: real): (r: real)
    ensures p == 0.0 ==> r == 0.0
    ensures p == 1.0 ==> r == 1.0
  {
    p * p * p * p
  }

  /** INTUEaseOutQuartic: the quartic y = 1 - (x - 1)^4, computed as
      f^3 (1 - p) + 1 with f = p - 1. */
  function EaseOutQuartic(p: real): (r: real)
    ensures p == 0.0 ==> r == 0.0
    ensures p == 1.0 ==> r == 1.0
  {
    var f := p - 1.0;
    f * f * f * (1.0 - p) + 1.0
  }

  /** INTUEaseInOutQuartic: 8p^4 below 1/2, -8f^4 + 1 with f = p - 1 from
      1/2 on. */
  function EaseInOutQuartic(p: real): (r: real)
    ensures p == 0.0 ==> r == 0.0
    ensures p == 1.0 ==> r == 1.0
  {
    if p < 0.5 then 8.0 * p * p * p * p
    else
      var f := p - 1.0;
      -8.0 * f * f * f * f + 1.0
  }

  /** The Out quartic is y = 1 - (x - 1)^4. */
  lemma OutQuarticClosedForm(p: real)
    ensures EaseOutQuartic(p) == 1.0 - Pow(p - 1.0, 4)
  {
    PowSmall(p - 1.0);
  }

  /** The InOut quartic is (1/2)(2x)^4 on [0, 1/2) and
      -(1/2)((2x - 2)^4 - 2) on [1/2, 1]. */
  lemma InOutQuarticClosedForm(p: real)
    ensures p < 0.5 ==> EaseInOutQuartic(p) == 0.5 * Pow(2.0 * p, 4)
    ensures p >= 0.5 ==> EaseInOutQuartic(p) == -0.5 * (Pow(2.0 * p - 2.0, 4) - 2.0)
  {
    PowSmall(2.0 * p);
    PowSmall(2.0 * p - 2.0);
    var f := p - 1.0;
    assert 2.0 * p - 2.0 == 2.0 * f;
    assert (2.0 * f) * (2.0 * f) * (2.0 * f) * (2.0 * f) == 16.0 * (f * f * f * f);
  }

  /** Out is In reflected through (1/2, 1/2). */
  lemma QuarticReflection(p: real)
    ensures EaseOutQuartic(p) == 1.0 - EaseInQuartic(1.0 - p)
  {
    var f := p - 1.0;
    assert (1.0 - p) * (1.0 - p) * (1.0 - p) * (1.0 - p) == f * f * f * f;
  }

  /** InOut runs In over the first half and Out over the second. */
  lemma QuarticHalves(p: real)
    ensures EaseInOutQuartic(p) ==
      if p < 0.5 then 0.5 * EaseInQuartic(2.0 * p) else 0.5 * EaseOutQuartic(2.0 * p - 1.0) + 0.5
  {
    var q, f := 2.0 * p - 1.0, p - 1.0;
    assert (2.0 * p) * (2.0 * p) * (2.0 * p) * (2.0 * p) == 16.0 * (p * p * p * p);
    assert (q - 1.0) * (q - 1.0) * (q - 1.0) * (1.0 - q) == -16.0 * (f * f * f * f);
  }

  // ---------------------------------------------------------------------
  // Quintic

  /** INTUEaseInQuintic: the quintic y = x^5. */
  function EaseInQuintic(p: real): (r: real)
    ensures p == 0.0 ==> r == 0.0
    ensures p == 1.0 ==> r == 1.0
  {
    p * p * p * p * p
  }

  /** INTUEaseOutQuintic: the quintic y = (x - 1)^5 + 1. */
  function EaseOutQuintic(p: real): (r: real)
    ensures p == 0.0 ==> r == 0.0
    ensures p == 1.0 ==> r == 1.0
  {
    var f := p - 1.0;
    f * f * f * f * f + 1.0
  }

  /** INTUEaseInOutQuintic: 16p^5 below 1/2, (1/2)f^5 + 1 with f = 2p - 2
      from 1/2 on. */
  function EaseInOutQuintic(p: real): (r: real)
    ensures p == 0.0 ==> r == 0.0
    ensures p == 1.0 ==> r == 1.0
  {
    if p < 0.5 then 16.0 * p * p * p * p * p
    else
      var f := (2.0 * p) - 2.0;
      0.5 * f * f * f * f * f + 1.0
  }

  /** The Out quintic is y = (x - 1)^5 + 1. */
  lemma OutQuinticClosedForm(p: real)
    ensures EaseOutQuintic(p) == Pow(p - 1.0, 5) + 1.0
  {
    PowSmall(p - 1.0);
  }

  /** The InOut quintic is (1/2)(2x)^5 on [0, 1/2) and (1/2)((2x - 2)^5 + 2)
      on [1/2, 1]. */
  lemma InOutQuinticClosedForm(p: real)
    ensures p < 0.5 ==> EaseInOutQuintic(p) == 0.5 * Pow(2.0 * p, 5)
    ensures p >= 0.5 ==> EaseInOutQuintic(p) == 0.5 * (Pow(2.0 * p - 2.0, 5) + 2.0)
  {
    PowSmall(2.0 * p);
    PowSmall(2.0 * p - 2.0);
  }

  /** Out is In reflected through (1/2, 1/2). */
  lemma QuinticReflection(p: real)
    ensures EaseOutQuintic(p) == 1.0 - EaseInQuintic(1.0 - p)
  {
    var f := p - 1.0;
    assert (1.0 - p) * (1.0 - p) * (1.0 - p) * (1.0 - p) * (1.0 - p) == -(f * f * f * f * f);
  }

  /** InOut runs In over the first half and Out over the second. */
  lemma QuinticHalves(p: real)
    ensures EaseInOutQuintic(p) ==
      if p < 0.5 then 0.5 * EaseInQuintic(2.0 * p) else 0.5 * EaseOutQuintic(2.0 * p - 1.0) + 0.5
  {
    if p < 0.5 {
      assert (2.0 * p) * (2.0 * p) * (2.0 * p) * (2.0 * p) * (2.0 * p) == 32.0 * (p * p * p * p * p);
      assert 16.0 * p * p * p * p * p == 16.0 * (p * p * p * p * p);
    } else {
      var q := 2.0 * p - 1.0;
      var g := q - 1.0;
      assert EaseOutQuintic(q) == g * g * g * g * g + 1.0;
    }
  }

  // ---------------------------------------------------------------------
  // Exponential: only the guards. The C library's pow is not part of this
  // model; the curves take it as a parameter and the guards hold whatever
  // it computes.

  /** INTUEaseInExponential: p itself at 0, otherwise 2^(10(p - 1)). */
  function EaseInExponential(pow: (real, real) -> real, p: real): (r: real)
    ensures p == 0.0 ==> r == 0.0
  {
    if p == 0.0 then p else pow(2.0, 10.0 * (p - 1.0))
  }

  /** INTUEaseOutExponential: p itself at 1, otherwise 1 - 2^(-10p). */
  function EaseOutExponential(pow: (real, real) -> real, p: real): (r: real)
    ensures p == 1.0 ==> r == 1.0
  {
    if p == 1.0 then p else 1.0 - pow(2.0, -10.0 * p)
  }

  /** INTUEaseInOutExponential: p itself at 0 and at 1; otherwise
      (1/2)2^(20p - 10) below 1/2 and -(1/2)2^(-20p + 10) + 1 from 1/2 on. */
  function EaseInOutExponential(pow: (real, real) -> real, p: real): (r: real)
    ensures p == 0.0 || p == 1.0 ==> r == p
  {
    if p == 0.0 || p == 1.0 then p
    else if p < 0.5 then 0.5 * pow(2.0, (20.0 * p) - 10.0)
    else -0.5 * pow(2.0, (-20.0 * p) + 10.0) + 1.0
  }

  // ---------------------------------------------------------------------
  // Bounce

  /** The four parabolic arcs of the Out bounce, on [0, 4/11), [4/11, 8/11),
      [8/11, 9/10) and [9/10, 1]. */
  function BounceArc0(p: real): real
  {
    (121.0 * p * p) / 16.0
  }

  function BounceArc1(p: real): real
  {
    (363.0 / 40.0 * p * p) - (99.0 / 10.0 * p) + 17.0 / 5.0
  }

  function BounceArc2(p: real): real
  {
    (4356.0 / 361.0 * p * p) - (35442.0 / 1805.0 * p) + 16061.0 / 1805.0
  }

  function BounceArc3(p: real): real
  {
    (54.0 / 5.0 * p * p) - (513.0 / 25.0 * p) + 268.0 / 25.0
  }

  /** INTUEaseOutBounce: the arc whose interval holds p. */
  function EaseOutBounce(p: real): (r: real)
    ensures p == 0.0 ==> r == 0.0
    ensures p == 1.0 ==> r == 1.0
  {
    if p < 4.0 / 11.0 then BounceArc0(p)
    else if p < 8.0 / 11.0 then BounceArc1(p)
    else if p < 9.0 / 10.0 then BounceArc2(p)
    else BounceArc3(p)
  }

  /** INTUEaseInBounce: the Out bounce reflected through (1/2, 1/2). */
  function EaseInBounce(p: real): (r: real)
    ensures p == 0.0 ==> r == 0.0
    ensures p == 1.0 ==> r == 1.0
  {
    1.0 - EaseOutBounce(1.0 - p)
  }

  /** INTUEaseInOutBounce: the In bounce over the first half and the Out
      bounce over the second. */
  function EaseInOutBounce(p: real): (r: real)
    ensures p == 0.0 ==> r == 0.0
    ensures p == 1.0 ==> r == 1.0
    ensures p == 0.5 ==> r == 0.5
  {
    if p < 0.5 then 0.5 * EaseInBounce(p * 2.0) else 0.5 * EaseOutBounce(p * 2.0 - 1.0) + 0.5
  }

  /** Adjacent arcs of the Out bounce meet at their common end, each
      touching 1 there, so the curve is continuous. */
  lemma BounceArcsMeet()
    ensures BounceArc0(4.0 / 11.0) == 1.0 && BounceArc1(4.0 / 11.0) == 1.0
    ensures BounceArc1(8.0 / 11.0) == 1.0 && BounceArc2(8.0 / 11.0) == 1.0
    ensures BounceArc2(9.0 / 10.0) == 1.0 && BounceArc3(9.0 / 10.0) == 1.0
  {
  }

  /** The lower half of the InOut bounce runs up to (1/2) In(1), the upper
      half starts at (1/2) Out(0) + 1/2, and both are 1/2. */
  lemma InOutBounceHalvesMeet()
    ensures 0.5 * EaseInBounce(0.5 * 2.0) == 0.5
    ensures 0.5 * EaseOutBounce(0.5 * 2.0 - 1.0) + 0.5 == 0.5
  {
  }

  /** A number no further than c from zero has a square at most c^2. */
  lemma SquareAtMost(d: real, c: real)
    requires -c <= d <= c
    ensures 0.0 <= d * d <= c * c
  {
    assert c * c - d * d == (c - d) * (c + d);
    assert (c - d) * (c + d) >= 0.0 by { ProductNonNegative(c - d, c + d); }
    if d >= 0.0 {
      ProductNonNegative(d, d);
    } else {
      ProductNonNegative(-d, -d);
      assert (-d) * (-d) == d * d;
    }
  }

  lemma ProductNonNegative(x: real, y: real)
    requires x >= 0.0 && y >= 0.0
    ensures x * y >= 0.0
  {
  }

  /** Each arc stays within [0, 1] on its interval: written about its
      vertex, it is a square scaled and shifted, and the square is bounded
      on the interval. */
  lemma BounceArcsBounded(p: real)
    ensures 0.0 <= p < 4.0 / 11.0 ==> 0.0 <= BounceArc0(p) <= 1.0
    ensures 4.0 / 11.0 <= p < 8.0 / 11.0 ==> 0.0 <= BounceArc1(p) <= 1.0
    ensures 8.0 / 11.0 <= p < 9.0 / 10.0 ==> 0.0 <= BounceArc2(p) <= 1.0
    ensures 9.0 / 10.0 <= p <= 1.0 ==> 0.0 <= BounceArc3(p) <= 1.0
  {
    assert BounceArc0(p) == 121.0 / 16.0 * (p * p);
    if 0.0 <= p < 4.0 / 11.0 {
      SquareAtMost(p, 4.0 / 11.0);
    }
    var d1 := p - 6.0 / 11.0;
    assert BounceArc1(p) == 363.0 / 40.0 * (d1 * d1) + 7.0 / 10.0;
    if 4.0 / 11.0 <= p < 8.0 / 11.0 {
      SquareAtMost(d1, 2.0 / 11.0);
    }
    var d2 := p - 179.0 / 220.0;
    assert BounceArc2(p) == 4356.0 / 361.0 * (d2 * d2) + (16061.0 / 1805.0 - 4356.0 / 361.0 * ((179.0 / 220.0) * (179.0 / 220.0)));
    if 8.0 / 11.0 <= p < 9.0 / 10.0 {
      SquareAtMost(d2, 19.0 / 220.0);
    }
    var d3 := p - 19.0 / 20.0;
    assert BounceArc3(p) == 54.0 / 5.0 * (d3 * d3) + (268.0 / 25.0 - 54.0 / 5.0 * ((19.0 / 20.0) * (19.0 / 20.0)));
    if 9.0 / 10.0 <= p <= 1.0 {
      SquareAtMost(d3, 1.0 / 20.0);
    }
  }

  /** All three bounce curves map [0, 1] into [0, 1]. */
  lemma BounceBounded(p: real)
    requires 0.0 <= p <= 1.0
    ensures 0.0 <= EaseOutBounce(p) <= 1.0
    ensures 0.0 <= EaseInBounce(p) <= 1.0
    ensures 0.0 <= EaseInOutBounce(p) <= 1.0
  {
    BounceArcsBounded(p);
    BounceArcsBounded(1.0 - p);
    BounceArcsBounded(p * 2.0);
    BounceArcsBounded(1.0 - p * 2.0);
    BounceArcsBounded(p * 2.0 - 1.0);
  }
}
