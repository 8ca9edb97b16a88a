/** The vector kernel of the spring solver: fixed-length arithmetic on
    arrays of reals (INTUVector.h).

    Each C helper is a `for` loop that writes the first `dimensions`
    entries of a caller-supplied buffer; some callers pass the same buffer
    as an input and as the output. A method here has the same shape, and
    its contract ties the written prefix to a value-level function of the
    inputs as they were BEFORE the call, so the contract holds whether or
    not the output aliases an input. */
module Vectors {

  /** The zero vector of length n. */
  function Zeros(n: nat): (r: seq<real>)
    ensures |r| == n
  {
    seq(n, i => 0.0)
  }

  /** Componentwise product with a scalar. */
  function Scaled(s: seq<real>, c: real): (r: seq<real>)
    ensures |r| == |s|
  {
    seq(|s|, i requires 0 <= i < |s| => s[i] * c)
  }

  /** Componentwise sum. */
  function Sum(a: seq<real>, b: seq<real>): (r: seq<real>)
    requires |a| == |b|
    ensures |r| == |a|
  {
    seq(|a|, i requires 0 <= i < |a| => a[i] + b[i])
  }

  /** Componentwise difference. */
  function Difference(a: seq<real>, b: seq<real>): (r: seq<real>)
    requires |a| == |b|
    ensures |r| == |a|
  {
    seq(|a|, i requires 0 <= i < |a| => a[i] - b[i])
  }

  /** The sum of the squares of the components, added in index order. */
  function SumOfSquares(s: seq<real>): real
  {
    if |s| == 0 then 0.0 else SumOfSquares(s[..|s| - 1]) + s[|s| - 1] * s[|s| - 1]
  }

  /** A squared norm is never negative. */
  lemma {:induction false} SumOfSquaresNonNegative(s: seq<real>)
    ensures SumOfSquares(s) >= 0.0
  {
    if |s| > 0 {
      SumOfSquaresNonNegative(s[..|s| - 1]);
      assert s[|s| - 1] * s[|s| - 1] >= 0.0;
    }
  }

  /** A squared norm is zero exactly when every component is zero. */
  lemma {:induction false} SumOfSquaresZeroIff(s: seq<real>)
    ensures SumOfSquares(s) == 0.0 <==> forall i :: 0 <= i < |s| ==> s[i] == 0.0
  {
    if |s| > 0 {
      var init, last := s[..|s| - 1], s[|s| - 1];
      SumOfSquaresZeroIff(init);
      SumOfSquaresNonNegative(init);
      assert last * last >= 0.0;
      if SumOfSquares(s) == 0.0 {
        assert SumOfSquares(init) == 0.0 && last * last == 0.0;
        SquareZero(last);
        forall i | 0 <= i < |s| ensures s[i] == 0.0 {
          if i < |s| - 1 { assert s[i] == init[i]; }
        }
      }
    }
  }

  lemma SquareZero(x: real)
    ensures x * x == 0.0 <==> x == 0.0
  {
    if x != 0.0 {
      assert (x * x) / x == x;
    }
  }

  /** `sqrt` behaves as the square root on the non-negative reals. The C
      library's sqrt is not part of this model: callers pass it in. */
  ghost predicate IsSquareRoot(sqrt: real -> real)
  {
    forall x :: x >= 0.0 ==> sqrt(x) >= 0.0 && sqrt(x) * sqrt(x) == x
  }

  /** A non-negative square root is unique, so `IsSquareRoot` pins down the
      value of `sqrt` wherever the model uses it. */
  lemma SquareRootUnique(x: real, r1: real, r2: real)
    requires r1 >= 0.0 && r2 >= 0.0 && r1 * r1 == x && r2 * r2 == x
    ensures r1 == r2
  {
    var d, s := r1 - r2, r1 + r2;
    assert d * s == 0.0;
    if s != 0.0 {
      assert d == (d * s) / s;
    }
  }

  /** zeroVector: entries 0..dimensions-1 become 0.0, the rest are untouched. */
  method ZeroVector(dimensions: nat, components: array<real>)
    requires dimensions <= components.Length
    modifies components
    ensures components[..dimensions] == Zeros(dimensions)
    ensures components[dimensions..] == old(components[dimensions..])
  {
    for i := 0 to dimensions
      invariant components[..i] == Zeros(i)
      invariant components[i..] == old(components[i..])
    {
      components[i] := 0.0;
      assert components[..i + 1] == components[..i] + [0.0];
    }
  }

  /** copyVector: output's first `dimensions` entries become input's; input
      is only read. */
  method CopyVector(dimensions: nat, input: array<real>, output: array<real>)
    requires dimensions <= input.Length && dimensions <= output.Length
    modifies output
    ensures output[..dimensions] == old(input[..dimensions])
    ensures output[dimensions..] == old(output[dimensions..])
    ensures input != output ==> input[..] == old(input[..])
  {
    ghost var src := input[..dimensions];
    for i := 0 to dimensions
      invariant output[..i] == src[..i]
      invariant output[i..] == old(output[i..])
      invariant input != output ==> input[..] == old(input[..])
      invariant input[i..dimensions] == src[i..]
    {
      output[i] := input[i];
      assert output[..i + 1] == output[..i] + [src[i]];
    }
  }

  /** multiplyScalarWithVector: output[i] := input[i] * scalar. Element i of
      the input is read before element i of the output is written, so the
      result is the same when output and input are one buffer. */
  method MultiplyScalarWithVector(dimensions: nat, scalar: real, input: array<real>, output: array<real>)
    requires dimensions <= input.Length && dimensions <= output.Length
    modifies output
    ensures output[..dimensions] == Scaled(old(input[..dimensions]), scalar)
    ensures output[dimensions..] == old(output[dimensions..])
  {
    ghost var src := input[..dimensions];
    for i := 0 to dimensions
      invariant forall j :: 0 <= j < i ==> output[j] == src[j] * scalar
      invariant output[i..] == old(output[i..])
      invariant input[i..dimensions] == src[i..]
    {
      output[i] := input[i] * scalar;
    }
    ScaledByElements(output[..dimensions], src, scalar);
  }

  /** Extensionality for `Scaled`, stated on its own so that the solver's
      non-linear reasoning stays out of the array proof. */
  lemma ScaledByElements(r: seq<real>, s: seq<real>, c: real)
    requires |r| == |s|
    requires forall j :: 0 <= j < |r| ==> r[j] == s[j] * c
    ensures r == Scaled(s, c)
  {
    var t := Scaled(s, c);
    forall j | 0 <= j < |r| ensures r[j] == t[j] {
    }
  }

  /** addVectors: output[i] := v1[i] + v2[i]; output may be v1 or v2. */
  method AddVectors(dimensions: nat, v1: array<real>, v2: array<real>, output: array<real>)
    requires dimensions <= v1.Length && dimensions <= v2.Length && dimensions <= output.Length
    modifies output
    ensures output[..dimensions] == Sum(old(v1[..dimensions]), old(v2[..dimensions]))
    ensures output[dimensions..] == old(output[dimensions..])
  {
    ghost var a, b := v1[..dimensions], v2[..dimensions];
    for i := 0 to dimensions
      invariant output[..i] == Sum(a[..i], b[..i])
      invariant output[i..] == old(output[i..])
      invariant v1[i..dimensions] == a[i..] && v2[i..dimensions] == b[i..]
    {
      output[i] := v1[i] + v2[i];
      assert output[..i + 1] == output[..i] + [a[i] + b[i]];
      assert Sum(a[..i + 1], b[..i + 1]) == Sum(a[..i], b[..i]) + [a[i] + b[i]];
    }
  }

  /** subVectors: output[i] := v1[i] - v2[i]; output may be v1 or v2. */
  method SubVectors(dimensions: nat, v1: array<real>, v2: array<real>, output: array<real>)
    requires dimensions <= v1.Length && dimensions <= v2.Length && dimensions <= output.Length
    modifies output
    ensures output[..dimensions] == Difference(old(v1[..dimensions]), old(v2[..dimensions]))
    ensures output[dimensions..] == old(output[dimensions..])
  {
    ghost var a, b := v1[..dimensions], v2[..dimensions];
    for i := 0 to dimensions
      invariant output[..i] == Difference(a[..i], b[..i])
      invariant output[i..] == old(output[i..])
      invariant v1[i..dimensions] == a[i..] && v2[i..dimensions] == b[i..]
    {
      output[i] := v1[i] - v2[i];
      assert output[..i + 1] == output[..i] + [a[i] - b[i]];
      assert Difference(a[..i + 1], b[..i + 1]) == Difference(a[..i], b[..i]) + [a[i] - b[i]];
    }
  }

  /** squaredNorm: the sum of v[i] * v[i] over the first `dimensions`
      entries, never negative. */
  method SquaredNorm(dimensions: nat, v: array<real>) returns (result: real)
    requires dimensions <= v.Length
    ensures result == SumOfSquares(v[..dimensions])
    ensures result >= 0.0
  {
    result := 0.0;
    for i := 0 to dimensions
      invariant result == SumOfSquares(v[..i])
    {
      assert v[..i + 1][..i] == v[..i];
      result := result + v[i] * v[i];
    }
    SumOfSquaresNonNegative(v[..dimensions]);
  }

  /** norm: the square root of the squared norm, so it is never negative
      and its square is the squared norm. */
  method Norm(dimensions: nat, v: array<real>, sqrt: real -> real) returns (result: real)
    requires dimensions <= v.Length
    requires IsSquareRoot(sqrt)
    ensures result == sqrt(SumOfSquares(v[..dimensions]))
    ensures result >= 0.0 && result * result == SumOfSquares(v[..dimensions])
  {
    var squared := SquaredNorm(dimensions, v);
    result := sqrt(squared);
  }

  /** The prefix of an array as long as the array is the whole array. */
  lemma WholePrefix(a: array<real>, n: nat)
    requires a.Length == n
    ensures a[..n] == a[..]
  {
  }
}
