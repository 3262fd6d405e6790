/**
 * The correlation route (app/api/analysis/correlation/route.ts): the Pearson coefficient
 * of two value lists, and the matrix of coefficients between every pair of numeric
 * columns. The two columns of a pair are filtered independently (`NumericValues`) and
 * then paired by position, not by source row.
 *
 * `Math.sqrt` is a parameter. A zero denominator is read as `NaN` (`None`): with a true
 * square root the numerator is then zero as well (`ZeroDenominator`), so the quotient is
 * `0 / 0`.
 */
module Correlation {
  import opened Options
  import opened Records
  import opened Dataset
  import opened Statistics

  /** The sum of the products of corresponding elements, accumulated front to back. */
  function Dot(a: seq<real>, b: seq<real>): real
    requires |a| == |b|
  {
    if |a| == 0 then 0.0 else Dot(a[..|a| - 1], b[..|b| - 1]) + a[|a| - 1] * b[|b| - 1]
  }

  /** `x[i] - mean` for every element. */
  function Deviations(x: seq<real>, mean: real): (d: seq<real>)
    ensures |d| == |x|
    ensures forall i :: 0 <= i < |x| ==> d[i] == x[i] - mean
  {
    seq(|x|, i requires 0 <= i < |x| => x[i] - mean)
  }

  /** `numerator / Math.sqrt(sumX2 * sumY2)`. */
  function Quotient(numerator: real, sumX2: real, sumY2: real, sqrt: real -> real): Option<real> {
    var denominator := sqrt(sumX2 * sumY2);
    if denominator != 0.0 then Some(numerator / denominator) else None
  }

  /** `calculateCorrelation(x, y)` in closed form: the sum of cross products of the
      deviations from the means, over the square root of the product of the sums of
      squared deviations. */
  function Coefficient(x: seq<real>, y: seq<real>, sqrt: real -> real): Option<real>
    requires |x| == |y| > 0
  {
    var dx := Deviations(x, Mean(x));
    var dy := Deviations(y, Mean(y));
    Quotient(Dot(dx, dy), Dot(dx, dx), Dot(dy, dy), sqrt)
  }

  /** `calculateCorrelation`: one pass accumulating `numerator`, `sumX2` and `sumY2`. The
      route calls it only with two lists of the same length above one. */
  method CalculateCorrelation(x: seq<real>, y: seq<real>, sqrt: real -> real)
    returns (r: Option<real>)
    requires |x| == |y| > 1
    ensures r == Coefficient(x, y, sqrt)
  {
    var n := |x|;
    var meanX := Mean(x);
    var meanY := Mean(y);
    var numerator, sumX2, sumY2 := 0.0, 0.0, 0.0;
    ghost var dxs := Deviations(x, meanX);
    ghost var dys := Deviations(y, meanY);
    for i := 0 to n
      invariant numerator == Dot(dxs[..i], dys[..i])
      invariant sumX2 == Dot(dxs[..i], dxs[..i])
      invariant sumY2 == Dot(dys[..i], dys[..i])
    {
      var dx := x[i] - meanX;
      var dy := y[i] - meanY;
      DotSnoc(dxs, dys, i, dx, dy);
      DotSnoc(dxs, dxs, i, dx, dx);
      DotSnoc(dys, dys, i, dy, dy);
      numerator := numerator + dx * dy;
      sumX2 := sumX2 + dx * dx;
      sumY2 := sumY2 + dy * dy;
    }
    assert dxs[..n] == dxs && dys[..n] == dys;
    r := Quotient(numerator, sumX2, sumY2, sqrt);
  }

  /** Extending both lists by one position adds one product. */
  lemma DotSnoc(a: seq<real>, b: seq<real>, i: nat, u: real, v: real)
    requires |a| == |b| && i < |a| && a[i] == u && b[i] == v
    ensures Dot(a[..i + 1], b[..i + 1]) == Dot(a[..i], b[..i]) + u * v
  {
    assert a[..i + 1][..i] == a[..i] && b[..i + 1][..i] == b[..i];
  }

  /* Sign facts about a square are stated on `Square(v)`, not on `v * v`: the solver rewrites
     a bound on the product `v * v` into a fact about `v` alone, which loses the bound. */

  lemma ProductPositive(u: real, v: real)
    requires u > 0.0 && v > 0.0
    ensures u * v > 0.0
  {
  }

  lemma ProductNonNegative(u: real, v: real)
    requires u >= 0.0 && v >= 0.0
    ensures u * v >= 0.0
  {
    if u > 0.0 && v > 0.0 {
      ProductPositive(u, v);
    }
  }

  lemma ProductNonZero(u: real, v: real)
    requires u != 0.0 && v != 0.0
    ensures u * v != 0.0
  {
  }

  /** A non-zero number has a positive square. */
  lemma SquarePositive(v: real)
    requires v != 0.0
    ensures Square(v) > 0.0
  {
    if v > 0.0 {
      SquareOfPositive(v);
    } else {
      assert Square(v) == Square(-v);
      SquareOfPositive(-v);
    }
  }

  lemma SquareOfPositive(v: real)
    requires v > 0.0
    ensures Square(v) > 0.0
  {
    TimesPositive(v, v);
  }

  /** `u * v` as a term of its own, so that a bound on a square stays a bound. */
  function Times(u: real, v: real): real {
    u * v
  }

  lemma TimesPositive(u: real, v: real)
    requires u > 0.0 && v > 0.0
    ensures Times(u, v) > 0.0
  {
  }

  /** The last term of a sum of squares. */
  lemma DotSelfLast(a: seq<real>)
    requires |a| > 0
    ensures Dot(a, a) == Dot(a[..|a| - 1], a[..|a| - 1]) + Square(a[|a| - 1])
  {
    SquareIsProduct(a[|a| - 1]);
  }

  lemma {:induction false} DotSelfNonNegative(a: seq<real>)
    ensures Dot(a, a) >= 0.0
  {
    if |a| > 0 {
      DotSelfNonNegative(a[..|a| - 1]);
      DotSelfLast(a);
    }
  }

  /** A sum of squares with a non-zero term is positive. */
  lemma {:induction false} DotSelfPositive(a: seq<real>, i: nat)
    requires i < |a| && a[i] != 0.0
    ensures Dot(a, a) > 0.0
  {
    var init := a[..|a| - 1];
    DotSelfLast(a);
    if i == |a| - 1 {
      DotSelfNonNegative(init);
      SquarePositive(a[i]);
    } else {
      assert init[i] == a[i];
      DotSelfPositive(init, i);
    }
  }

  lemma {:induction false} DotSymmetric(a: seq<real>, b: seq<real>)
    requires |a| == |b|
    ensures Dot(a, b) == Dot(b, a)
  {
    if |a| > 0 {
      DotSymmetric(a[..|a| - 1], b[..|b| - 1]);
    }
  }

  /** Only the zero vector has a sum of squares of at most zero. */
  lemma DotSelfZero(a: seq<real>)
    requires Dot(a, a) <= 0.0
    ensures forall i :: 0 <= i < |a| ==> a[i] == 0.0
  {
    forall i | 0 <= i < |a| ensures a[i] == 0.0 {
      if a[i] != 0.0 {
        DotSelfPositive(a, i);
      }
    }
  }

  lemma {:induction false} DotZeroLeft(a: seq<real>, b: seq<real>)
    requires |a| == |b|
    requires forall i :: 0 <= i < |a| ==> a[i] == 0.0
    ensures Dot(a, b) == 0.0
  {
    if |a| > 0 {
      DotZeroLeft(a[..|a| - 1], b[..|b| - 1]);
    }
  }

  /** The sum of the squares of `t * a[i] - b[i]`. */
  function CombinationSquares(a: seq<real>, b: seq<real>, t: real): (r: real)
    requires |a| == |b|
    ensures r >= 0.0
  {
    if |a| == 0 then 0.0
    else CombinationSquares(a[..|a| - 1], b[..|b| - 1], t) + Square(t * a[|a| - 1] - b[|b| - 1])
  }

  /** `t^2 a - 2 t ab + b`. */
  function QuadraticAt(t: real, a: real, ab: real, b: real): real {
    t * t * a - 2.0 * t * ab + b
  }

  /** One more position in `DotOfCombination`: adding `z^2` (with `z = t x - y`), `x^2`,
      `x y` and `y^2` to the sums keeps the quadratic identity. */
  lemma CombinationStep(t: real, x: real, y: real, z: real, l: real, a: real, ab: real, b: real,
                        l1: real, a1: real, ab1: real, b1: real)
    requires z == t * x - y && l == QuadraticAt(t, a, ab, b)
    requires l1 == l + Square(z) && a1 == a + x * x && ab1 == ab + x * y && b1 == b + y * y
    ensures l1 == QuadraticAt(t, a1, ab1, b1)
  {
    SquareIsProduct(z);
  }

  /** The sum of squares of `t * a - b` as a quadratic in `t`. */
  lemma {:induction false} DotOfCombination(a: seq<real>, b: seq<real>, t: real)
    requires |a| == |b|
    ensures CombinationSquares(a, b, t) == QuadraticAt(t, Dot(a, a), Dot(a, b), Dot(b, b))
  {
    if |a| > 0 {
      DotOfCombination(a[..|a| - 1], b[..|b| - 1], t);
      CombinationLast(a, b, t);
    } else {
      ZeroQuadratic(t, Dot(a, a), Dot(a, b), Dot(b, b));
    }
  }

  /** The quadratic identity of `DotOfCombination` carries over from the sequences without
      their last position to the whole sequences. */
  lemma CombinationLast(a: seq<real>, b: seq<real>, t: real)
    requires |a| == |b| > 0
    requires var a', b' := a[..|a| - 1], b[..|b| - 1];
             CombinationSquares(a', b', t) == QuadraticAt(t, Dot(a', a'), Dot(a', b'), Dot(b', b'))
    ensures CombinationSquares(a, b, t) == QuadraticAt(t, Dot(a, a), Dot(a, b), Dot(b, b))
  {
    var a', b' := a[..|a| - 1], b[..|b| - 1];
    SquaresLast(a, b, t);
    DotLast(a, a);
    DotLast(a, b);
    DotLast(b, b);
    var z := t * a[|a| - 1] - b[|b| - 1];
    CombinationStep(t, a[|a| - 1], b[|b| - 1], z, CombinationSquares(a', b', t), Dot(a', a'),
                    Dot(a', b'), Dot(b', b'), CombinationSquares(a, b, t), Dot(a, a), Dot(a, b), Dot(b, b));
  }

  /** `Dot` with its last position taken off. */
  lemma DotLast(a: seq<real>, b: seq<real>)
    requires |a| == |b| > 0
    ensures Dot(a, b) == Dot(a[..|a| - 1], b[..|b| - 1]) + a[|a| - 1] * b[|b| - 1]
  {
  }

  /** `CombinationSquares` with its last position taken off. */
  lemma SquaresLast(a: seq<real>, b: seq<real>, t: real)
    requires |a| == |b| > 0
    ensures CombinationSquares(a, b, t)
            == CombinationSquares(a[..|a| - 1], b[..|b| - 1], t) + Square(t * a[|a| - 1] - b[|b| - 1])
  {
  }

  lemma ZeroQuadratic(t: real, a: real, ab: real, b: real)
    requires a == 0.0 && ab == 0.0 && b == 0.0
    ensures QuadraticAt(t, a, ab, b) == 0.0
  {
  }

  lemma MultiplyMonotone(k: real, u: real, v: real)
    requires k > 0.0 && u <= v
    ensures k * u <= k * v
  {
  }

  /** The Cauchy-Schwarz inequality. */
  lemma CauchySchwarz(a: seq<real>, b: seq<real>)
    requires |a| == |b|
    ensures Dot(a, b) * Dot(a, b) <= Dot(a, a) * Dot(b, b)
  {
    DotSelfNonNegative(a);
    DotSelfNonNegative(b);
    if Dot(a, a) > 0.0 {
      var t := Dot(a, b) / Dot(a, a);
      DotOfCombination(a, b, t);
      QuadraticBound(CombinationSquares(a, b, t), Dot(a, a), Dot(b, b), Dot(a, b), t);
    } else {
      DotSelfZero(a);
      DotZeroLeft(a, b);
      DotZeroLeft(a, a);
      ZeroProducts(Dot(a, b), Dot(a, a), Dot(b, b));
    }
  }

  lemma ZeroProducts(c: real, u: real, v: real)
    requires c == 0.0 && u == 0.0
    ensures c * c <= u * v
  {
  }

  /** If `A t^2 - 2 C t + B >= 0` at `t = C / A` with `A > 0`, then `C^2 <= A B`. */
  lemma QuadraticBound(L: real, A: real, B: real, C: real, t: real)
    requires A > 0.0 && t == C / A
    requires L >= 0.0 && L == QuadraticAt(t, A, C, B)
    ensures C * C <= A * B
  {
    assert t * A == C;
    assert t * t * A == t * C;
    assert t * C <= B;
    assert C * C == A * (t * C);
    MultiplyMonotone(A, t * C, B);
  }

  /** `|u| <= d` follows from `u^2 <= d^2` for non-negative `d`. */
  lemma AbsoluteBound(u: real, d: real)
    requires d >= 0.0 && u * u <= d * d
    ensures -d <= u <= d
  {
    if u > d {
      ProductPositive(u - d, u + d);
    }
    if u < -d {
      ProductPositive(-d - u, d - u);
    }
  }

  /** The division at the end of `calculateCorrelation`, given a true square root and
      the Cauchy-Schwarz bound on its arguments: a zero denominator comes with a zero
      numerator, and a quotient that is a number lies in [-1, 1]. */
  lemma QuotientFacts(numerator: real, sumX2: real, sumY2: real, sqrt: real -> real)
    requires IsSqrt(sqrt) && sumX2 >= 0.0 && sumY2 >= 0.0
    requires numerator * numerator <= sumX2 * sumY2
    ensures Quotient(numerator, sumX2, sumY2, sqrt).None? ==> numerator == 0.0
    ensures Quotient(numerator, sumX2, sumY2, sqrt).Some? ==>
            -1.0 <= Quotient(numerator, sumX2, sumY2, sqrt).value <= 1.0
  {
    ProductNonNegative(sumX2, sumY2);
    RootOfNonNegative(sqrt, sumX2 * sumY2);
    var d := sqrt(sumX2 * sumY2);
    if d == 0.0 {
      if numerator != 0.0 {
        SquarePositive(numerator);
        SquareIsProduct(numerator);
      }
    } else {
      AbsoluteBound(numerator, d);
      DivideBounds(numerator, d, -1.0, 1.0);
    }
  }

  /** The quotient of the sums of two lists of deviations, or of any two lists of the same
      length: a zero denominator comes with a zero numerator, and a number lies in [-1, 1]. */
  lemma SumsQuotient(dx: seq<real>, dy: seq<real>, sqrt: real -> real)
    requires |dx| == |dy| && IsSqrt(sqrt)
    ensures var q := Quotient(Dot(dx, dy), Dot(dx, dx), Dot(dy, dy), sqrt);
            (q.None? ==> Dot(dx, dy) == 0.0) && (q.Some? ==> -1.0 <= q.value <= 1.0)
  {
    DotSelfNonNegative(dx);
    DotSelfNonNegative(dy);
    CauchySchwarz(dx, dy);
    QuotientFacts(Dot(dx, dy), Dot(dx, dx), Dot(dy, dy), sqrt);
  }

  /** With a true square root, a zero denominator means a zero numerator: `0 / 0`, which
      is `NaN`. */
  lemma ZeroDenominator(x: seq<real>, y: seq<real>, sqrt: real -> real)
    requires |x| == |y| > 0 && IsSqrt(sqrt)
    ensures Coefficient(x, y, sqrt).None? ==> Dot(Deviations(x, Mean(x)), Deviations(y, Mean(y))) == 0.0
  {
    SumsQuotient(Deviations(x, Mean(x)), Deviations(y, Mean(y)), sqrt);
  }

  /** A coefficient that is a number lies in [-1, 1]. */
  lemma CoefficientBounds(x: seq<real>, y: seq<real>, sqrt: real -> real)
    requires |x| == |y| > 0 && IsSqrt(sqrt)
    ensures Coefficient(x, y, sqrt).Some? ==> -1.0 <= Coefficient(x, y, sqrt).value <= 1.0
  {
    SumsQuotient(Deviations(x, Mean(x)), Deviations(y, Mean(y)), sqrt);
  }

  /** The coefficient does not depend on the order of its two arguments. */
  lemma CoefficientSymmetric(x: seq<real>, y: seq<real>, sqrt: real -> real)
    requires |x| == |y| > 0
    ensures Coefficient(x, y, sqrt) == Coefficient(y, x, sqrt)
  {
    var dx, dy := Deviations(x, Mean(x)), Deviations(y, Mean(y));
    DotSymmetric(dx, dy);
    assert Coefficient(x, y, sqrt) == Quotient(Dot(dx, dy), Dot(dx, dx), Dot(dy, dy), sqrt);
    assert Coefficient(y, x, sqrt) == Quotient(Dot(dy, dx), Dot(dy, dy), Dot(dx, dx), sqrt);
    assert Dot(dx, dx) * Dot(dy, dy) == Dot(dy, dy) * Dot(dx, dx);
  }

  lemma {:induction false} ConstantSum(x: seq<real>)
    requires |x| > 0 && forall i :: 0 <= i < |x| ==> x[i] == x[0]
    ensures Sum(x) == x[0] * (|x| as real)
  {
    if |x| > 1 {
      ConstantSum(x[1..]);
      assert Sum(x) == x[0] + x[0] * ((|x| - 1) as real);
    }
  }

  /** The mean of a constant list is its value. */
  lemma ConstantMean(x: seq<real>)
    requires |x| > 0 && forall i :: 0 <= i < |x| ==> x[i] == x[0]
    ensures Mean(x) == x[0]
  {
    ConstantSum(x);
    var n := |x| as real;
    assert Mean(x) * n == x[0] * n;
    assert (Mean(x) - x[0]) * n == 0.0;
  }

  /** A constant column has no deviation, so its coefficient with any column is `NaN`,
      never 0: nothing guards the division. */
  lemma ConstantColumn(x: seq<real>, y: seq<real>, sqrt: real -> real)
    requires |x| == |y| > 0 && IsSqrt(sqrt)
    requires forall i :: 0 <= i < |x| ==> x[i] == x[0]
    ensures Coefficient(x, y, sqrt) == None
  {
    var dx, dy := Deviations(x, Mean(x)), Deviations(y, Mean(y));
    ConstantMean(x);
    DotZeroLeft(dx, dx);
    assert Dot(dx, dx) * Dot(dy, dy) == 0.0;
    assert Coefficient(x, y, sqrt) == Quotient(Dot(dx, dy), Dot(dx, dx), Dot(dy, dy), sqrt);
  }

  lemma {:induction false} LinearSum(x: seq<real>, y: seq<real>, k: real, c: real)
    requires |x| == |y|
    requires forall i :: 0 <= i < |x| ==> y[i] == k * x[i] + c
    ensures Sum(y) == k * Sum(x) + c * (|x| as real)
  {
    if |x| > 0 {
      LinearSum(x[1..], y[1..], k, c);
    }
  }

  /** The mean of `k * x + c` is `k * mean(x) + c`. */
  lemma LinearMean(x: seq<real>, y: seq<real>, k: real, c: real)
    requires |x| == |y| > 0
    requires forall i :: 0 <= i < |x| ==> y[i] == k * x[i] + c
    ensures Mean(y) == k * Mean(x) + c
  {
    var n := |x| as real;
    LinearSum(x, y, k, c);
    assert Mean(y) * n == k * (Mean(x) * n) + c * n;
    assert (Mean(y) - k * Mean(x) - c) * n == 0.0;
  }

  /** The square root of the square of a positive number is that number. */
  lemma SqrtOfSquare(sqrt: real -> real, p: real, v: real)
    requires IsSqrt(sqrt) && v > 0.0 && p == v * v
    ensures sqrt(p) == v
  {
    SquareIsProduct(v);
    RootOfNonNegative(sqrt, p);
    EqualSquares(sqrt(p), v);
  }

  /** Of two numbers with the same square, a non-negative one equals a positive one. */
  lemma EqualSquares(s: real, v: real)
    requires s >= 0.0 && v > 0.0 && s * s == v * v
    ensures s == v
  {
    assert (s - v) * (s + v) == s * s - v * v;
    if s != v {
      ProductNonZero(s - v, s + v);
    }
  }

  /** `numerator / sqrt(sumX2 * sumY2)` is exactly 1 when the numerator is positive and its
      square is `sumX2 * sumY2`. */
  lemma UnitQuotient(numerator: real, sumX2: real, sumY2: real, sqrt: real -> real)
    requires IsSqrt(sqrt) && numerator > 0.0
    requires sumX2 * sumY2 == numerator * numerator
    ensures Quotient(numerator, sumX2, sumY2, sqrt) == Some(1.0)
  {
    SqrtOfSquare(sqrt, sumX2 * sumY2, numerator);
    var d := sqrt(sumX2 * sumY2);
    assert d == numerator;
    assert Quotient(numerator, sumX2, sumY2, sqrt) == if d != 0.0 then Some(numerator / d) else None;
    assert numerator / d == 1.0;
  }

  /** A column that is an increasing linear function of the other, `y = k * x + c` with
      `k > 0`, and not constant, has coefficient exactly 1. */
  lemma PerfectLinear(x: seq<real>, y: seq<real>, k: real, c: real, sqrt: real -> real)
    requires IsSqrt(sqrt) && |x| == |y| > 1 && k > 0.0
    requires x[0] != x[1]
    requires forall i :: 0 <= i < |x| ==> y[i] == k * x[i] + c
    ensures Coefficient(x, y, sqrt) == Some(1.0)
  {
    var dx, dy := Deviations(x, Mean(x)), Deviations(y, Mean(y));
    LinearDeviations(x, y, k, c);
    SpreadDeviations(x);
    var A := Dot(dx, dx);
    ScaledDot(dx, dy, k);
    ProductPositive(k, A);
    ScaledSquares(k, A, Dot(dx, dy), Dot(dy, dy));
    UnitQuotient(Dot(dx, dy), A, Dot(dy, dy), sqrt);
    assert Coefficient(x, y, sqrt) == Quotient(Dot(dx, dy), A, Dot(dy, dy), sqrt);
  }

  /** The deviations of `k * x + c` are `k` times those of `x`. */
  lemma LinearDeviations(x: seq<real>, y: seq<real>, k: real, c: real)
    requires |x| == |y| > 0
    requires forall i :: 0 <= i < |x| ==> y[i] == k * x[i] + c
    ensures var dx, dy := Deviations(x, Mean(x)), Deviations(y, Mean(y));
            forall i :: 0 <= i < |x| ==> dy[i] == k * dx[i]
  {
    LinearMean(x, y, k, c);
  }

  /** A list whose first two values differ has a positive sum of squared deviations. */
  lemma SpreadDeviations(x: seq<real>)
    requires |x| > 1 && x[0] != x[1]
    ensures var dx := Deviations(x, Mean(x)); Dot(dx, dx) > 0.0
  {
    var dx := Deviations(x, Mean(x));
    if dx[0] != 0.0 {
      DotSelfPositive(dx, 0);
    } else {
      DotSelfPositive(dx, 1);
    }
  }

  lemma ScaledSquares(k: real, A: real, numerator: real, sumY2: real)
    requires numerator == k * A && sumY2 == k * k * A
    ensures A * sumY2 == numerator * numerator
  {
  }

  lemma {:induction false} ScaledDot(a: seq<real>, b: seq<real>, k: real)
    requires |a| == |b|
    requires forall i :: 0 <= i < |a| ==> b[i] == k * a[i]
    ensures Dot(a, b) == k * Dot(a, a)
    ensures Dot(b, b) == k * k * Dot(a, a)
  {
    if |a| > 0 {
      var n := |a|;
      ScaledDot(a[..n - 1], b[..n - 1], k);
      assert b[n - 1] * b[n - 1] == k * k * (a[n - 1] * a[n - 1]);
    }
  }

  /** `x = [1, 2, 3, 4, 5]` and `y = [2, 4, 6, 8, 10]` give exactly 1. */
  lemma DoubledValues(x: seq<real>, y: seq<real>, sqrt: real -> real)
    requires IsSqrt(sqrt)
    requires x == [1.0, 2.0, 3.0, 4.0, 5.0] && y == [2.0, 4.0, 6.0, 8.0, 10.0]
    ensures Coefficient(x, y, sqrt) == Some(1.0)
  {
    PerfectLinear(x, y, 2.0, 0.0, sqrt);
  }

  /** Whether the route stores a coefficient for two different columns: their numeric value
      lists have the same length, above one. */
  predicate Paired(data: seq<Row>, a: string, b: string) {
    |NumericValues(data, a)| == |NumericValues(data, b)| > 1
  }

  /** What iteration `(i, j)` of the nested loop writes into row `columns[i]` under key
      `columns[j]`: 1 on the diagonal, the coefficient for a paired column, nothing otherwise. */
  function CellWrite(data: seq<Row>, columns: seq<string>, i: nat, j: nat, sqrt: real -> real)
    : Option<Option<real>>
    requires i < |columns| && j < |columns|
  {
    if i == j then Some(Some(1.0))
    else if Paired(data, columns[i], columns[j]) then
      Some(Coefficient(NumericValues(data, columns[i]), NumericValues(data, columns[j]), sqrt))
    else None
  }

  /** The writes of the inner loop for row `columns[i]`, by column position. */
  function RowWrites(data: seq<Row>, columns: seq<string>, i: nat, sqrt: real -> real)
    : nat -> Option<Option<real>>
  {
    (j: nat) => if i < |columns| && j < |columns| then CellWrite(data, columns, i, j, sqrt) else None
  }

  /** The writes of the outer loop: the finished row of every column. */
  function MatrixWrites(data: seq<Row>, columns: seq<string>, sqrt: real -> real)
    : nat -> Option<Record<Option<real>>>
  {
    (i: nat) => if i < |columns| then Some(Assigned(columns, |columns|, RowWrites(data, columns, i, sqrt)))
         else None
  }

  /** The correlation matrix the handler returns for the numeric columns `columns`. */
  function Matrix(data: seq<Row>, columns: seq<string>, sqrt: real -> real)
    : Record<Record<Option<real>>>
  {
    Assigned(columns, |columns|, MatrixWrites(data, columns, sqrt))
  }

  /** The handler's outer loop over the numeric columns. Row `correlations[a] = {}` is
      created and then filled by the inner loop (`BuildRow`); it is reachable only through
      its key, so it is built aside and stored when complete. The rows are keyed by exactly
      the numeric columns. */
  method BuildMatrix(data: seq<Row>, columns: seq<string>, sqrt: real -> real)
    returns (correlations: Record<Record<Option<real>>>)
    ensures correlations == Matrix(data, NumericColumns(data, columns), sqrt)
    ensures KeySet(correlations) == set c | c in NumericColumns(data, columns)
  {
    var numericColumns := NumericColumns(data, columns);
    var n := |numericColumns|;
    ghost var rows := MatrixWrites(data, numericColumns, sqrt);
    correlations := [];
    for i := 0 to n
      invariant correlations == Assigned(numericColumns, i, rows)
    {
      var row := BuildRow(data, numericColumns, i, sqrt);
      AssignedPut(numericColumns, i, rows, row);
      correlations := Put(correlations, numericColumns[i], row);
    }
    AssignedKeys(numericColumns, n, rows);
    ListedAll(numericColumns);
  }

  /** The handler's inner loop: the row of column `columns[i]`, holding 1 under its own
      name and the coefficient with every other paired column. */
  method BuildRow(data: seq<Row>, columns: seq<string>, i: nat, sqrt: real -> real)
    returns (row: Record<Option<real>>)
    requires i < |columns|
    ensures row == Assigned(columns, |columns|, RowWrites(data, columns, i, sqrt))
  {
    ghost var cells := RowWrites(data, columns, i, sqrt);
    row := [];
    for j := 0 to |columns|
      invariant row == Assigned(columns, j, cells)
    {
      assert cells(j) == CellWrite(data, columns, i, j, sqrt);
      if i == j {
        AssignedPut(columns, j, cells, Some(1.0));
        row := Put(row, columns[j], Some(1.0));
      } else {
        var x := NumericValues(data, columns[i]);
        var y := NumericValues(data, columns[j]);
        if |x| == |y| && |x| > 1 {
          var r := CalculateCorrelation(x, y, sqrt);
          AssignedPut(columns, j, cells, r);
          row := Put(row, columns[j], r);
        } else {
          AssignedSkip(columns, j, cells);
        }
      }
    }
  }

  /** The cell in row `a`, column `b` of the finished matrix, `None` when absent. */
  function MatrixCell(matrix: Record<Record<Option<real>>>, a: string, b: string)
    : Option<Option<real>>
  {
    match Get(matrix, a)
    case None => None
    case Some(row) => Get(row, b)
  }

  /** A column requested more than once has its row rebuilt at every occurrence; the row
      left in the matrix is the one built at its last occurrence. */
  lemma MatrixRow(data: seq<Row>, columns: seq<string>, a: string, sqrt: real -> real)
    requires a in columns
    ensures Get(Matrix(data, columns, sqrt), a)
              == Some(Assigned(columns, |columns|, RowWrites(data, columns, LastIndex(columns, a), sqrt)))
  {
    AssignedLast(columns, |columns|, MatrixWrites(data, columns, sqrt), LastIndex(columns, a));
  }

  /** In the row built at position `ia`, the cell of a column other than `columns[ia]` holds
      the coefficient when the two are paired and is absent otherwise. */
  lemma RowCellOther(data: seq<Row>, columns: seq<string>, ia: nat, b: string, sqrt: real -> real)
    requires ia < |columns| && b in columns && b != columns[ia]
    ensures var cell := Get(Assigned(columns, |columns|, RowWrites(data, columns, ia, sqrt)), b);
            cell == if Paired(data, columns[ia], b)
                    then Some(Coefficient(NumericValues(data, columns[ia]), NumericValues(data, b), sqrt))
                    else None
  {
    var cells := RowWrites(data, columns, ia, sqrt);
    if Paired(data, columns[ia], b) {
      var ib := LastIndex(columns, b);
      assert cells(ib) == CellWrite(data, columns, ia, ib, sqrt);
      AssignedLast(columns, |columns|, cells, ib);
    } else {
      forall m | 0 <= m < |columns| && columns[m] == b ensures cells(m).None? {
        assert cells(m) == CellWrite(data, columns, ia, m, sqrt);
      }
      AssignedAbsent(columns, |columns|, cells, b);
    }
  }

  /** The cells of the matrix over the numeric columns, a column requested twice included:
      every diagonal cell is exactly 1, whatever the data; an off-diagonal cell exists iff
      the two columns are paired, and then holds their coefficient. */
  lemma MatrixCells(data: seq<Row>, columns: seq<string>, i: nat, j: nat, sqrt: real -> real)
    requires i < |columns| && j < |columns|
    ensures var a, b := columns[i], columns[j];
            var cell := MatrixCell(Matrix(data, columns, sqrt), a, b);
            && (a == b ==> cell == Some(Some(1.0)))
            && (a != b ==> (cell.Some? <==> Paired(data, a, b)))
            && (a != b && cell.Some? ==>
                  cell.value == Coefficient(NumericValues(data, a), NumericValues(data, b), sqrt))
  {
    var a, b := columns[i], columns[j];
    var ia := LastIndex(columns, a);
    MatrixRow(data, columns, a, sqrt);
    if a == b {
      var cells := RowWrites(data, columns, ia, sqrt);
      assert cells(ia) == CellWrite(data, columns, ia, ia, sqrt);
      AssignedLast(columns, |columns|, cells, ia);
    } else {
      RowCellOther(data, columns, ia, b, sqrt);
    }
  }

  /** Every cell equals its mirror, present or absent, a column requested twice included. */
  lemma MatrixSymmetric(data: seq<Row>, columns: seq<string>, i: nat, j: nat, sqrt: real -> real)
    requires i < |columns| && j < |columns|
    ensures var matrix := Matrix(data, columns, sqrt);
            MatrixCell(matrix, columns[i], columns[j]) == MatrixCell(matrix, columns[j], columns[i])
  {
    MatrixCells(data, columns, i, j, sqrt);
    MatrixCells(data, columns, j, i, sqrt);
    if columns[i] != columns[j] && Paired(data, columns[i], columns[j]) {
      CoefficientSymmetric(NumericValues(data, columns[i]), NumericValues(data, columns[j]), sqrt);
    }
  }
}
