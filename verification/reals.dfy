/** Sums over real sequences, and the inequalities about them that dispersion and the cold-start
    fit rest on.  Floating point is idealised to exact reals. */
module Reals {
  /** What `math.Sqrt` promises of an exact argument. */
  ghost predicate IsSqrt(sqrt: real -> real) {
    forall x: real :: 0.0 <= x ==> sqrt(x) >= 0.0 && sqrt(x) * sqrt(x) == x
  }

  function Abs(x: real): real {
    if x < 0.0 then -x else x
  }

  function Sum(xs: seq<real>): real {
    if xs == [] then 0.0 else Sum(xs[..|xs| - 1]) + xs[|xs| - 1]
  }

  function Dot(xs: seq<real>, ys: seq<real>): real
    requires |xs| == |ys|
  {
    if xs == [] then 0.0 else Dot(xs[..|xs| - 1], ys[..|ys| - 1]) + xs[|xs| - 1] * ys[|ys| - 1]
  }

  function SumSq(xs: seq<real>): real {
    Dot(xs, xs)
  }

  function Mean(xs: seq<real>): real {
    if xs == [] then 0.0 else Sum(xs) / |xs| as real
  }

  /** The deviations of `xs` about `m`. */
  function Dev(xs: seq<real>, m: real): (r: seq<real>)
    ensures |r| == |xs|
  {
    seq(|xs|, i requires 0 <= i < |xs| => xs[i] - m)
  }

  lemma DevPrefix(xs: seq<real>, m: real, n: nat)
    requires n <= |xs|
    ensures Dev(xs, m)[..n] == Dev(xs[..n], m)
  {
  }

  lemma {:induction false} SumSqNonNegative(xs: seq<real>)
    ensures SumSq(xs) >= 0.0
  {
    if xs != [] {
      SumSqNonNegative(xs[..|xs| - 1]);
    }
  }

  lemma {:induction false} DotCommutes(xs: seq<real>, ys: seq<real>)
    requires |xs| == |ys|
    ensures Dot(xs, ys) == Dot(ys, xs)
  {
    if xs != [] {
      DotCommutes(xs[..|xs| - 1], ys[..|ys| - 1]);
    }
  }

  /** The squares about any point `m`, by the sums of `xs`. */
  lemma {:induction false} SumSqDev(xs: seq<real>, m: real)
    ensures SumSq(Dev(xs, m)) == SumSq(xs) - 2.0 * m * Sum(xs) + |xs| as real * m * m
  {
    if xs != [] {
      var n := |xs| - 1;
      DevPrefix(xs, m, n);
      SumSqDev(xs[..n], m);
      var x := xs[n];
      assert (x - m) * (x - m) == x * x - 2.0 * m * x + m * m;
      assert |xs| as real == n as real + 1.0;
      assert |xs| as real * m * m == n as real * m * m + m * m;
    }
  }

  lemma SumStep(xs: seq<real>, i: nat)
    requires i < |xs|
    ensures Sum(xs[..i + 1]) == Sum(xs[..i]) + xs[i]
  {
    assert xs[..i + 1][..i] == xs[..i];
  }

  lemma DotStep(xs: seq<real>, ys: seq<real>, i: nat)
    requires i < |xs| == |ys|
    ensures Dot(xs[..i + 1], ys[..i + 1]) == Dot(xs[..i], ys[..i]) + xs[i] * ys[i]
  {
    assert xs[..i + 1][..i] == xs[..i] && ys[..i + 1][..i] == ys[..i];
  }

  lemma MeanScaled(xs: seq<real>)
    requires xs != []
    ensures Sum(xs) == |xs| as real * Mean(xs)
  {
  }

  /** About the mean, the squares lose exactly the mean's own. */
  lemma SumSqDevMean(xs: seq<real>)
    requires xs != []
    ensures SumSq(Dev(xs, Mean(xs))) == SumSq(xs) - |xs| as real * Mean(xs) * Mean(xs)
  {
    var m, n := Mean(xs), |xs| as real;
    SumSqDev(xs, m);
    MeanScaled(xs);
    assert 2.0 * m * (n * m) == 2.0 * (n * m * m);
  }

  /** `xs - t * ys`. */
  function Residuals(xs: seq<real>, ys: seq<real>, t: real): (r: seq<real>)
    requires |xs| == |ys|
    ensures |r| == |xs|
  {
    seq(|xs|, i requires 0 <= i < |xs| => xs[i] - t * ys[i])
  }

  lemma ResidualsPrefix(xs: seq<real>, ys: seq<real>, t: real, n: nat)
    requires n <= |xs| == |ys|
    ensures Residuals(xs, ys, t)[..n] == Residuals(xs[..n], ys[..n], t)
  {
    forall i | 0 <= i < n ensures Residuals(xs, ys, t)[..n][i] == Residuals(xs[..n], ys[..n], t)[i] {
      assert xs[..n][i] == xs[i] && ys[..n][i] == ys[i];
    }
  }

  /** `a - 2tc + t^2 b`, the squared residuals by the sums they come from. */
  function Quadratic(a: real, c: real, b: real, t: real): real {
    a - 2.0 * t * c + t * t * b
  }

  lemma {:induction false} ResidualSquares(xs: seq<real>, ys: seq<real>, t: real)
    requires |xs| == |ys|
    ensures SumSq(Residuals(xs, ys, t)) == Quadratic(SumSq(xs), Dot(xs, ys), SumSq(ys), t)
  {
    if xs != [] {
      var n := |xs| - 1;
      ResidualsPrefix(xs, ys, t, n);
      ResidualSquares(xs[..n], ys[..n], t);
      QuadraticStep(SumSq(xs[..n]), Dot(xs[..n], ys[..n]), SumSq(ys[..n]), t, xs[n], ys[n],
                    SumSq(xs), Dot(xs, ys), SumSq(ys));
    }
  }

  lemma QuadraticStep(a: real, c: real, b: real, t: real, x: real, y: real, a': real, c': real, b': real)
    requires a' == a + x * x && c' == c + x * y && b' == b + y * y
    ensures Quadratic(a', c', b', t) == Quadratic(a, c, b, t) + (x - t * y) * (x - t * y)
  {
    assert (x - t * y) * (x - t * y) == x * x - 2.0 * t * (x * y) + t * t * (y * y);
    Distribute(t, c, x * y, b, y * y);
  }

  lemma Distribute(t: real, a: real, b: real, c: real, d: real)
    ensures 2.0 * t * (a + b) == 2.0 * t * a + 2.0 * t * b
    ensures t * t * (c + d) == t * t * c + t * t * d
  {
  }

  /** Cauchy-Schwarz. */
  lemma CauchySchwarz(xs: seq<real>, ys: seq<real>)
    requires |xs| == |ys|
    ensures Dot(xs, ys) * Dot(xs, ys) <= SumSq(xs) * SumSq(ys)
  {
    SumSqNonNegative(ys);
    if SumSq(ys) > 0.0 {
      var t := Dot(xs, ys) / SumSq(ys);
      ResidualSquares(xs, ys, t);
      SumSqNonNegative(Residuals(xs, ys, t));
      Discriminant(SumSq(xs), SumSq(ys), Dot(xs, ys), t);
    } else {
      ZeroSquares(xs, ys);
    }
  }

  lemma Discriminant(a: real, b: real, c: real, t: real)
    requires b > 0.0 && t == c / b && Quadratic(a, c, b, t) >= 0.0
    ensures c * c <= a * b
  {
    assert t * b == c;
    assert t * t * b == t * c;
    assert a >= t * c;
    assert (a - t * c) * b >= 0.0;
    assert t * c * b == (t * b) * c;
  }

  lemma {:induction false} ZeroSquares(xs: seq<real>, ys: seq<real>)
    requires |xs| == |ys| && SumSq(ys) == 0.0
    ensures Dot(xs, ys) == 0.0
  {
    if ys != [] {
      var n := |ys| - 1;
      SumSqNonNegative(ys[..n]);
      if ys[n] != 0.0 {
        PositiveProduct(Abs(ys[n]), Abs(ys[n]));
      }
      ZeroSquares(xs[..n], ys[..n]);
    }
  }

  function Times(x: real, y: real): real {
    x * y
  }

  lemma {:induction false} SquaresVanish(ys: seq<real>)
    ensures SumSq(ys) == 0.0 <==> forall i :: 0 <= i < |ys| ==> ys[i] == 0.0
  {
    if ys == [] {
      assert SumSq(ys) == 0.0;
    } else {
      hide Times, SumSq;
      var n := |ys| - 1;
      SquaresVanish(ys[..n]);
      SumSqNonNegative(ys[..n]);
      SumSqLast(ys);
      SquareZero(ys[n]);
      assert forall i :: 0 <= i < n ==> ys[..n][i] == ys[i];
    }
  }

  lemma SumSqLast(ys: seq<real>)
    requires ys != []
    ensures SumSq(ys) == SumSq(ys[..|ys| - 1]) + Times(ys[|ys| - 1], ys[|ys| - 1])
  {
  }

  lemma SquareZero(x: real)
    ensures Times(x, x) >= 0.0 && (Times(x, x) == 0.0 <==> x == 0.0)
  {
    if x > 0.0 {
      TimesPositive(x, x);
    } else if x < 0.0 {
      TimesPositive(-x, -x);
      assert Times(-x, -x) == Times(x, x);
    }
  }

  lemma TimesPositive(x: real, y: real)
    requires x > 0.0 && y > 0.0
    ensures Times(x, y) > 0.0
  {
  }

  lemma {:induction false} ConstantSum(xs: seq<real>, x: real)
    requires forall i :: 0 <= i < |xs| ==> xs[i] == x
    ensures Sum(xs) == |xs| as real * x
  {
    if xs != [] {
      ConstantSum(xs[..|xs| - 1], x);
    }
  }

  ghost predicate AllSame(xs: seq<real>) {
    forall i, j :: 0 <= i < |xs| && 0 <= j < |xs| ==> xs[i] == xs[j]
  }

  /** Numbers have no spread about their mean exactly when they are all the same. */
  lemma NoSpreadExactly(xs: seq<real>)
    requires xs != []
    ensures SumSq(Dev(xs, Mean(xs))) == 0.0 <==> AllSame(xs)
  {
    var m := Mean(xs);
    var d := Dev(xs, m);
    SquaresVanish(d);
    if AllSame(xs) {
      ConstantSum(xs, xs[0]);
      ScaleBack(|xs| as real, xs[0]);
      assert m == xs[0];
    } else {
      var i, j :| 0 <= i < |xs| && 0 <= j < |xs| && xs[i] != xs[j];
      assert d[i] != 0.0 || d[j] != 0.0;
    }
  }

  lemma ScaleBack(n: real, x: real)
    requires n > 0.0
    ensures n * x / n == x
  {
  }

  lemma NonNegativeProduct(x: real, y: real)
    requires x >= 0.0 && y >= 0.0
    ensures x * y >= 0.0
  {
  }

  lemma PositiveProduct(x: real, y: real)
    requires x > 0.0 && y > 0.0
    ensures x * y > 0.0
  {
  }

  /** Squares order non-negative numbers. */
  lemma SquareOrder(x: real, y: real)
    requires y >= 0.0 && x * x <= y * y
    ensures Abs(x) <= y
  {
    var z := Abs(x);
    assert z * z == x * x;
    if z + y > 0.0 {
      assert (z - y) * (z + y) == z * z - y * y;
      NonPositiveFactor(z - y, z + y);
    }
  }

  lemma NonPositiveFactor(x: real, y: real)
    requires y > 0.0 && x * y <= 0.0
    ensures x <= 0.0
  {
  }

  // ----- sums of squares do not depend on order

  lemma {:induction false} SumSqRemove(xs: seq<real>, k: nat)
    requires k < |xs|
    ensures SumSq(xs) == SumSq(xs[..k] + xs[k + 1..]) + xs[k] * xs[k]
  {
    var n := |xs| - 1;
    var rest := xs[..k] + xs[k + 1..];
    if k == n {
      assert rest == xs[..n];
    } else {
      SumSqRemove(xs[..n], k);
      assert rest[..|rest| - 1] == xs[..n][..k] + xs[..n][k + 1..];
    }
  }

  /** The last of `xs` sits somewhere in `ys`; without it the two are still permutations. */
  lemma MatchLast(xs: seq<real>, ys: seq<real>) returns (k: nat)
    requires multiset(xs) == multiset(ys) && xs != []
    ensures k < |ys| && ys[k] == xs[|xs| - 1]
    ensures multiset(ys[..k] + ys[k + 1..]) == multiset(xs[..|xs| - 1])
  {
    var n := |xs| - 1;
    assert xs == xs[..n] + [xs[n]];
    assert xs[n] in multiset(ys);
    k :| 0 <= k < |ys| && ys[k] == xs[n];
    assert ys == ys[..k] + [ys[k]] + ys[k + 1..];
    assert multiset(ys) == multiset(ys[..k]) + multiset([ys[k]]) + multiset(ys[k + 1..]);
    assert multiset(xs) == multiset(xs[..n]) + multiset([xs[n]]);
    assert multiset(ys[..k] + ys[k + 1..]) == multiset(ys) - multiset([xs[n]]);
    assert multiset(xs[..n]) == multiset(xs) - multiset([xs[n]]);
  }

  lemma {:induction false} SumSqPermuted(xs: seq<real>, ys: seq<real>)
    requires multiset(xs) == multiset(ys)
    ensures SumSq(xs) == SumSq(ys)
    decreases |xs|
  {
    if xs == [] {
      assert |multiset(xs)| == |multiset(ys)|;
    } else {
      var k := MatchLast(xs, ys);
      SumSqRemove(ys, k);
      SumSqPermuted(xs[..|xs| - 1], ys[..k] + ys[k + 1..]);
    }
  }
}
