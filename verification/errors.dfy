/** How a pair's held-out errors are summed up: their size, their lean, and their quantiles. */
module ErrorSummary {
  import opened Order
  import opened Reals

  predicate Below(a: real, b: real) {
    a < b
  }

  /** The root mean square: the errors' size about zero. */
  function Rms(errs: seq<real>, sqrt: real -> real): real {
    if errs == [] then 0.0 else sqrt(SumSq(errs) / |errs| as real)
  }

  method ComputeRms(errs: seq<real>, sqrt: real -> real) returns (r: real)
    ensures r == Rms(errs, sqrt)
  {
    if errs == [] {
      return 0.0;
    }
    var total := 0.0;
    for i := 0 to |errs|
      invariant total == SumSq(errs[..i])
    {
      DotStep(errs, errs, i);
      total := total + errs[i] * errs[i];
    }
    assert errs[..|errs|] == errs;
    return sqrt(total / |errs| as real);
  }

  method ComputeMean(errs: seq<real>) returns (r: real)
    ensures r == Mean(errs)
  {
    if errs == [] {
      return 0.0;
    }
    var total := 0.0;
    for i := 0 to |errs|
      invariant total == Sum(errs[..i])
    {
      SumStep(errs, i);
      total := total + errs[i];
    }
    assert errs[..|errs|] == errs;
    return total / |errs| as real;
  }

  // ----- quantiles

  function Ceil(x: real): int {
    -((-x).Floor)
  }

  /** The index the nearest-rank rule reads, clamped into the list. */
  function Rank(q: real, n: nat): (r: nat)
    requires n > 0
    ensures r < n
  {
    var idx := Ceil(q * n as real) - 1;
    if idx < 0 then 0 else if idx >= n then n - 1 else idx
  }

  function Sizes(errs: seq<real>): (r: seq<real>)
    ensures |r| == |errs|
  {
    seq(|errs|, i requires 0 <= i < |errs| => Abs(errs[i]))
  }

  function AbsQuantile(errs: seq<real>, q: real): real {
    if errs == [] then 0.0 else Sort(Sizes(errs), Below)[Rank(q, |errs|)]
  }

  method ComputeAbsQuantile(errs: seq<real>, q: real) returns (r: real)
    ensures r == AbsQuantile(errs, q)
  {
    if errs == [] {
      return 0.0;
    }
    var abs := new real[|errs|];
    for i := 0 to |errs|
      invariant forall j :: 0 <= j < i ==> abs[j] == Abs(errs[j])
    {
      abs[i] := Abs(errs[i]);
    }
    assert abs[..] == Sizes(errs);
    var sorted := Sort(abs[..], Below);
    var idx := Ceil(q * |errs| as real) - 1;
    if idx < 0 {
      idx := 0;
    }
    if idx >= |errs| {
      idx := |errs| - 1;
    }
    return sorted[idx];
  }

  lemma RankOrder(q: real, q': real, n: nat)
    requires n > 0 && q <= q'
    ensures Rank(q, n) <= Rank(q', n)
  {
    NonNegativeProduct(q' - q, n as real);
    assert q' * n as real - q * n as real == (q' - q) * n as real;
  }

  /** A higher quantile is never a smaller error; so the 90th percentile is at least the median. */
  lemma QuantileOrder(errs: seq<real>, q: real, q': real)
    requires q <= q'
    ensures AbsQuantile(errs, q) <= AbsQuantile(errs, q')
  {
    if errs != [] {
      RankOrder(q, q', |errs|);
      SortSorts(Sizes(errs), Below);
    }
  }

  /** A quantile is some player's error, as nearest rank promises. */
  lemma QuantileIsAnError(errs: seq<real>, q: real) returns (i: nat)
    requires errs != []
    ensures i < |errs| && AbsQuantile(errs, q) == Abs(errs[i])
  {
    var sizes := Sizes(errs);
    var x := AbsQuantile(errs, q);
    SortPermutes(sizes, Below);
    assert x in Sort(sizes, Below);
    assert x in multiset(sizes);
    i :| 0 <= i < |sizes| && sizes[i] == x;
  }

  // ----- what the summary numbers say about one another

  /** `ResidualSD^2` is the errors' own variance plus the square of their bias, so the bias is part of
      what the residual reports and never exceeds it. */
  lemma ResidualSplits(errs: seq<real>, sqrt: real -> real)
    requires IsSqrt(sqrt) && errs != []
    ensures Rms(errs, sqrt) * Rms(errs, sqrt)
         == SumSq(Dev(errs, Mean(errs))) / |errs| as real + Mean(errs) * Mean(errs)
    ensures Abs(Mean(errs)) <= Rms(errs, sqrt)
  {
    var n := |errs| as real;
    SumSqNonNegative(errs);
    SumSqNonNegative(Dev(errs, Mean(errs)));
    SumSqDevMean(errs);
    SplitSquares(SumSq(errs), SumSq(Dev(errs, Mean(errs))), n, Mean(errs));
    assert SumSq(errs) / n >= 0.0;
    SquareOrder(Mean(errs), Rms(errs, sqrt));
  }

  lemma SplitSquares(squares: real, about: real, n: real, m: real)
    requires n > 0.0 && about == squares - n * m * m && about >= 0.0
    ensures squares / n == about / n + m * m
    ensures m * m <= squares / n
  {
    assert n * m * m == n * (m * m);
    assert squares == about + n * (m * m);
    assert n * (m * m) / n == m * m;
    assert about / n >= 0.0;
  }

  lemma {:induction false} SizesSquares(errs: seq<real>)
    ensures SumSq(Sizes(errs)) == SumSq(errs)
  {
    if errs != [] {
      var n := |errs| - 1;
      SizesSquares(errs[..n]);
      assert Sizes(errs)[..n] == Sizes(errs[..n]);
      assert Abs(errs[n]) * Abs(errs[n]) == errs[n] * errs[n];
    }
  }

  lemma SquaresGrow(x: real, y: real)
    requires 0.0 <= x <= y
    ensures x * x <= y * y
  {
    assert y * y - x * x == (y - x) * (y + x);
    assert (y - x) * (y + x) >= 0.0;
  }

  /** `n` times the square of `x`. */
  function Squares(n: int, x: real): real {
    n as real * (x * x)
  }

  /** From position `k` on, every square is at least the square there. */
  lemma {:induction false} TailSquares(xs: seq<real>, k: nat, n: nat)
    requires Sorted(xs, Below) && k < |xs| && k <= n <= |xs|
    requires forall i :: 0 <= i < |xs| ==> xs[i] >= 0.0
    ensures Squares(n - k, xs[k]) <= SumSq(xs[..n])
  {
    if n == k {
      SumSqNonNegative(xs[..n]);
    } else {
      TailSquares(xs, k, n - 1);
      DotStep(xs, xs, n - 1);
      SquaresGrow(xs[k], xs[n - 1]);
      assert Squares(n - k, xs[k]) == Squares(n - 1 - k, xs[k]) + xs[k] * xs[k];
    }
  }

  /** The tail a quantile cuts off weighs on the residual: the `n - Rank` players from the quantile up,
      each as wrong as the quantile, already account for that much of `n` residual squares. */
  lemma TailWeighsOnResidual(errs: seq<real>, q: real, sqrt: real -> real)
    requires IsSqrt(sqrt) && errs != []
    ensures Squares(|errs| - Rank(q, |errs|), AbsQuantile(errs, q)) <= Squares(|errs|, Rms(errs, sqrt))
  {
    var sorted := Sort(Sizes(errs), Below);
    SortedSizes(errs);
    TailSquares(sorted, Rank(q, |errs|), |sorted|);
    assert sorted[..|sorted|] == sorted;
    MeanSquareScaled(errs, sqrt);
  }

  lemma SortedSizes(errs: seq<real>)
    ensures var sorted := Sort(Sizes(errs), Below);
      && Sorted(sorted, Below) && SumSq(sorted) == SumSq(errs)
      && forall i :: 0 <= i < |sorted| ==> sorted[i] >= 0.0
  {
    var sizes := Sizes(errs);
    var sorted := Sort(sizes, Below);
    SortSorts(sizes, Below);
    SortPermutes(sizes, Below);
    forall i | 0 <= i < |sorted| ensures sorted[i] >= 0.0 {
      assert sorted[i] in multiset(sorted);
      assert sorted[i] in sizes;
    }
    SumSqPermuted(sorted, sizes);
    SizesSquares(errs);
  }

  lemma MeanSquareScaled(errs: seq<real>, sqrt: real -> real)
    requires IsSqrt(sqrt) && errs != []
    ensures Squares(|errs|, Rms(errs, sqrt)) == SumSq(errs)
  {
    SumSqNonNegative(errs);
    var n := |errs| as real;
    assert SumSq(errs) / n >= 0.0;
    assert n * (SumSq(errs) / n) == SumSq(errs);
  }

  /** Which rank the two reported quantiles read: `ceil(n/2)` and `ceil(9n/10)`, counting from one. */
  lemma ReportedRanks(n: nat)
    requires n > 0
    ensures Rank(0.5, n) + 1 == (n + 1) / 2
    ensures Rank(0.9, n) + 1 == (9 * n + 9) / 10
  {
    CeilOfRatio(n, 1, 2);
    CeilOfRatio(n, 9, 10);
  }

  lemma CeilOfRatio(n: nat, a: nat, b: nat)
    requires b > 0 && (a, b) in {(1, 2), (9, 10)}
    ensures Ceil(a as real / b as real * n as real) == (a * n + b - 1) / b
  {
    var c := (a * n + b - 1) / b;
    var x := a as real / b as real * n as real;
    assert c as real - 1.0 < x <= c as real;
  }
}
