/** Means, spreads and the correlation of the players two modes have in common. */
module PairMoments {
  import opened Common
  import opened Reals

  datatype Observation = Observation(key: string, source: real, target: real)

  datatype Moments = Moments(sourceMean: real, sourceSD: real, targetMean: real, targetSD: real, correlation: real)

  function Sources(obs: seq<Observation>): (r: seq<real>)
    ensures |r| == |obs|
  {
    seq(|obs|, i requires 0 <= i < |obs| => obs[i].source)
  }

  function Targets(obs: seq<Observation>): (r: seq<real>)
    ensures |r| == |obs|
  {
    seq(|obs|, i requires 0 <= i < |obs| => obs[i].target)
  }

  // ----- moments

  /** The squared deviations of a rating list about its own mean. */
  function Scatter(xs: seq<real>): real {
    SumSq(Dev(xs, Mean(xs)))
  }

  function CoScatter(xs: seq<real>, ys: seq<real>): real
    requires |xs| == |ys|
  {
    Dot(Dev(xs, Mean(xs)), Dev(ys, Mean(ys)))
  }

  lemma RootZero(sqrt: real -> real, x: real)
    requires IsSqrt(sqrt) && x >= 0.0
    ensures sqrt(x) == 0.0 <==> x == 0.0
    ensures sqrt(x) >= 0.0
  {
    assert sqrt(x) >= 0.0 && sqrt(x) * sqrt(x) == x;
    if sqrt(x) > 0.0 {
      ProductSign(sqrt(x), sqrt(x), x);
    }
  }

  lemma ProductSign(r: real, s: real, x: real)
    requires r > 0.0 && s > 0.0 && x == r * s
    ensures x > 0.0
  {
  }

  /** Two positive spreads have a positive product under the root. */
  lemma DenominatorPositive(sqrt: real -> real, a: real, b: real, n: real)
    requires IsSqrt(sqrt) && a >= 0.0 && b >= 0.0 && n > 0.0
    requires sqrt(a / n) != 0.0 && sqrt(b / n) != 0.0
    ensures a > 0.0 && b > 0.0 && a * b > 0.0
    ensures ProductRoot(a, b, sqrt) > 0.0 && ProductRoot(a, b, sqrt) * ProductRoot(a, b, sqrt) == a * b
  {
    RootZero(sqrt, a / n);
    RootZero(sqrt, b / n);
    assert a > 0.0 && b > 0.0;
    PositiveProduct(a, b);
    RootZero(sqrt, a * b);
  }

  function StandardDeviation(scatter: real, n: real, sqrt: real -> real): real
    requires n > 0.0
  {
    sqrt(scatter / n)
  }

  function ProductRoot(a: real, b: real, sqrt: real -> real): real {
    sqrt(a * b)
  }

  function Pearson(a: real, b: real, c: real, n: real, sqrt: real -> real): real
    requires IsSqrt(sqrt) && a >= 0.0 && b >= 0.0 && n > 0.0
    requires StandardDeviation(a, n, sqrt) != 0.0 && StandardDeviation(b, n, sqrt) != 0.0
  {
    DenominatorPositive(sqrt, a, b, n);
    c / ProductRoot(a, b, sqrt)
  }

  function MomentsFrom(a: real, b: real, c: real, n: real, meanS: real, meanT: real, sqrt: real -> real): Option<Moments>
    requires IsSqrt(sqrt) && a >= 0.0 && b >= 0.0 && n > 0.0
  {
    var sdS, sdT := StandardDeviation(a, n, sqrt), StandardDeviation(b, n, sqrt);
    if sdS == 0.0 || sdT == 0.0 then None else
    Some(Moments(meanS, sdS, meanT, sdT, Pearson(a, b, c, n, sqrt)))
  }

  function MomentsOf(obs: seq<Observation>, sqrt: real -> real): Option<Moments>
    requires IsSqrt(sqrt)
  {
    if |obs| < 2 then None else
    var s, t := Sources(obs), Targets(obs);
    SumSqNonNegative(Dev(s, Mean(s)));
    SumSqNonNegative(Dev(t, Mean(t)));
    MomentsFrom(Scatter(s), Scatter(t), CoScatter(s, t), |obs| as real, Mean(s), Mean(t), sqrt)
  }

  /** The first loop of `moments`. */
  method SumBoth(obs: seq<Observation>) returns (sumS: real, sumT: real)
    ensures sumS == Sum(Sources(obs)) && sumT == Sum(Targets(obs))
  {
    ghost var s, t := Sources(obs), Targets(obs);
    sumS, sumT := 0.0, 0.0;
    for i := 0 to |obs|
      invariant sumS == Sum(s[..i]) && sumT == Sum(t[..i])
    {
      SumStep(s, i);
      SumStep(t, i);
      sumS := sumS + obs[i].source;
      sumT := sumT + obs[i].target;
    }
    assert s[..|obs|] == s && t[..|obs|] == t;
  }

  /** The second loop of `moments`. */
  method ScatterBoth(obs: seq<Observation>, meanS: real, meanT: real) returns (varS: real, varT: real, cov: real)
    ensures varS == SumSq(Dev(Sources(obs), meanS)) && varT == SumSq(Dev(Targets(obs), meanT))
    ensures cov == Dot(Dev(Sources(obs), meanS), Dev(Targets(obs), meanT))
  {
    ghost var ds', dt' := Dev(Sources(obs), meanS), Dev(Targets(obs), meanT);
    varS, varT, cov := 0.0, 0.0, 0.0;
    for i := 0 to |obs|
      invariant varS == SumSq(ds'[..i]) && varT == SumSq(dt'[..i])
      invariant cov == Dot(ds'[..i], dt'[..i])
    {
      DotStep(ds', ds', i);
      DotStep(dt', dt', i);
      DotStep(ds', dt', i);
      var ds, dt := obs[i].source - meanS, obs[i].target - meanT;
      assert ds == ds'[i] && dt == dt'[i];
      varS := varS + ds * ds;
      varT := varT + dt * dt;
      cov := cov + ds * dt;
    }
    assert ds'[..|obs|] == ds' && dt'[..|obs|] == dt';
  }

  method ComputeMoments(obs: seq<Observation>, sqrt: real -> real) returns (m: Option<Moments>)
    requires IsSqrt(sqrt)
    ensures m == MomentsOf(obs, sqrt)
  {
    var n := |obs| as real;
    if |obs| < 2 {
      return None;
    }
    var sumS, sumT := SumBoth(obs);
    var meanS, meanT := sumS / n, sumT / n;
    var varS, varT, cov := ScatterBoth(obs, meanS, meanT);
    SumSqNonNegative(Dev(Sources(obs), meanS));
    SumSqNonNegative(Dev(Targets(obs), meanT));
    var sdS, sdT := StandardDeviation(varS, n, sqrt), StandardDeviation(varT, n, sqrt);
    if sdS == 0.0 || sdT == 0.0 {
      return None;
    }
    return Some(Moments(meanS, sdS, meanT, sdT, Pearson(varS, varT, cov, n, sqrt)));
  }

  /** There are no moments exactly when there are fewer than two players or all of them stand at one place in
      one of the modes. */
  lemma NoMomentsExactly(obs: seq<Observation>, sqrt: real -> real)
    requires IsSqrt(sqrt)
    ensures MomentsOf(obs, sqrt).None? <==> |obs| < 2 || AllSame(Sources(obs)) || AllSame(Targets(obs))
  {
    if |obs| >= 2 {
      NoDeviation(Sources(obs), sqrt);
      NoDeviation(Targets(obs), sqrt);
    }
  }

  lemma NoDeviation(xs: seq<real>, sqrt: real -> real)
    requires IsSqrt(sqrt) && xs != []
    ensures StandardDeviation(Scatter(xs), |xs| as real, sqrt) == 0.0 <==> AllSame(xs)
  {
    NoSpreadExactly(xs);
    SumSqNonNegative(Dev(xs, Mean(xs)));
    assert Scatter(xs) / |xs| as real >= 0.0;
    RootZero(sqrt, Scatter(xs) / |xs| as real);
  }

  /** The measured numbers are the means, the population deviations and Pearson's correlation, whose sign
      is that of the co-variation: high players in one mode are high in the other or they are not. */
  lemma MomentsExactly(obs: seq<Observation>, sqrt: real -> real)
    requires IsSqrt(sqrt) && MomentsOf(obs, sqrt).Some?
    ensures var m, s, t, n := MomentsOf(obs, sqrt).value, Sources(obs), Targets(obs), |obs| as real;
      && n * m.sourceMean == Sum(s) && n * m.targetMean == Sum(t)
      && n * (m.sourceSD * m.sourceSD) == Scatter(s) && n * (m.targetSD * m.targetSD) == Scatter(t)
      && m.correlation * m.correlation * (Scatter(s) * Scatter(t)) == CoScatter(s, t) * CoScatter(s, t)
      && (m.correlation > 0.0 <==> CoScatter(s, t) > 0.0) && (m.correlation < 0.0 <==> CoScatter(s, t) < 0.0)
  {
    var s, t, n := Sources(obs), Targets(obs), |obs| as real;
    SumSqNonNegative(Dev(s, Mean(s)));
    SumSqNonNegative(Dev(t, Mean(t)));
    MeanScaled(s);
    MeanScaled(t);
    DenominatorPositive(sqrt, Scatter(s), Scatter(t), n);
    RatioExactly(CoScatter(s, t), ProductRoot(Scatter(s), Scatter(t), sqrt), Scatter(s) * Scatter(t));
    RootScaled(sqrt, Scatter(s), n);
    RootScaled(sqrt, Scatter(t), n);
  }

  lemma RootScaled(sqrt: real -> real, a: real, n: real)
    requires IsSqrt(sqrt) && a >= 0.0 && n > 0.0
    ensures n * (StandardDeviation(a, n, sqrt) * StandardDeviation(a, n, sqrt)) == a
  {
    assert a / n >= 0.0;
    assert n * (a / n) == a;
  }

  lemma RatioExactly(c: real, q: real, ab: real)
    requires q > 0.0 && q * q == ab
    ensures c / q * (c / q) * ab == c * c
    ensures (c / q > 0.0 <==> c > 0.0) && (c / q < 0.0 <==> c < 0.0)
  {
    var r := c / q;
    assert r * q == c;
    assert r * r * (q * q) == (r * q) * (r * q);
    if r > 0.0 {
      PositiveProduct(r, q);
    } else if r < 0.0 {
      PositiveProduct(-r, q);
      assert -r * q == -c;
    }
  }

  lemma RatioWithinOne(c: real, q: real, ab: real)
    requires q > 0.0 && q * q == ab && c * c <= ab
    ensures Abs(c / q) <= 1.0
  {
    SquareOrder(c, q);
    assert (c / q) * q == c;
    NonPositiveFactor(c / q - 1.0, q);
    NonPositiveFactor(-(c / q) - 1.0, q);
  }

  /** A measured correlation is a correlation: never beyond one in size. */
  lemma CorrelationBounded(obs: seq<Observation>, sqrt: real -> real)
    requires IsSqrt(sqrt) && MomentsOf(obs, sqrt).Some?
    ensures Abs(MomentsOf(obs, sqrt).value.correlation) <= 1.0
    ensures MomentsOf(obs, sqrt).value.sourceSD > 0.0 && MomentsOf(obs, sqrt).value.targetSD > 0.0
  {
    var s, t := Sources(obs), Targets(obs);
    var a, b, c := Scatter(s), Scatter(t), CoScatter(s, t);
    SumSqNonNegative(Dev(s, Mean(s)));
    SumSqNonNegative(Dev(t, Mean(t)));
    CauchySchwarz(Dev(s, Mean(s)), Dev(t, Mean(t)));
    MomentsFromBounded(a, b, c, |obs| as real, Mean(s), Mean(t), sqrt);
  }

  lemma MomentsFromBounded(a: real, b: real, c: real, n: real, meanS: real, meanT: real, sqrt: real -> real)
    requires IsSqrt(sqrt) && a >= 0.0 && b >= 0.0 && n > 0.0 && c * c <= a * b
    requires MomentsFrom(a, b, c, n, meanS, meanT, sqrt).Some?
    ensures var m := MomentsFrom(a, b, c, n, meanS, meanT, sqrt).value;
      Abs(m.correlation) <= 1.0 && m.sourceSD > 0.0 && m.targetSD > 0.0
  {
    DenominatorPositive(sqrt, a, b, n);
    RatioWithinOne(c, ProductRoot(a, b, sqrt), a * b);
    RootZero(sqrt, a / n);
    RootZero(sqrt, b / n);
  }

  function Swap(obs: seq<Observation>): (r: seq<Observation>)
    ensures |r| == |obs|
  {
    seq(|obs|, i requires 0 <= i < |obs| => Observation(obs[i].key, obs[i].target, obs[i].source))
  }

  /** Measured the other way round, a pair has the same correlation and the two modes' own moments
      change places. */
  lemma MomentsSwapped(obs: seq<Observation>, sqrt: real -> real)
    requires IsSqrt(sqrt)
    ensures var m, w := MomentsOf(obs, sqrt), MomentsOf(Swap(obs), sqrt);
      && (m.Some? <==> w.Some?)
      && (m.Some? ==> w.value == Moments(m.value.targetMean, m.value.targetSD, m.value.sourceMean, m.value.sourceSD,
                                         m.value.correlation))
  {
    var s, t := Sources(obs), Targets(obs);
    assert Sources(Swap(obs)) == t && Targets(Swap(obs)) == s;
    if |obs| >= 2 {
      DotCommutes(Dev(s, Mean(s)), Dev(t, Mean(t)));
      assert Scatter(s) * Scatter(t) == Scatter(t) * Scatter(s);
    }
  }
}
