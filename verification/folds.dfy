/** Fitting one direction of one mode pair: five-fold cross-validation over the key-sorted players. */
module CrossValidation {
  import opened Common
  import opened Order
  import opened RatingPrior
  import opened Reals
  import opened Seeding
  import opened PairMoments
  import opened ErrorSummary

  const FOLDS: nat := 5

  predicate ByKey(a: Observation, b: Observation) {
    Less(a.key, b.key)
  }

  lemma KeyOrder()
    ensures IsOrder(ByKey)
  {
    StringOrder();
    forall a: Observation ensures !ByKey(a, a) {
      LessIrreflexive(a.key);
    }
    forall a: Observation, b: Observation, c: Observation | ByKey(a, b) && ByKey(b, c) ensures ByKey(a, c) {
      LessTransitive(a.key, b.key, c.key);
    }
    forall a: Observation, b: Observation, c: Observation | ByKey(a, c) ensures ByKey(a, b) || ByKey(b, c) {
      assert Less(a.key, c.key);
      assert Less(a.key, b.key) || Less(b.key, c.key);
    }
  }

  // ----- the folds

  /** The fold a position of the key-sorted players is in. */
  function FoldOf(i: nat): nat {
    i % FOLDS
  }

  /** Everyone outside fold `f`. */
  function Train(obs: seq<Observation>, f: nat): seq<Observation> {
    if obs == [] then [] else
    var n := |obs| - 1;
    Train(obs[..n], f) + if FoldOf(n) == f then [] else [obs[n]]
  }

  /** The positions of fold `f` among the first `n`. */
  function Fold(n: nat, f: nat): (r: seq<nat>)
    ensures forall j :: 0 <= j < |r| ==> r[j] < n
  {
    if n == 0 then [] else Fold(n - 1, f) + if FoldOf(n - 1) == f then [n - 1] else []
  }

  function Pick(obs: seq<Observation>, who: seq<nat>): (r: seq<Observation>)
    requires forall j :: 0 <= j < |who| ==> who[j] < |obs|
    ensures |r| == |who|
  {
    seq(|who|, j requires 0 <= j < |who| => obs[who[j]])
  }

  function Test(obs: seq<Observation>, f: nat): seq<Observation> {
    Pick(obs, Fold(|obs|, f))
  }

  /** What each fold is predicted with: the moments of everyone else. */
  function FoldMoments(obs: seq<Observation>, sqrt: real -> real): (ms: seq<Option<Moments>>)
    requires IsSqrt(sqrt)
    ensures |ms| == FOLDS && forall f :: 0 <= f < FOLDS ==> ms[f] == MomentsOf(Train(obs, f), sqrt)
  {
    seq(FOLDS, f requires 0 <= f < FOLDS => MomentsOf(Train(obs, f), sqrt))
  }

  /** Measured folds have a spread to predict from. */
  ghost predicate HasSpread(ms: seq<Option<Moments>>) {
    forall f :: 0 <= f < |ms| && ms[f].Some? ==> ms[f].value.sourceSD > 0.0
  }

  lemma FoldMomentsHaveSpread(obs: seq<Observation>, sqrt: real -> real)
    requires IsSqrt(sqrt)
    ensures HasSpread(FoldMoments(obs, sqrt))
  {
    forall f | 0 <= f < FOLDS && FoldMoments(obs, sqrt)[f].Some?
      ensures FoldMoments(obs, sqrt)[f].value.sourceSD > 0.0
    {
      CorrelationBounded(Train(obs, f), sqrt);
    }
  }

  function FoldStats(full: PairStats, m: Moments): (p: PairStats)
    ensures p.sourceSD == m.sourceSD
  {
    PairStats(full.sourceMode, full.targetMode, 0, m.correlation, m.sourceMean, m.sourceSD, m.targetMean, m.targetSD,
              0.0, 0.0, 0.0, 0.0, 0.0)
  }

  function SeedErrors(fold: PairStats, test: seq<Observation>): (r: seq<real>)
    requires fold.sourceSD > 0.0
    ensures |r| == |test|
  {
    seq(|test|, j requires 0 <= j < |test| => Predict(fold, test[j].source) - test[j].target)
  }

  function FlatErrors(test: seq<Observation>): (r: seq<real>)
    ensures |r| == |test|
  {
    seq(|test|, j requires 0 <= j < |test| => UNRATED_MU - test[j].target)
  }

  /** The errors of the first `k` folds, fold after fold, each predicted with its entry of `ms`. */
  function HeldOut(obs: seq<Observation>, full: PairStats, ms: seq<Option<Moments>>, k: nat): (seq<real>, seq<real>)
    requires HasSpread(ms) && k <= |ms|
  {
    if k == 0 then ([], []) else
    var (seeds, flats) := HeldOut(obs, full, ms, k - 1);
    var test := Test(obs, k - 1);
    if test == [] || ms[k - 1].None? then (seeds, flats) else
    (seeds + SeedErrors(FoldStats(full, ms[k - 1].value), test), flats + FlatErrors(test))
  }

  /** The loop that splits the players into one fold and the rest. */
  method Split(obs: seq<Observation>, f: nat) returns (train: seq<Observation>, test: seq<Observation>)
    ensures train == Train(obs, f) && test == Test(obs, f)
  {
    train, test := [], [];
    for i := 0 to |obs|
      invariant train == Train(obs[..i], f) && test == Pick(obs, Fold(i, f))
    {
      assert obs[..i + 1][..i] == obs[..i];
      if FoldOf(i) == f {
        test := test + [obs[i]];
      } else {
        train := train + [obs[i]];
      }
    }
    assert obs[..|obs|] == obs;
  }

  /** The loop that scores one held-out fold against both baselines. */
  method Score(fold: PairStats, test: seq<Observation>) returns (seeds: seq<real>, flats: seq<real>)
    requires fold.sourceSD > 0.0
    ensures seeds == SeedErrors(fold, test) && flats == FlatErrors(test)
  {
    seeds, flats := [], [];
    for j := 0 to |test|
      invariant seeds == SeedErrors(fold, test)[..j] && flats == FlatErrors(test)[..j]
    {
      seeds := seeds + [Predict(fold, test[j].source) - test[j].target];
      flats := flats + [UNRATED_MU - test[j].target];
    }
  }

  method HeldOutErrors(obs: seq<Observation>, full: PairStats, sqrt: real -> real)
    returns (seeds: seq<real>, flats: seq<real>)
    requires IsSqrt(sqrt)
    ensures HasSpread(FoldMoments(obs, sqrt))
    ensures (seeds, flats) == HeldOut(obs, full, FoldMoments(obs, sqrt), FOLDS)
  {
    ghost var ms := FoldMoments(obs, sqrt);
    FoldMomentsHaveSpread(obs, sqrt);
    seeds, flats := [], [];
    for f := 0 to FOLDS
      invariant (seeds, flats) == HeldOut(obs, full, ms, f)
    {
      var train, test := Split(obs, f);
      if test == [] {
        continue;
      }
      var m := ComputeMoments(train, sqrt);
      assert m == ms[f];
      if m.None? {
        continue;
      }
      var s, t := Score(FoldStats(full, m.value), test);
      seeds, flats := seeds + s, flats + t;
    }
  }

  // ----- who is scored, and by what

  /** The positions, of `n`, that the first `k` folds score, in the order their errors come out. */
  function Scored(n: nat, ms: seq<Option<Moments>>, k: nat): seq<nat>
    requires k <= |ms|
  {
    if k == 0 then [] else Scored(n, ms, k - 1) + if ms[k - 1].Some? then Fold(n, k - 1) else []
  }

  lemma {:induction false} FoldOnly(n: nat, f: nat)
    ensures forall j :: 0 <= j < |Fold(n, f)| ==> FoldOf(Fold(n, f)[j]) == f
  {
    if n > 0 {
      FoldOnly(n - 1, f);
    }
  }

  /** The folds are dealt like cards, so no two differ by more than one player and every one is filled from
      the whole range of keys: of the first `n` players, every fifth from the `f`-th on is in fold `f`. */
  lemma {:induction false} FoldSizes(n: nat, f: nat)
    requires f < FOLDS
    ensures 5 * |Fold(n, f)| <= n + 4 - f < 5 * |Fold(n, f)| + 5
    ensures forall j :: 0 <= j < |Fold(n, f)| ==> Fold(n, f)[j] == f + 5 * j
  {
    if n > 0 {
      FoldSizes(n - 1, f);
    }
  }

  /** The error of seeding player `i` from everyone outside their fold. */
  function SeedError(obs: seq<Observation>, full: PairStats, ms: seq<Option<Moments>>, i: nat): real
    requires HasSpread(ms) && i < |obs| && FoldOf(i) < |ms| && ms[FoldOf(i)].Some?
  {
    Predict(FoldStats(full, ms[FoldOf(i)].value), obs[i].source) - obs[i].target
  }

  /** The error of predicting a player from the moments `m` alone: up to the target mean on the
      least-squares line, and beyond it four fifths of the way. */
  function HeldOutError(m: Moments, o: Observation): real
    requires m.sourceSD > 0.0
  {
    var d := m.correlation * (m.targetSD / m.sourceSD) * (o.source - m.sourceMean);
    m.targetMean + (if d > 0.0 then d * 0.8 else d) - o.target
  }

  /** Of the full population's row nothing enters the error but the two mode keys. */
  lemma SeedErrorExactly(obs: seq<Observation>, full: PairStats, ms: seq<Option<Moments>>, i: nat)
    requires HasSpread(ms) && i < |obs| && FoldOf(i) < |ms| && ms[FoldOf(i)].Some?
    ensures SeedError(obs, full, ms, i) == HeldOutError(ms[FoldOf(i)].value, obs[i])
  {
  }

  /** Position `j` of both error lists is about player `who[j]`, predicted without that player's fold. */
  ghost predicate Aligned(obs: seq<Observation>, full: PairStats, ms: seq<Option<Moments>>,
                          who: seq<nat>, seeds: seq<real>, flats: seq<real>)
    requires HasSpread(ms)
  {
    && |seeds| == |flats| == |who|
    && forall j :: 0 <= j < |who| ==>
         && who[j] < |obs| && FoldOf(who[j]) < |ms| && ms[FoldOf(who[j])].Some?
         && seeds[j] == HeldOutError(ms[FoldOf(who[j])].value, obs[who[j]])
         && flats[j] == UNRATED_MU - obs[who[j]].target
  }

  lemma FoldAligned(obs: seq<Observation>, full: PairStats, ms: seq<Option<Moments>>, f: nat)
    requires HasSpread(ms) && f < |ms| && ms[f].Some?
    ensures Aligned(obs, full, ms, Fold(|obs|, f), SeedErrors(FoldStats(full, ms[f].value), Test(obs, f)),
                    FlatErrors(Test(obs, f)))
  {
    hide Predict, FoldOf, HeldOutError;
    var who := Fold(|obs|, f);
    FoldOnly(|obs|, f);
    forall j | 0 <= j < |who|
      ensures SeedErrors(FoldStats(full, ms[f].value), Test(obs, f))[j] == HeldOutError(ms[f].value, obs[who[j]])
    {
      SeedErrorExactly(obs, full, ms, who[j]);
    }
  }

  lemma AlignedTogether(obs: seq<Observation>, full: PairStats, ms: seq<Option<Moments>>,
                        who: seq<nat>, seeds: seq<real>, flats: seq<real>,
                        who': seq<nat>, seeds': seq<real>, flats': seq<real>)
    requires HasSpread(ms) && Aligned(obs, full, ms, who, seeds, flats) && Aligned(obs, full, ms, who', seeds', flats')
    ensures Aligned(obs, full, ms, who + who', seeds + seeds', flats + flats')
  {
    hide FoldOf, HeldOutError;
  }

  lemma HeldOutNext(obs: seq<Observation>, full: PairStats, ms: seq<Option<Moments>>, f: nat)
    requires HasSpread(ms) && f < |ms|
    ensures var (seeds, flats) := HeldOut(obs, full, ms, f);
      HeldOut(obs, full, ms, f + 1) ==
        if ms[f].None? then (seeds, flats) else
        (seeds + SeedErrors(FoldStats(full, ms[f].value), Test(obs, f)), flats + FlatErrors(Test(obs, f)))
  {
    var (seeds, flats) := HeldOut(obs, full, ms, f);
    if ms[f].Some? && Test(obs, f) == [] {
      assert seeds + SeedErrors(FoldStats(full, ms[f].value), Test(obs, f)) == seeds;
      assert flats + FlatErrors(Test(obs, f)) == flats;
    }
  }

  /** The two error lists speak of the same players in the same order. */
  lemma {:induction false} ErrorsAligned(obs: seq<Observation>, full: PairStats, ms: seq<Option<Moments>>, k: nat)
    requires HasSpread(ms) && k <= |ms|
    ensures Aligned(obs, full, ms, Scored(|obs|, ms, k), HeldOut(obs, full, ms, k).0, HeldOut(obs, full, ms, k).1)
  {
    if k > 0 {
      hide Aligned, HeldOut, Scored, Test, SeedErrors, FlatErrors;
      var f := k - 1;
      var (seeds, flats) := HeldOut(obs, full, ms, f);
      ErrorsAligned(obs, full, ms, f);
      HeldOutNext(obs, full, ms, f);
      ScoredNext(|obs|, ms, f);
      if ms[f].Some? {
        FoldAligned(obs, full, ms, f);
        AlignedTogether(obs, full, ms, Scored(|obs|, ms, f), seeds, flats, Fold(|obs|, f),
                        SeedErrors(FoldStats(full, ms[f].value), Test(obs, f)), FlatErrors(Test(obs, f)));
      } else {
        assert Scored(|obs|, ms, f) + [] == Scored(|obs|, ms, f);
      }
    }
  }

  /** Position `j` of both lists is the error of player `who[j]`: predicted from the moments of everyone
      outside that player's fold, and taken for an unrated player. */
  ghost predicate PredictedApart(obs: seq<Observation>, who: seq<nat>, seeds: seq<real>, flats: seq<real>,
                                 sqrt: real -> real)
    requires IsSqrt(sqrt)
  {
    && |seeds| == |flats| == |who|
    && forall j :: 0 <= j < |who| ==>
         && who[j] < |obs|
         && var m := MomentsOf(Train(obs, FoldOf(who[j])), sqrt);
         && m.Some? && m.value.sourceSD > 0.0
         && seeds[j] == HeldOutError(m.value, obs[who[j]])
         && flats[j] == UNRATED_MU - obs[who[j]].target
  }

  /** With the folds' own moments: every seeding error is that of predicting its player from the moments of
      everyone outside the player's fold, whatever row it is fitted for. */
  lemma HeldOutExactly(obs: seq<Observation>, full: PairStats, sqrt: real -> real)
    requires IsSqrt(sqrt)
    ensures HasSpread(FoldMoments(obs, sqrt))
    ensures var ms := FoldMoments(obs, sqrt);
      var (seeds, flats) := HeldOut(obs, full, ms, FOLDS);
      PredictedApart(obs, Scored(|obs|, ms, FOLDS), seeds, flats, sqrt)
  {
    hide HeldOutError, FoldOf, MomentsOf;
    FoldMomentsHaveSpread(obs, sqrt);
    ErrorsAligned(obs, full, FoldMoments(obs, sqrt), FOLDS);
  }

  /** The errors do not depend on the row fitted over the whole population. */
  lemma {:induction false} HeldOutIgnoresFull(obs: seq<Observation>, a: PairStats, b: PairStats,
                                              ms: seq<Option<Moments>>, k: nat)
    requires HasSpread(ms) && k <= |ms|
    ensures HeldOut(obs, a, ms, k) == HeldOut(obs, b, ms, k)
  {
    if k > 0 {
      HeldOutIgnoresFull(obs, a, b, ms, k - 1);
      var test := Test(obs, k - 1);
      if ms[k - 1].Some? {
        SeedErrorsSame(a, b, ms[k - 1].value, test);
      }
    }
  }

  lemma SeedErrorsSame(a: PairStats, b: PairStats, m: Moments, test: seq<Observation>)
    requires m.sourceSD > 0.0
    ensures SeedErrors(FoldStats(a, m), test) == SeedErrors(FoldStats(b, m), test)
  {
    forall o: Observation ensures Predict(FoldStats(a, m), o.source) == Predict(FoldStats(b, m), o.source) {
      assert Deviation(FoldStats(a, m), o.source) == Deviation(FoldStats(b, m), o.source);
    }
  }

  /** And a player's own target rating never enters their prediction: replaced by any other, it changes
      the error by exactly the difference. */
  lemma PredictionBlind(obs: seq<Observation>, i: nat, target: real, sqrt: real -> real)
    requires IsSqrt(sqrt) && i < |obs|
    ensures var f, other := FoldOf(i), obs[i].(target := target);
      var m, m' := MomentsOf(Train(obs, f), sqrt), MomentsOf(Train(obs[i := other], f), sqrt);
      && m' == m
      && (m.Some? ==> m.value.sourceSD > 0.0)
      && (m.Some? ==> HeldOutError(m.value, other) + target == HeldOutError(m.value, obs[i]) + obs[i].target)
  {
    NeverTrainsOwnFold(obs, i, obs[i].(target := target));
    if MomentsOf(Train(obs, FoldOf(i)), sqrt).Some? {
      CorrelationBounded(Train(obs, FoldOf(i)), sqrt);
    }
  }

  lemma AppendCount(xs: seq<nat>, ys: seq<nat>, i: nat)
    ensures multiset(xs + ys)[i] == multiset(xs)[i] + multiset(ys)[i]
  {
    assert multiset(xs + ys) == multiset(xs) + multiset(ys);
  }

  lemma SingleCount(present: bool, m: nat, i: nat)
    ensures multiset(if present then [m] else [])[i] == if present && i == m then 1 else 0
  {
  }

  lemma FoldNext(m: nat, f: nat)
    ensures Fold(m + 1, f) == Fold(m, f) + (if FoldOf(m) == f then [m] else []) && Fold(0, f) == []
  {
  }

  lemma {:induction false} FoldCount(n: nat, f: nat, i: nat)
    ensures multiset(Fold(n, f))[i] == if i < n && FoldOf(i) == f then 1 else 0
  {
    hide Fold, FoldOf;
    if n == 0 {
      FoldNext(0, f);
    } else {
      var m := n - 1;
      FoldNext(m, f);
      FoldCount(m, f, i);
      SingleCount(FoldOf(m) == f, m, i);
      AppendCount(Fold(m, f), if FoldOf(m) == f then [m] else [], i);
    }
  }

  lemma ScoredNext(n: nat, ms: seq<Option<Moments>>, f: nat)
    requires f < |ms|
    ensures Scored(n, ms, f + 1) == Scored(n, ms, f) + (if ms[f].Some? then Fold(n, f) else []) && Scored(n, ms, 0) == []
  {
  }

  /** Each player is scored exactly once if their fold has moments, and not at all otherwise. */
  lemma {:induction false} ScoredOnce(n: nat, ms: seq<Option<Moments>>, k: nat, i: nat)
    requires k <= |ms|
    ensures multiset(Scored(n, ms, k))[i] == if i < n && FoldOf(i) < k && ms[FoldOf(i)].Some? then 1 else 0
  {
    hide Scored, Fold, FoldOf;
    if k == 0 {
      ScoredNone(n, ms);
    } else {
      var f := k - 1;
      ScoredOnce(n, ms, f, i);
      ScoredNext(n, ms, f);
      FoldCount(n, f, i);
      AppendCount(Scored(n, ms, f), if ms[f].Some? then Fold(n, f) else [], i);
    }
  }

  lemma ScoredNone(n: nat, ms: seq<Option<Moments>>)
    ensures Scored(n, ms, 0) == []
  {
  }

  function Everyone(n: nat): seq<nat> {
    seq(n, i => i)
  }

  lemma {:induction false} EveryoneOnce(n: nat, i: nat)
    ensures multiset(Everyone(n))[i] == if i < n then 1 else 0
  {
    if n > 0 {
      EveryoneOnce(n - 1, i);
      assert Everyone(n) == Everyone(n - 1) + [n - 1];
    }
  }

  /** When every fold has moments the cross-validation scores the whole population, each player once. */
  lemma AllScored(n: nat, ms: seq<Option<Moments>>)
    requires |ms| == FOLDS && forall f :: 0 <= f < FOLDS ==> ms[f].Some?
    ensures multiset(Scored(n, ms, FOLDS)) == multiset(Everyone(n))
    ensures |Scored(n, ms, FOLDS)| == n
  {
    var a, b := multiset(Scored(n, ms, FOLDS)), multiset(Everyone(n));
    forall i: nat ensures a[i] == b[i] {
      ScoredOnce(n, ms, FOLDS, i);
      EveryoneOnce(n, i);
    }
    assert a == b;
    assert |a| == |b|;
  }

  /** Nobody trains their own fold: whatever player `i` is replaced by, their fold's training set, and
      so the moments they are predicted with, stay the same. */
  lemma {:induction false} NeverTrainsOwnFold(obs: seq<Observation>, i: nat, other: Observation)
    requires i < |obs|
    ensures Train(obs[i := other], FoldOf(i)) == Train(obs, FoldOf(i))
  {
    var n := |obs| - 1;
    if i < n {
      NeverTrainsOwnFold(obs[..n], i, other);
      assert obs[i := other][..n] == obs[..n][i := other];
    } else {
      assert obs[i := other][..n] == obs[..n];
    }
  }

  lemma SplitNext(obs: seq<Observation>, f: nat)
    requires obs != []
    ensures var n := |obs| - 1;
      && Test(obs, f) == Test(obs[..n], f) + (if FoldOf(n) == f then [obs[n]] else [])
      && Train(obs, f) == Train(obs[..n], f) + (if FoldOf(n) == f then [] else [obs[n]])
  {
    hide FoldOf;
    var n := |obs| - 1;
    FoldNext(n, f);
  }

  lemma PushEither(a: seq<Observation>, b: seq<Observation>, o: Observation)
    ensures multiset(a + [o]) + multiset(b) == multiset(a) + multiset(b) + multiset{o}
    ensures multiset(a) + multiset(b + [o]) == multiset(a) + multiset(b) + multiset{o}
    ensures a + [] == a && b + [] == b
  {
  }

  /** A fold and its training set split the population. */
  lemma {:induction false} FoldSplits(obs: seq<Observation>, f: nat)
    ensures multiset(Train(obs, f)) + multiset(Test(obs, f)) == multiset(obs)
  {
    if obs == [] {
      assert Train(obs, f) == [] && Test(obs, f) == [];
    } else {
      hide Train, Test, Fold, FoldOf;
      var n := |obs| - 1;
      FoldSplits(obs[..n], f);
      SplitNext(obs, f);
      PushEither(Train(obs[..n], f), Test(obs[..n], f), obs[n]);
      assert obs == obs[..n] + [obs[n]];
    }
  }

  // ----- the fit

  function Unmeasured(source: string, target: string, n: nat): PairStats {
    PairStats(source, target, n, 0.0, 0.0, 0.0, 0.0, 0.0, 0.0, 0.0, 0.0, 0.0, 0.0)
  }

  function WithMoments(p: PairStats, m: Moments): PairStats {
    p.(sourceMean := m.sourceMean, sourceSD := m.sourceSD, targetMean := m.targetMean, targetSD := m.targetSD,
       correlation := m.correlation)
  }

  function WithErrors(p: PairStats, seeds: seq<real>, flats: seq<real>, sqrt: real -> real): PairStats {
    p.(residualSD := Rms(seeds, sqrt), flatResidualSD := Rms(flats, sqrt), bias := Mean(seeds),
       absErrorP50 := AbsQuantile(seeds, 0.5), absErrorP90 := AbsQuantile(seeds, 0.9))
  }

  function FitOf(source: string, target: string, obs: seq<Observation>, sqrt: real -> real): PairStats
    requires IsSqrt(sqrt)
  {
    var ordered := Sort(obs, ByKey);
    var m := MomentsOf(ordered, sqrt);
    if m.None? then Unmeasured(source, target, |obs|) else
    var stats := WithMoments(Unmeasured(source, target, |obs|), m.value);
    if |ordered| < FOLDS then stats else
    FoldMomentsHaveSpread(ordered, sqrt);
    var (seeds, flats) := HeldOut(ordered, stats, FoldMoments(ordered, sqrt), FOLDS);
    if seeds == [] then stats else WithErrors(stats, seeds, flats, sqrt)
  }

  method Fit(source: string, target: string, obs: seq<Observation>, sqrt: real -> real) returns (stats: PairStats)
    requires IsSqrt(sqrt)
    ensures stats == FitOf(source, target, obs, sqrt)
  {
    stats := Unmeasured(source, target, |obs|);
    var ordered := Sort(obs, ByKey);
    var m := ComputeMoments(ordered, sqrt);
    if m.None? {
      return;
    }
    stats := WithMoments(stats, m.value);
    if |ordered| < FOLDS {
      return;
    }
    var seeds, flats := HeldOutErrors(ordered, stats, sqrt);
    if seeds == [] {
      return;
    }
    var residual := ComputeRms(seeds, sqrt);
    var flat := ComputeRms(flats, sqrt);
    var bias := ComputeMean(seeds);
    var p50 := ComputeAbsQuantile(seeds, 0.5);
    var p90 := ComputeAbsQuantile(seeds, 0.9);
    stats := stats.(residualSD := residual, flatResidualSD := flat, bias := bias, absErrorP50 := p50, absErrorP90 := p90);
  }

  lemma NobodyApart(obs: seq<Observation>, sqrt: real -> real)
    requires IsSqrt(sqrt)
    ensures PredictedApart(obs, [], [], [], sqrt)
  {
  }

  /** The five error numbers of a row, from the errors themselves: two root mean squares, the mean and two
      quantiles of the seeding's, and zeroes when nobody was scored. */
  ghost predicate Summarises(p: PairStats, seeds: seq<real>, flats: seq<real>) {
    && Squares(|seeds|, p.residualSD) == SumSq(seeds) && p.residualSD >= 0.0
    && Squares(|flats|, p.flatResidualSD) == SumSq(flats) && p.flatResidualSD >= 0.0
    && |seeds| as real * p.bias == Sum(seeds)
    && p.absErrorP50 == AbsQuantile(seeds, 0.5) && p.absErrorP90 == AbsQuantile(seeds, 0.9)
    && (seeds == [] ==> p.residualSD == p.flatResidualSD == p.bias == 0.0)
  }

  lemma NothingSummarised(p: PairStats)
    requires p.residualSD == p.flatResidualSD == p.bias == p.absErrorP50 == p.absErrorP90 == 0.0
    ensures Summarises(p, [], [])
  {
  }

  lemma ErrorsSummarised(p: PairStats, seeds: seq<real>, flats: seq<real>, sqrt: real -> real)
    requires IsSqrt(sqrt) && seeds != [] && |flats| == |seeds|
    ensures Summarises(WithErrors(p, seeds, flats, sqrt), seeds, flats)
  {
    hide Rms, Mean, AbsQuantile, Squares, SumSq, Sum;
    Summed(seeds, sqrt);
    Summed(flats, sqrt);
  }

  /** Who a fit scores: nobody without moments or among fewer than five players, and otherwise everyone
      whose fold has moments. */
  function ScoredIn(ordered: seq<Observation>, sqrt: real -> real): seq<nat>
    requires IsSqrt(sqrt)
  {
    if MomentsOf(ordered, sqrt).None? || |ordered| < FOLDS then []
    else Scored(|ordered|, FoldMoments(ordered, sqrt), FOLDS)
  }

  /** What a row reports, number by number: the moments of all its players, and the summary of the
      held-out errors of those scored; zeroes where there was nothing to measure. */
  lemma FitExactly(source: string, target: string, obs: seq<Observation>, sqrt: real -> real)
    returns (seeds: seq<real>, flats: seq<real>)
    requires IsSqrt(sqrt)
    ensures var ordered, p := Sort(obs, ByKey), FitOf(source, target, obs, sqrt);
      var m := MomentsOf(ordered, sqrt);
      && p.sourceMode == source && p.targetMode == target && p.pairedPlayers == |obs|
      && Moments(p.sourceMean, p.sourceSD, p.targetMean, p.targetSD, p.correlation) ==
           (if m.Some? then m.value else Moments(0.0, 0.0, 0.0, 0.0, 0.0))
      && PredictedApart(ordered, ScoredIn(ordered, sqrt), seeds, flats, sqrt)
      && Summarises(p, seeds, flats)
  {
    hide MomentsOf, Scored, HeldOut, FoldMoments, Train, FoldOf, HeldOutError, Summarises;
    var ordered := Sort(obs, ByKey);
    var m := MomentsOf(ordered, sqrt);
    seeds, flats := [], [];
    if m.None? || |ordered| < FOLDS {
      NothingSummarised(FitOf(source, target, obs, sqrt));
      NobodyApart(ordered, sqrt);
    } else {
      var stats := WithMoments(Unmeasured(source, target, |obs|), m.value);
      HeldOutExactly(ordered, stats, sqrt);
      var errors := HeldOut(ordered, stats, FoldMoments(ordered, sqrt), FOLDS);
      seeds, flats := errors.0, errors.1;
      if seeds != [] {
        ErrorsSummarised(stats, seeds, flats, sqrt);
      } else {
        NothingSummarised(stats);
      }
    }
  }

  lemma Summed(errs: seq<real>, sqrt: real -> real)
    requires IsSqrt(sqrt) && errs != []
    ensures Squares(|errs|, Rms(errs, sqrt)) == SumSq(errs) && Rms(errs, sqrt) >= 0.0
    ensures |errs| as real * Mean(errs) == Sum(errs)
  {
    MeanSquareScaled(errs, sqrt);
    MeanScaled(errs);
    SumSqNonNegative(errs);
    assert SumSq(errs) / |errs| as real >= 0.0;
  }

  /** The fit does not depend on the order the players come in, when no two share a key. */
  lemma FitOrderFree(source: string, target: string, a: seq<Observation>, b: seq<Observation>, sqrt: real -> real)
    requires IsSqrt(sqrt) && multiset(a) == multiset(b)
    requires forall i, j :: 0 <= i < j < |a| ==> a[i].key != a[j].key
    ensures FitOf(source, target, a, sqrt) == FitOf(source, target, b, sqrt)
  {
    KeyOrder();
    forall i, j | 0 <= i < j < |a| ensures ByKey(a[i], a[j]) || ByKey(a[j], a[i]) {
      LessTotal(a[i].key, a[j].key);
    }
    SortOrderFree(a, b, ByKey);
    assert |multiset(a)| == |multiset(b)|;
  }

  /** Whatever the players, the stored row is coherent: a correlation within one, a bias within the
      residual, a median error within the ninetieth percentile. */
  lemma FitCoherent(source: string, target: string, obs: seq<Observation>, sqrt: real -> real)
    requires IsSqrt(sqrt)
    ensures var p := FitOf(source, target, obs, sqrt);
      && Abs(p.correlation) <= 1.0 && Abs(p.bias) <= p.residualSD && p.absErrorP50 <= p.absErrorP90
      && p.sourceSD >= 0.0 && p.targetSD >= 0.0
      && p.sourceMode == source && p.targetMode == target && p.pairedPlayers == |obs|
  {
    var ordered := Sort(obs, ByKey);
    var m := MomentsOf(ordered, sqrt);
    if m.Some? {
      CorrelationBounded(ordered, sqrt);
      var stats := WithMoments(Unmeasured(source, target, |obs|), m.value);
      FoldMomentsHaveSpread(ordered, sqrt);
      var (seeds, flats) := HeldOut(ordered, stats, FoldMoments(ordered, sqrt), FOLDS);
      if |ordered| >= FOLDS && seeds != [] {
        ResidualSplits(seeds, sqrt);
        QuantileOrder(seeds, 0.5, 0.9);
      }
    }
  }

  lemma {:induction false} InsertSwapped(xs: seq<Observation>, x: Observation)
    ensures Swap(Insert(xs, x, ByKey)) == Insert(Swap(xs), Observation(x.key, x.target, x.source), ByKey)
  {
    if xs != [] {
      var n := |xs| - 1;
      InsertSwapped(xs[..n], x);
      assert Swap(xs)[..n] == Swap(xs[..n]);
    }
  }

  lemma {:induction false} SortSwapped(xs: seq<Observation>)
    ensures Swap(Sort(xs, ByKey)) == Sort(Swap(xs), ByKey)
  {
    if xs != [] {
      var n := |xs| - 1;
      SortSwapped(xs[..n]);
      assert Swap(xs)[..n] == Swap(xs[..n]);
      InsertSwapped(Sort(xs[..n], ByKey), xs[n]);
    }
  }

  /** Fitted the other way round, a pair reports the same players and the same correlation. */
  lemma FitSwapped(source: string, target: string, obs: seq<Observation>, sqrt: real -> real)
    requires IsSqrt(sqrt)
    ensures var p, r := FitOf(source, target, obs, sqrt), FitOf(target, source, Swap(obs), sqrt);
      && r.pairedPlayers == p.pairedPlayers && r.correlation == p.correlation
      && r.sourceMean == p.targetMean && r.sourceSD == p.targetSD
      && r.targetMean == p.sourceMean && r.targetSD == p.sourceSD
  {
    SortSwapped(obs);
    MomentsSwapped(Sort(obs, ByKey), sqrt);
  }
}
