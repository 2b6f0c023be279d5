/** Seeding a rating in a mode from one the player holds in another mode of the game. */
module Seeding {
  import opened Common
  import opened Order
  import opened RatingPrior

  const CONVERGED_SIGMA: real := UNRATED_SIGMA / 2.0
  const SEED_SIGMA_FLOOR: real := UNRATED_SIGMA / 2.0
  const MIN_PAIRED_PLAYERS := 30
  const UPWARD_CAUTION: real := 0.8

  datatype PairStats = PairStats(
    sourceMode: string, targetMode: string, pairedPlayers: nat, correlation: real,
    sourceMean: real, sourceSD: real, targetMean: real, targetSD: real,
    residualSD: real, flatResidualSD: real, bias: real, absErrorP50: real, absErrorP90: real)

  datatype Rating = Rating(mu: real, sigma: real)

  datatype SourceRating = SourceRating(mode: string, rating: Rating)

  datatype Seed = Seed(rating: Rating, sourceMode: string, sourceMu: real, correlation: real, pairedPlayers: nat)

  predicate Usable(p: PairStats) {
    && p.pairedPlayers >= MIN_PAIRED_PLAYERS
    && p.correlation > 0.0
    && p.sourceSD > 0.0
    && p.residualSD > 0.0
    && p.flatResidualSD > 0.0
    && p.residualSD < p.flatResidualSD
    && p.residualSD < UNRATED_SIGMA
  }

  // ----- the prediction

  function Deviation(p: PairStats, mu: real): real
    requires p.sourceSD != 0.0
  {
    p.correlation * (p.targetSD / p.sourceSD) * (mu - p.sourceMean)
  }

  /** Every caller holds a pair with a spread in its source mode. */
  function Predict(p: PairStats, mu: real): real
    requires p.sourceSD != 0.0
  {
    var deviation := Deviation(p, mu);
    p.targetMean + if deviation > 0.0 then deviation * UPWARD_CAUTION else deviation
  }

  /** The least-squares line the prediction starts from. */
  function Regression(p: PairStats, mu: real): real
    requires p.sourceSD != 0.0
  {
    p.targetMean + Deviation(p, mu)
  }

  function SeedSigma(p: PairStats): real {
    var floored := if p.residualSD >= SEED_SIGMA_FLOOR then p.residualSD else SEED_SIGMA_FLOOR;
    if floored <= UNRATED_SIGMA then floored else UNRATED_SIGMA
  }

  lemma Slope(c: real, t: real, s: real, x: real, y: real)
    requires c > 0.0 && t >= 0.0 && s > 0.0 && x <= y
    ensures c * (t / s) * x <= c * (t / s) * y
  {
    assert t / s >= 0.0;
    assert c * (t / s) >= 0.0;
    assert c * (t / s) * (y - x) >= 0.0;
  }

  /** The least-squares line: a player stands, in target deviations from the target mean, the correlation
      times where they stand in source deviations from the source mean. */
  lemma RegressionExactly(p: PairStats, mu: real)
    requires p.sourceSD > 0.0
    ensures (Regression(p, mu) - p.targetMean) * p.sourceSD == p.correlation * p.targetSD * (mu - p.sourceMean)
  {
    Rescaled(p.correlation, p.targetSD, p.sourceSD, mu - p.sourceMean);
  }

  lemma Rescaled(c: real, t: real, s: real, d: real)
    requires s > 0.0
    ensures c * (t / s) * d * s == c * t * d
  {
    assert t / s * s == t;
    assert c * (t / s) * d * s == c * (t / s * s) * d;
  }

  /** A better source rating never seeds lower. */
  lemma PredictMonotone(p: PairStats, mu: real, mu': real)
    requires Usable(p) && p.targetSD >= 0.0 && mu <= mu'
    ensures Predict(p, mu) <= Predict(p, mu')
  {
    Slope(p.correlation, p.targetSD, p.sourceSD, mu - p.sourceMean, mu' - p.sourceMean);
  }

  /** Upward caution only ever lowers a seed: it keeps the regression up to the mean, and above the
      mean it keeps four fifths of the way up, so caution never turns a high seed into a low one. */
  lemma CautionOnlyUpward(p: PairStats, mu: real)
    requires Usable(p)
    ensures Predict(p, mu) <= Regression(p, mu)
    ensures Predict(p, mu) == Regression(p, mu) <==> Regression(p, mu) <= p.targetMean
    ensures p.targetMean <= Predict(p, mu) <==> p.targetMean <= Regression(p, mu)
    ensures Regression(p, mu) > p.targetMean ==>
      Predict(p, mu) - p.targetMean == UPWARD_CAUTION * (Regression(p, mu) - p.targetMean)
  {
  }

  /** A seed claims at most twice what the flat prior knows and never less than it, a usable pair's always
      something; within that range it claims just what was measured. */
  lemma SeedSigmaRange(p: PairStats)
    ensures UNRATED_SIGMA / 2.0 <= SeedSigma(p) <= UNRATED_SIGMA
    ensures Usable(p) ==> p.residualSD <= SeedSigma(p) < UNRATED_SIGMA
    ensures UNRATED_SIGMA / 2.0 <= p.residualSD <= UNRATED_SIGMA <==> SeedSigma(p) == p.residualSD
  {
  }

  // ----- choosing a source

  predicate ByMode(a: SourceRating, b: SourceRating) {
    Less(a.mode, b.mode)
  }

  lemma ModeOrder()
    ensures IsOrder(ByMode)
  {
    StringOrder();
    forall a: SourceRating ensures !ByMode(a, a) {
      LessIrreflexive(a.mode);
    }
    forall a: SourceRating, b: SourceRating, c: SourceRating | ByMode(a, c) ensures ByMode(a, b) || ByMode(b, c) {
      assert Less(a.mode, c.mode);
      assert Less(a.mode, b.mode) || Less(b.mode, c.mode);
    }
    forall a: SourceRating, b: SourceRating, c: SourceRating | ByMode(a, b) && ByMode(b, c) ensures ByMode(a, c) {
      LessTransitive(a.mode, b.mode, c.mode);
    }
  }

  predicate Qualifies(src: SourceRating, stats: map<string, PairStats>) {
    src.rating.sigma <= CONVERGED_SIGMA && src.mode in stats && Usable(stats[src.mode])
  }

  function SeedFrom(src: SourceRating, stats: map<string, PairStats>): Seed
    requires Qualifies(src, stats)
  {
    var st := stats[src.mode];
    Seed(Rating(Predict(st, src.rating.mu), SeedSigma(st)), src.mode, src.rating.mu, st.correlation, st.pairedPlayers)
  }

  /** `a` is measured to predict at least as well as `b`; on a tie its mode key is no larger. */
  predicate NoWorse(a: SourceRating, b: SourceRating, stats: map<string, PairStats>)
    requires Qualifies(a, stats) && Qualifies(b, stats)
  {
    var ra, rb := stats[a.mode].residualSD, stats[b.mode].residualSD;
    ra < rb || (ra == rb && !Less(b.mode, a.mode))
  }

  ghost predicate IsBest(src: SourceRating, sources: seq<SourceRating>, stats: map<string, PairStats>) {
    && src in sources && Qualifies(src, stats)
    && forall o :: o in sources && Qualifies(o, stats) ==> NoWorse(src, o, stats)
  }

  /** Why a source may not be seeded from: its own rating has not settled, the pair is unmeasured, measured on
      too few players, unrelated, or measured to do no better than the prior the player has anyway. */
  predicate Refused(src: SourceRating, stats: map<string, PairStats>) {
    || src.rating.sigma > UNRATED_SIGMA / 2.0
    || src.mode !in stats
    || stats[src.mode].pairedPlayers < 30
    || stats[src.mode].correlation <= 0.0
    || stats[src.mode].sourceSD <= 0.0
    || stats[src.mode].residualSD <= 0.0
    || stats[src.mode].residualSD >= stats[src.mode].flatResidualSD
    || stats[src.mode].residualSD >= UNRATED_SIGMA
  }

  /** `SeedFor`: a seed exactly when some source qualifies, and then the best one's. */
  method SeedFor(sources: seq<SourceRating>, stats: map<string, PairStats>)
    returns (best: Option<Seed>, ghost chosen: SourceRating)
    ensures best.None? <==> forall src :: src in sources ==> Refused(src, stats)
    ensures best.Some? ==> IsBest(chosen, sources, stats) && best.value == SeedFrom(chosen, stats)
    ensures best.Some? ==>
      && chosen.mode in stats && best.value.sourceMode == chosen.mode && best.value.sourceMu == chosen.rating.mu
      && var st := stats[chosen.mode];
      && best.value.pairedPlayers == st.pairedPlayers && best.value.correlation == st.correlation
      && st.residualSD <= best.value.rating.sigma && UNRATED_SIGMA / 2.0 <= best.value.rating.sigma < UNRATED_SIGMA
  {
    var ordered := Sort(sources, ByMode);
    ModeOrder();
    SortSorts(sources, ByMode);
    SortPermutes(sources, ByMode);
    SameMembers(ordered, sources);
    best := None;
    var bestResidual := 0.0;
    ghost var b := 0;
    for i := 0 to |ordered|
      invariant best.Some? ==>
        && b < i && Qualifies(ordered[b], stats)
        && best.value == SeedFrom(ordered[b], stats) && bestResidual == stats[ordered[b].mode].residualSD
      invariant forall j :: 0 <= j < i && Qualifies(ordered[j], stats) ==>
        best.Some? && NoWorse(ordered[b], ordered[j], stats)
    {
      var src := ordered[i];
      if src.rating.sigma > CONVERGED_SIGMA {
        continue;
      }
      if src.mode !in stats || !Usable(stats[src.mode]) {
        continue;
      }
      var st := stats[src.mode];
      if best.Some? && st.residualSD >= bestResidual {
        assert !ByMode(ordered[i], ordered[b]);
        continue;
      }
      LessIrreflexive(src.mode);
      best := Some(Seed(Rating(Predict(st, src.rating.mu), SeedSigma(st)), src.mode, src.rating.mu,
                        st.correlation, st.pairedPlayers));
      bestResidual := st.residualSD;
      b := i;
    }
    forall src ensures Qualifies(src, stats) <==> !Refused(src, stats) {
    }
    chosen := if best.Some? then ordered[b] else SourceRating("", Rating(0.0, 0.0));
    forall o | o in sources && Qualifies(o, stats) ensures best.Some? && NoWorse(chosen, o, stats) {
      assert o in ordered;
    }
  }

  /** With one rating per mode there is one best source, whatever order the sources come in. */
  lemma BestUnique(a: seq<SourceRating>, b: seq<SourceRating>, stats: map<string, PairStats>,
                   x: SourceRating, y: SourceRating)
    requires multiset(a) == multiset(b)
    requires forall i, j :: 0 <= i < j < |a| ==> a[i].mode != a[j].mode
    requires IsBest(x, a, stats) && IsBest(y, b, stats)
    ensures x == y
  {
    SameMembers(a, b);
    LessTotal(x.mode, y.mode);
    var i :| 0 <= i < |a| && a[i] == x;
    var j :| 0 <= j < |a| && a[j] == y;
    assert x.mode == y.mode;
    assert i == j;
  }
}
