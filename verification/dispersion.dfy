/** The skill term of the fire condition: how far apart a lobby is, the band it must sit inside,
    and whether a full map fires or waits.  Durations are whole nanoseconds. */
module Dispersion {
  import opened RatingPrior
  import opened Reals

  const BETA: real := UNRATED_SIGMA / 2.0
  const HARD_CAP: real := 2.0 * BETA
  const POPULATION_SPREAD: real := UNRATED_SIGMA

  const SECOND: int := 1_000_000_000
  const T_CEILING: int := 15 * SECOND
  const TICK: int := SECOND

  // ----- spread

  datatype Spread = Spread(sd: real, width: real)

  function Min(x: real, y: real): real {
    if x <= y then x else y
  }

  function Max(x: real, y: real): real {
    if x >= y then x else y
  }

  function Least(mus: seq<real>): real
    requires mus != []
  {
    if |mus| == 1 then mus[0] else Min(Least(mus[..|mus| - 1]), mus[|mus| - 1])
  }

  function Greatest(mus: seq<real>): real
    requires mus != []
  {
    if |mus| == 1 then mus[0] else Max(Greatest(mus[..|mus| - 1]), mus[|mus| - 1])
  }

  function Square(x: real): real {
    x * x
  }

  function Variance(mus: seq<real>): real {
    if mus == [] then 0.0 else SumSq(Dev(mus, Mean(mus))) / |mus| as real
  }

  /** The spread of a lobby; `sqrt` is `math.Sqrt`. */
  function SpreadOf(mus: seq<real>, sqrt: real -> real): Spread {
    if |mus| < 2 then Spread(0.0, 0.0) else Spread(sqrt(Variance(mus)), Greatest(mus) - Least(mus))
  }

  lemma ExtremesStep(mus: seq<real>, i: nat)
    requires i < |mus|
    ensures Least(mus[..i + 1]) == if i == 0 then mus[0] else Min(Least(mus[..i]), mus[i])
    ensures Greatest(mus[..i + 1]) == if i == 0 then mus[0] else Max(Greatest(mus[..i]), mus[i])
  {
    assert mus[..i + 1][..i] == mus[..i];
  }

  method Of(mus: seq<real>, sqrt: real -> real) returns (s: Spread)
    ensures s == SpreadOf(mus, sqrt)
  {
    if |mus| < 2 {
      return Spread(0.0, 0.0);
    }
    var sum, min, max := 0.0, mus[0], mus[0];
    for i := 0 to |mus|
      invariant sum == Sum(mus[..i])
      invariant i == 0 ==> min == max == mus[0]
      invariant i > 0 ==> min == Least(mus[..i]) && max == Greatest(mus[..i])
    {
      SumStep(mus, i);
      ExtremesStep(mus, i);
      sum := sum + mus[i];
      min := Min(min, mus[i]);
      max := Max(max, mus[i]);
    }
    assert mus[..|mus|] == mus;
    var mean := sum / |mus| as real;

    var variance := 0.0;
    for i := 0 to |mus|
      invariant variance == SumSq(Dev(mus, mean)[..i])
    {
      DotStep(Dev(mus, mean), Dev(mus, mean), i);
      var d := mus[i] - mean;
      variance := variance + d * d;
    }
    assert Dev(mus, mean)[..|mus|] == Dev(mus, mean);
    variance := variance / |mus| as real;
    return Spread(sqrt(variance), max - min);
  }

  lemma {:induction false} Extremes(mus: seq<real>, i: nat)
    requires i < |mus|
    ensures Least(mus) <= mus[i] <= Greatest(mus)
  {
    if i < |mus| - 1 {
      Extremes(mus[..|mus| - 1], i);
    }
  }

  /** The range is the widest gap between two seats: none exceeds it, and one attains it. */
  lemma {:induction false} WidestGap(mus: seq<real>) returns (i: nat, j: nat)
    requires mus != []
    ensures i < |mus| && j < |mus| && mus[j] - mus[i] == Greatest(mus) - Least(mus)
    ensures mus[i] == Least(mus) && mus[j] == Greatest(mus)
    ensures forall p, q :: 0 <= p < |mus| && 0 <= q < |mus| ==> mus[p] - mus[q] <= Greatest(mus) - Least(mus)
  {
    forall p | 0 <= p < |mus| ensures Least(mus) <= mus[p] <= Greatest(mus) {
      Extremes(mus, p);
    }
    if |mus| == 1 {
      return 0, 0;
    }
    var n := |mus| - 1;
    i, j := WidestGap(mus[..n]);
    if Least(mus) != mus[i] { i := n; }
    if Greatest(mus) != mus[j] { j := n; }
  }

  /** `(mu - lo) * (hi - mu)` is never negative, summed. */
  lemma {:induction false} SquaresBelowChord(mus: seq<real>, lo: real, hi: real)
    requires forall i :: 0 <= i < |mus| ==> lo <= mus[i] <= hi
    ensures SumSq(mus) <= (lo + hi) * Sum(mus) - |mus| as real * lo * hi
  {
    if mus != [] {
      var n := |mus| - 1;
      SquaresBelowChord(mus[..n], lo, hi);
      var x := mus[n];
      assert lo <= x <= hi;
      NonNegativeProduct(x - lo, hi - x);
      assert x * x <= (lo + hi) * x - lo * hi;
      assert |mus| as real == n as real + 1.0;
      Split(n as real, lo, hi, Sum(mus[..n]), x);
    }
  }

  lemma Split(n: real, lo: real, hi: real, s: real, x: real)
    ensures (lo + hi) * (s + x) == (lo + hi) * s + (lo + hi) * x
    ensures (n + 1.0) * lo * hi == n * lo * hi + lo * hi
  {
  }

  /** Popoviciu: ratings within `lo..hi` vary by at most a quarter of the squared width. */
  lemma Popoviciu(mus: seq<real>, lo: real, hi: real)
    requires mus != [] && forall i :: 0 <= i < |mus| ==> lo <= mus[i] <= hi
    ensures 0.0 <= Variance(mus)
    ensures 4.0 * Variance(mus) <= Square(hi - lo)
  {
    SquaresBelowChord(mus, lo, hi);
    MeanScaled(mus);
    SumSqDevMean(mus);
    VarianceScaled(mus);
    QuarterRange(|mus| as real, Variance(mus), Mean(mus), lo, hi, SumSq(mus), Sum(mus), SumSq(Dev(mus, Mean(mus))));
  }

  lemma QuarterRange(n: real, v: real, m: real, lo: real, hi: real, squares: real, sum: real, about: real)
    requires n > 0.0 && sum == n * m && about == squares - n * m * m && n * v == about
    requires squares <= (lo + hi) * sum - n * lo * hi
    ensures 4.0 * v <= Square(hi - lo)
  {
    Scale(n, v, m, lo, hi);
    FourProducts(hi - m, m - lo);
    assert (hi - m) + (m - lo) == hi - lo;
  }

  lemma VarianceScaled(mus: seq<real>)
    requires mus != []
    ensures |mus| as real * Variance(mus) == SumSq(Dev(mus, Mean(mus)))
    ensures Variance(mus) >= 0.0
  {
    SumSqNonNegative(Dev(mus, Mean(mus)));
    ScaledQuotient(SumSq(Dev(mus, Mean(mus))), |mus| as real);
  }

  lemma ScaledQuotient(x: real, n: real)
    requires n > 0.0
    ensures n * (x / n) == x
    ensures x >= 0.0 ==> x / n >= 0.0
  {
  }

  lemma Scale(n: real, v: real, m: real, lo: real, hi: real)
    requires n > 0.0 && n * v <= (lo + hi) * (n * m) - n * lo * hi - n * m * m
    ensures v <= (hi - m) * (m - lo)
  {
    assert (lo + hi) * (n * m) - n * lo * hi - n * m * m == n * ((hi - m) * (m - lo));
    assert (v - (hi - m) * (m - lo)) * n <= 0.0;
    NonPositiveFactor(v - (hi - m) * (m - lo), n);
  }

  lemma FourProducts(x: real, y: real)
    ensures 4.0 * (x * y) <= (x + y) * (x + y)
  {
    assert (x + y) * (x + y) - 4.0 * (x * y) == (x - y) * (x - y);
  }

  /** A lobby's standard deviation is at most half its range. */
  lemma SdAtMostHalfRange(mus: seq<real>, sqrt: real -> real)
    requires IsSqrt(sqrt)
    ensures 0.0 <= SpreadOf(mus, sqrt).sd <= SpreadOf(mus, sqrt).width / 2.0
  {
    if |mus| >= 2 {
      forall i | 0 <= i < |mus| ensures Least(mus) <= mus[i] <= Greatest(mus) {
        Extremes(mus, i);
      }
      Popoviciu(mus, Least(mus), Greatest(mus));
      HalfRoot(SpreadOf(mus, sqrt).sd, Variance(mus), SpreadOf(mus, sqrt).width);
    }
  }

  lemma HalfRoot(sd: real, v: real, width: real)
    requires sd >= 0.0 && width >= 0.0 && sd * sd == v && 4.0 * v <= Square(width)
    ensures sd <= width / 2.0
  {
    var half := width / 2.0;
    assert 4.0 * (half * half) == Square(width);
    SquareOrder(sd, half);
  }

  /** The deviation is the population's: its square, once for each player, is what the ratings' squared
      distances from their mean add up to. */
  lemma DeviationExactly(mus: seq<real>, sqrt: real -> real)
    requires IsSqrt(sqrt) && |mus| >= 2
    ensures var sd := SpreadOf(mus, sqrt).sd;
      sd >= 0.0 && sd * sd * |mus| as real == SumSq(Dev(mus, Mean(mus)))
  {
    SumSqNonNegative(Dev(mus, Mean(mus)));
    assert Variance(mus) >= 0.0;
    assert Variance(mus) * |mus| as real == SumSq(Dev(mus, Mean(mus)));
  }

  /** The bound is met by every lobby of two, whose deviation is half the gap between them. */
  lemma TwoSeats(a: real, b: real, sqrt: real -> real)
    requires IsSqrt(sqrt)
    ensures SpreadOf([a, b], sqrt) == Spread(Abs(a - b) / 2.0, Abs(a - b))
  {
    var mus, m, h := [a, b], (a + b) / 2.0, Abs(a - b) / 2.0;
    ExtremesStep(mus, 0);
    ExtremesStep(mus, 1);
    SumStep(mus, 0);
    SumStep(mus, 1);
    assert mus[..2] == mus && mus[..0] == [] && Mean(mus) == m;
    DotStep(Dev(mus, m), Dev(mus, m), 0);
    DotStep(Dev(mus, m), Dev(mus, m), 1);
    assert Dev(mus, m)[..2] == Dev(mus, m) && Dev(mus, m)[..0] == [];
    SquaresOfHalf(a, b, m);
    assert Variance(mus) == h * h;
    SameRoot(sqrt, h);
  }

  lemma SquaresOfHalf(a: real, b: real, m: real)
    requires m == (a + b) / 2.0
    ensures ((a - m) * (a - m) + (b - m) * (b - m)) / 2.0 == Abs(a - b) / 2.0 * (Abs(a - b) / 2.0)
  {
    var h := (a - b) / 2.0;
    assert a - m == h && b - m == -h;
    assert h * h == -h * -h;
  }

  lemma SameRoot(sqrt: real -> real, h: real)
    requires IsSqrt(sqrt) && h >= 0.0
    ensures sqrt(h * h) == h
  {
    NonNegativeProduct(h, h);
    SquareOrder(sqrt(h * h), h);
    SquareOrder(h, sqrt(h * h));
  }

  // ----- the band

  predicate Acceptable(s: Spread, band: real) {
    s.sd <= band && s.width <= HARD_CAP
  }

  /** How many more candidates are worth waiting for: `(seats + 1) / 3`, truncated as Go does, and
      never below one. */
  function CandidatesWanted(seats: int): (k: int)
    ensures k >= 1 && (seats >= 2 ==> 3 * k <= seats + 1 < 3 * k + 3)
  {
    if seats >= 2 then (seats + 1) / 3 else 1
  }

  function Band(rate: real, budget: int, k: int): real {
    var k := if k < 1 then 1 else k;
    if rate <= 0.0 || budget <= 0 then POPULATION_SPREAD else
    PoolBand(Expected(rate, budget), k as real)
  }

  /** The arrivals expected within the budget. */
  function Expected(rate: real, budget: int): real {
    rate * (budget as real / SECOND as real)
  }

  /** What a pool of `expected` arrivals can deliver when `k` of them are wanted. */
  function PoolBand(expected: real, k: real): real
    requires k > 0.0
  {
    if expected <= k then POPULATION_SPREAD else
    var achievable := POPULATION_SPREAD * k / expected;
    if achievable < BETA then BETA else achievable
  }

  /** The band never closes below `BETA` nor opens past the population. */
  lemma BandBounds(rate: real, budget: int, k: int)
    ensures BETA <= Band(rate, budget, k) <= POPULATION_SPREAD
  {
    var k := if k < 1 then 1 else k;
    if rate > 0.0 && budget > 0 {
      var expected := Expected(rate, budget);
      if expected > k as real {
        Quotient(POPULATION_SPREAD, k as real, expected);
      }
    }
  }

  /** Exactly which band it is: the population's whole spread with nobody arriving or no time left, and while
      no more are expected than wanted, at least one; and then their share of it, `k` in the number
      expected, down to `BETA` and no further. */
  lemma BandExactly(rate: real, budget: int, k: int)
    ensures var e, b, wanted := Expected(rate, budget), Band(rate, budget, k), (if k < 1 then 1 else k) as real;
      && e * SECOND as real == rate * budget as real
      && (rate <= 0.0 || budget <= 0 || e <= wanted ==> b == POPULATION_SPREAD)
      && (rate > 0.0 && budget > 0 && e > wanted ==>
            || (b >= BETA && b * e == POPULATION_SPREAD * wanted)
            || (b == BETA && POPULATION_SPREAD * wanted < BETA * e))
  {
    assert budget as real / SECOND as real * SECOND as real == budget as real;
    var wanted := (if k < 1 then 1 else k) as real;
    if rate > 0.0 && budget > 0 && Expected(rate, budget) > wanted {
      ShareExactly(Expected(rate, budget), wanted);
    }
  }

  lemma ShareExactly(e: real, k: real)
    requires e > k > 0.0
    ensures var b := PoolBand(e, k);
      (b >= BETA && b * e == POPULATION_SPREAD * k) || (b == BETA && POPULATION_SPREAD * k < BETA * e)
  {
    ShareOf(POPULATION_SPREAD, k, e, BETA);
  }

  lemma ShareOf(spread: real, k: real, e: real, floor: real)
    requires e > 0.0
    ensures spread * k / e * e == spread * k
    ensures spread * k / e < floor ==> spread * k < floor * e
  {
    ScaledQuotient(spread * k, e);
    if spread * k / e < floor {
      ProductBelow(spread * k / e, floor, e);
    }
  }

  lemma ProductBelow(x: real, y: real, e: real)
    requires x < y && e > 0.0
    ensures x * e < y * e
  {
    PositiveProduct(y - x, e);
    assert (y - x) * e == y * e - x * e;
  }

  lemma Quotient(s: real, k: real, e: real)
    requires s > 0.0 && 0.0 < k < e
    ensures s * k / e <= s
  {
    assert (s * k / e) * e == s * k;
    assert (s * k / e - s) * e <= 0.0 by {
      PositiveProduct(s, e - k);
    }
    NonPositiveFactor(s * k / e - s, e);
  }

  /** For every lobby the band test is redundant: whatever the arrival rate, the budget and `k`, the
      lobby is acceptable exactly when its range is within the cap. */
  lemma BandTestRedundant(mus: seq<real>, sqrt: real -> real, rate: real, budget: int, k: int)
    requires IsSqrt(sqrt)
    ensures Acceptable(SpreadOf(mus, sqrt), Band(rate, budget, k)) <==> SpreadOf(mus, sqrt).width <= HARD_CAP
  {
    SdAtMostHalfRange(mus, sqrt);
    BandBounds(rate, budget, k);
  }

  // ----- the decision

  datatype Reason = Disabled | RateTooThin | BandSatisfied | BudgetExhausted | WaitingForBand

  datatype Input = Input(enabled: bool, rate: real, seats: int, oldestWait: int, spread: Spread)

  datatype Decision = Decision(fire: bool, reason: Reason)

  /** How long `k` more candidates take to arrive: the float duration truncated to nanoseconds, and
      never below a tick. */
  function Needed(k: int, rate: real): int
    requires rate > 0.0 && k >= 1
  {
    var needed := (k as real / rate * SECOND as real).Floor;
    if needed < TICK then TICK else needed
  }

  /** Players arriving in `time` nanoseconds, and `k` of them, both in player-nanoseconds a second. */
  function Arriving(rate: real, time: real): real {
    rate * time
  }

  function Wanted(k: int): real {
    k as real * SECOND as real
  }

  lemma ArrivingOrder(rate: real, x: real, y: real)
    requires rate > 0.0
    ensures x <= y ==> Arriving(rate, x) <= Arriving(rate, y)
    ensures x < y ==> Arriving(rate, x) < Arriving(rate, y)
  {
    assert rate * y - rate * x == rate * (y - x);
    if x < y {
      PositiveProduct(rate, y - x);
    }
  }

  lemma ArrivingWanted(k: int, rate: real)
    requires rate > 0.0
    ensures Arriving(rate, k as real / rate * SECOND as real) == Wanted(k)
  {
    assert rate * (k as real / rate) == k as real;
  }

  /** The candidates wanted take as long as `k` arrivals at this rate do, to the nanosecond, or a tick if
      that is less. */
  lemma NeededExactly(k: int, rate: real)
    requires rate > 0.0 && k >= 1
    ensures Needed(k, rate) >= TICK
    ensures Needed(k, rate) == TICK || Arriving(rate, Needed(k, rate) as real) <= Wanted(k)
    ensures Wanted(k) < Arriving(rate, Needed(k, rate) as real + 1.0)
  {
    hide Arriving, Wanted;
    var x := k as real / rate * SECOND as real;
    ArrivingWanted(k, rate);
    ArrivingOrder(rate, Needed(k, rate) as real, x);
    ArrivingOrder(rate, x, Needed(k, rate) as real + 1.0);
  }

  /** Waiting can pay: a tick at least is left of the budget, and the candidates wanted come within it. */
  predicate Pays(k: int, rate: real, budget: int) {
    TICK <= budget && Wanted(k) < Arriving(rate, budget as real + 1.0)
  }

  lemma PaysExactly(k: int, rate: real, budget: int)
    requires rate > 0.0 && k >= 1
    ensures Needed(k, rate) <= budget <==> Pays(k, rate, budget)
  {
    hide Arriving, Wanted, Needed;
    NeededExactly(k, rate);
    var needed := Needed(k, rate);
    ArrivingOrder(rate, needed as real + 1.0, budget as real + 1.0);
    ArrivingOrder(rate, budget as real + 1.0, needed as real);
    assert needed > budget ==> budget as real + 1.0 <= needed as real;
  }

  function Decide(i: Input): Decision {
    if !i.enabled then Decision(true, Disabled) else
    var budget := T_CEILING - i.oldestWait;
    if budget <= 0 then Decision(true, BudgetExhausted) else
    var k := CandidatesWanted(i.seats);
    if i.rate <= 0.0 then Decision(true, RateTooThin) else
    if Needed(k, i.rate) > budget then Decision(true, RateTooThin) else
    if Acceptable(i.spread, Band(i.rate, budget, k)) then Decision(true, BandSatisfied)
    else Decision(false, WaitingForBand)
  }

  lemma DivisionOrder(a: real, b: real, x: real, y: real)
    requires 0.0 < a <= b && 0.0 < y <= x
    ensures a / x <= b / y
  {
    assert (a / x) * x == a && (b / y) * y == b;
    assert b / y > 0.0;
    assert (b / y) * x >= (b / y) * y by {
      NonNegativeProduct(b / y, x - y);
    }
    assert (a / x - b / y) * x <= 0.0;
    NonPositiveFactor(a / x - b / y, x);
  }

  /** More candidates, or rarer ones, take longer. */
  lemma NeededOrder(k: int, k': int, rate: real, rate': real)
    requires 1 <= k <= k' && 0.0 < rate' <= rate
    ensures TICK <= Needed(k, rate) <= Needed(k', rate')
  {
    DivisionOrder(k as real, k' as real, rate, rate');
    assert k as real / rate * SECOND as real <= k' as real / rate' * SECOND as real;
  }

  /** The band opens as arrivals thin out, the budget runs down, or more candidates are wanted. */
  lemma BandOrder(rate: real, rate': real, budget: int, budget': int, k: int, k': int)
    requires 0.0 < rate' <= rate && 0 < budget' <= budget && 1 <= k <= k'
    ensures Band(rate, budget, k) <= Band(rate', budget', k')
  {
    ExpectedOrder(rate, rate', budget, budget');
    PoolBandOrder(Expected(rate, budget), Expected(rate', budget'), k as real, k' as real);
  }

  lemma ExpectedOrder(rate: real, rate': real, budget: int, budget': int)
    requires 0.0 < rate' <= rate && 0 < budget' <= budget
    ensures 0.0 < Expected(rate', budget') <= Expected(rate, budget)
  {
    ProductOrder(rate', rate, budget' as real / SECOND as real, budget as real / SECOND as real);
  }

  lemma PoolBandOrder(e: real, e': real, k: real, k': real)
    requires 0.0 < e' <= e && 0.0 < k <= k'
    ensures PoolBand(e, k) <= PoolBand(e', k')
  {
    if e > k {
      Quotient(POPULATION_SPREAD, k, e);
    }
    if e' > k' {
      DivisionOrder(POPULATION_SPREAD * k, POPULATION_SPREAD * k', e, e');
    }
  }

  lemma ProductOrder(x: real, y: real, u: real, v: real)
    requires 0.0 < x <= y && 0.0 < u <= v
    ensures 0.0 < x * u <= y * v
  {
    PositiveProduct(x, u);
    NonNegativeProduct(y - x, u);
    NonNegativeProduct(y, v - u);
    assert y * v - x * u == (y - x) * u + y * (v - u);
  }

  /** Firing is monotone in all four inputs at once: a longer oldest wait, rarer arrivals, more seats
      or a tighter lobby never turn a fire into a wait. */
  lemma FireMonotone(i: Input, j: Input)
    requires i.enabled == j.enabled && Decide(i).fire
    requires i.oldestWait <= j.oldestWait && j.rate <= i.rate && i.seats <= j.seats
    requires j.spread.sd <= i.spread.sd && j.spread.width <= i.spread.width
    ensures Decide(j).fire
  {
    if i.enabled && T_CEILING - j.oldestWait > 0 && j.rate > 0.0 {
      var k, k' := CandidatesWanted(i.seats), CandidatesWanted(j.seats);
      assert k <= k';
      NeededOrder(k, k', i.rate, j.rate);
      BandOrder(i.rate, j.rate, T_CEILING - i.oldestWait, T_CEILING - j.oldestWait, k, k');
    }
  }

  /** Every outcome of the decision, and the reason given for it, in terms of what the caller knows. */
  lemma ReasonsExactly(i: Input)
    ensures var d, budget := Decide(i), T_CEILING - i.oldestWait;
      var k := CandidatesWanted(i.seats);
      && (d == Decision(true, Disabled) <==> !i.enabled)
      && (d == Decision(true, BudgetExhausted) <==> i.enabled && i.oldestWait >= T_CEILING)
      && (d == Decision(true, RateTooThin) <==>
            i.enabled && i.oldestWait < T_CEILING && !(i.rate > 0.0 && Pays(k, i.rate, budget)))
      && (d == Decision(true, BandSatisfied) <==>
            && i.enabled && i.rate > 0.0 && Pays(k, i.rate, budget)
            && i.spread.sd <= Band(i.rate, budget, k) && i.spread.width <= HARD_CAP)
      && (d == Decision(false, WaitingForBand) <==>
            && i.enabled && i.rate > 0.0 && Pays(k, i.rate, budget)
            && (i.spread.sd > Band(i.rate, budget, k) || i.spread.width > HARD_CAP))
  {
    if i.rate > 0.0 {
      PaysExactly(CandidatesWanted(i.seats), i.rate, T_CEILING - i.oldestWait);
    }
  }

  /** For the lobbies the caller actually measures, the decision never looks at the standard deviation:
      a full map waits exactly when skill matching is on, the budget can still pay for the candidates
      wanted, and the lobby's range is past the cap. */
  lemma WaitsExactly(mus: seq<real>, sqrt: real -> real, i: Input)
    requires IsSqrt(sqrt) && i.spread == SpreadOf(mus, sqrt)
    ensures !Decide(i).fire <==>
      && i.enabled && i.rate > 0.0
      && Pays(CandidatesWanted(i.seats), i.rate, T_CEILING - i.oldestWait)
      && i.spread.width > HARD_CAP
  {
    ReasonsExactly(i);
    BandTestRedundant(mus, sqrt, i.rate, T_CEILING - i.oldestWait, CandidatesWanted(i.seats));
  }

  // ----- how long a full map can be held

  /** How long the longest-waiting player has been waiting. */
  function OldestWait(joined: seq<int>, now: int): (r: int) {
    if joined == [] then 0 else
    var longest := OldestWait(joined[..|joined| - 1], now);
    var age := now - joined[|joined| - 1];
    if age > longest then age else longest
  }

  method MeasureOldestWait(joined: seq<int>, now: int) returns (longest: int)
    ensures longest == OldestWait(joined, now)
  {
    longest := 0;
    for i := 0 to |joined|
      invariant longest == OldestWait(joined[..i], now)
    {
      assert joined[..i + 1][..i] == joined[..i];
      var age := now - joined[i];
      if age > longest {
        longest := age;
      }
    }
    assert joined[..|joined|] == joined;
  }

  lemma {:induction false} OldestWaitCovers(joined: seq<int>, now: int, p: nat)
    requires p < |joined|
    ensures now - joined[p] <= OldestWait(joined, now)
  {
    if p < |joined| - 1 {
      OldestWaitCovers(joined[..|joined| - 1], now, p);
    }
  }

  /** And somebody has waited that long, unless nobody has waited at all. */
  lemma {:induction false} OldestWaitAttained(joined: seq<int>, now: int)
    ensures OldestWait(joined, now) == 0 || exists p :: 0 <= p < |joined| && now - joined[p] == OldestWait(joined, now)
  {
    if joined != [] {
      var n := |joined| - 1;
      OldestWaitAttained(joined[..n], now);
      if p :| 0 <= p < n && now - joined[..n][p] == OldestWait(joined[..n], now) {
        assert joined[p] == joined[..n][p];
      }
      assert now - joined[n] == now - joined[n];
    }
  }

  /** One solve of a full map: everything is read afresh, the waiting players by their join times. */
  datatype Solve = Solve(now: int, joined: seq<int>, enabled: bool, rate: real, seats: int, spread: Spread)

  function InputOf(t: Solve): Input {
    Input(t.enabled, t.rate, t.seats, OldestWait(t.joined, t.now), t.spread)
  }

  predicate Deferred(t: Solve) {
    !Decide(InputOf(t)).fire
  }

  /** A full map is only ever held while every waiting player still has a tick of the ceiling left, so
      it fires no later than the first solve at which anyone's wait reaches the ceiling. */
  lemma DeferralWithinCeiling(t: Solve, p: nat)
    requires Deferred(t) && p < |t.joined|
    ensures t.now - t.joined[p] <= T_CEILING - TICK
  {
    OldestWaitCovers(t.joined, t.now, p);
    NeededOrder(CandidatesWanted(t.seats), CandidatesWanted(t.seats), t.rate, t.rate);
  }

  /** The solves that deferred while a player who joined at `since` was waiting, in order, at least a
      tick apart. */
  ghost predicate HeldThrough(held: seq<Solve>, since: int) {
    && (forall n :: 0 <= n < |held| ==> Deferred(held[n]) && since in held[n].joined && since <= held[n].now)
    && (forall n :: 0 <= n < |held| - 1 ==> held[n].now + TICK <= held[n + 1].now)
  }

  lemma {:induction false} HeldSpacing(held: seq<Solve>, since: int, n: nat)
    requires HeldThrough(held, since) && n < |held|
    ensures since + n * TICK <= held[n].now
  {
    if n > 0 {
      HeldSpacing(held, since, n - 1);
    }
  }

  /** Bounded deferral: over any run of solves a tick or more apart, one waiting player sees at most
      `T_CEILING / TICK` deferrals. */
  lemma DeferralsBounded(held: seq<Solve>, since: int)
    requires HeldThrough(held, since)
    ensures |held| <= T_CEILING / TICK
  {
    if held != [] {
      var last := held[|held| - 1];
      HeldSpacing(held, since, |held| - 1);
      var p :| 0 <= p < |last.joined| && last.joined[p] == since;
      DeferralWithinCeiling(last, p);
    }
  }

  lemma WideLobby(sqrt: real -> real)
    ensures SpreadOf([0.0, HARD_CAP + 1.0], sqrt).width == HARD_CAP + 1.0
  {
    var mus := [0.0, HARD_CAP + 1.0];
    ExtremesStep(mus, 0);
    ExtremesStep(mus, 1);
    assert mus[..2] == mus;
  }

  lemma JoinedTogether(since: int, now: int)
    requires since <= now
    ensures OldestWait([since, since], now) == now - since
  {
    assert [since, since][..1] == [since] && [since][..0] == [];
    assert OldestWait([since], now) == now - since;
  }

  /** And the bound is met: two players too far apart, the second joining with the first, are held fifteen
      times under a steady arrival a second, over their whole budget. */
  lemma DeferralBoundMet(since: int, sqrt: real -> real) returns (held: seq<Solve>)
    ensures HeldThrough(held, since) && |held| == T_CEILING / TICK
    ensures forall n :: 0 <= n < |held| ==>
      held[n].spread == SpreadOf([0.0, HARD_CAP + 1.0], sqrt) && |held[n].joined| == held[n].seats == 2
  {
    var wide := SpreadOf([0.0, HARD_CAP + 1.0], sqrt);
    WideLobby(sqrt);
    held := seq(15, n => Solve(since + n * TICK, [since, since], true, 1.0, 2, wide));
    forall n | 0 <= n < |held| ensures Deferred(held[n]) && since in held[n].joined && since <= held[n].now {
      JoinedTogether(since, held[n].now);
      assert CandidatesWanted(2) == 1;
      assert Needed(1, 1.0) == TICK;
    }
  }
}
