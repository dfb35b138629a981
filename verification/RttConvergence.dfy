/** What the classifier of gateway/middleware/rtt_state.py does under a constant sample. */
module RttConvergence {
  import opened Collections
  import opened Options
  import opened RttState

  /** The state after `k` further samples of `ms`. */
  function Repeat(s: State, ms: real, k: nat, t: Thresholds): State {
    if k == 0 then s else Advance(Repeat(s, ms, k - 1, t), Finite(ms), t)
  }

  function Pow(base: real, k: nat): real {
    if k == 0 then 1.0 else base * Pow(base, k - 1)
  }

  function Distance(s: State, ms: real): real {
    if s.ewma.None? then 0.0 else Abs(s.ewma.value - ms)
  }

  // ---- Geometric approach ----

  /** The average moves by the fraction `alpha` of the gap, and the fraction `1 - alpha` is left. */
  lemma SmoothGap(e: real, ms: real, alpha: real, gap: real)
    requires gap == e - ms
    ensures Smooth(Some(e), ms, alpha) == ms + (1.0 - alpha) * gap
  {
  }

  lemma MulNonNegative(a: real, b: real)
    requires a >= 0.0 && b >= 0.0
    ensures a * b >= 0.0
  {
  }

  lemma MulNegate(a: real, b: real)
    ensures a * (-b) == -(a * b)
  {
  }

  lemma MulAbs(a: real, x: real, ax: real)
    requires a >= 0.0 && ax == a * x
    ensures Abs(ax) == a * Abs(x)
  {
    if x >= 0.0 {
      MulNonNegative(a, x);
    } else {
      MulNegate(a, x);
      MulNonNegative(a, -x);
    }
  }

  lemma SmoothDistance(e: real, ms: real, alpha: real)
    requires 0.0 < alpha <= 1.0
    ensures Abs(Smooth(Some(e), ms, alpha) - ms) == (1.0 - alpha) * Abs(e - ms)
  {
    hide Smooth;
    var gap := e - ms;
    var left := (1.0 - alpha) * gap;
    SmoothGap(e, ms, alpha, gap);
    MulAbs(1.0 - alpha, gap, left);
  }

  lemma OneSample(s: State, ms: real, t: Thresholds)
    requires t.Valid() && ms >= 0.0
    ensures Advance(s, Finite(ms), t).ewma.Some?
    ensures Distance(Advance(s, Finite(ms), t), ms) == (1.0 - t.alpha) * Distance(s, ms)
  {
    if s.ewma.Some? { SmoothDistance(s.ewma.value, ms, t.alpha); }
  }

  lemma MulAssoc(a: real, b: real, c: real)
    ensures a * (b * c) == (a * b) * c
  {
  }

  lemma NextSample(s: State, ms: real, k: nat, t: Thresholds)
    requires t.Valid() && ms >= 0.0
    ensures Repeat(s, ms, k + 1, t).ewma.Some?
    ensures Distance(Repeat(s, ms, k + 1, t), ms) == (1.0 - t.alpha) * Distance(Repeat(s, ms, k, t), ms)
  {
    hide Advance;
    OneSample(Repeat(s, ms, k, t), ms, t);
  }

  /** Each sample shrinks the distance of the average from the sample by the factor `1 - alpha`. */
  lemma {:induction false} GeometricApproach(s: State, ms: real, k: nat, t: Thresholds)
    requires t.Valid() && ms >= 0.0
    ensures k > 0 ==> Repeat(s, ms, k, t).ewma.Some?
    ensures Distance(Repeat(s, ms, k, t), ms) == Pow(1.0 - t.alpha, k) * Distance(s, ms)
  {
    hide Advance;
    if k > 0 {
      GeometricApproach(s, ms, k - 1, t);
      NextSample(s, ms, k - 1, t);
      MulAssoc(1.0 - t.alpha, Pow(1.0 - t.alpha, k - 1), Distance(s, ms));
    }
  }

  /** Bernoulli's inequality in the form that turns geometric decay into a number of samples. */
  lemma {:induction false} DecayBound(alpha: real, k: nat)
    requires 0.0 < alpha <= 1.0
    ensures 0.0 <= Pow(1.0 - alpha, k)
    ensures Pow(1.0 - alpha, k) * (1.0 + k as real * alpha) <= 1.0
  {
    if k > 0 {
      DecayBound(alpha, k - 1);
      DecayStep(alpha, (k - 1) as real, Pow(1.0 - alpha, k - 1));
    }
  }

  lemma DecayStep(alpha: real, n: real, p: real)
    requires 0.0 < alpha <= 1.0 && n >= 0.0 && p >= 0.0 && p * (1.0 + n * alpha) <= 1.0
    ensures (1.0 - alpha) * p >= 0.0
    ensures ((1.0 - alpha) * p) * (1.0 + (n + 1.0) * alpha) <= 1.0
  {
    var slack := (n + 1.0) * alpha * alpha;
    assert slack >= 0.0;
    assert (1.0 - alpha) * (1.0 + (n + 1.0) * alpha) == 1.0 + n * alpha - slack;
    assert ((1.0 - alpha) * p) * (1.0 + (n + 1.0) * alpha) == p * (1.0 + n * alpha - slack);
    assert p * (1.0 + n * alpha - slack) == p * (1.0 + n * alpha) - p * slack;
    assert p * slack >= 0.0;
  }

  /** The number of samples after which the average is closer to the sample than `margin`. */
  function ApproachTime(distance: real, margin: real, alpha: real): nat
    requires distance >= 0.0 && margin > 0.0 && alpha > 0.0
  {
    assert margin * alpha > 0.0;
    assert distance / (margin * alpha) >= 0.0;
    (distance / (margin * alpha)).Floor + 1
  }

  lemma ScaleDown(distance: real, unit: real, k: real)
    requires unit > 0.0 && distance / unit < k
    ensures distance < k * unit
  {
    assert distance == (distance / unit) * unit;
    assert (k - distance / unit) * unit > 0.0;
  }

  lemma DecayArithmetic(p: real, d: real, q: real, margin: real)
    requires p >= 0.0 && p * q <= 1.0 && q > 0.0 && margin > 0.0 && 0.0 <= d < q * margin
    ensures p * d < margin
  {
    if p == 0.0 {
    } else {
      assert p * (q * margin - d) > 0.0;
      assert p * (q * margin) == (p * q) * margin;
      assert (1.0 - p * q) * margin >= 0.0;
    }
  }

  lemma EnoughSamples(d: real, margin: real, alpha: real, k: nat)
    requires d >= 0.0 && margin > 0.0 && 0.0 < alpha <= 1.0 && k >= ApproachTime(d, margin, alpha)
    ensures d < (1.0 + k as real * alpha) * margin
  {
    var unit := margin * alpha;
    assert unit > 0.0;
    ScaleDown(d, unit, k as real);
    MulAssoc(k as real, alpha, margin);
    assert (1.0 + k as real * alpha) * margin == margin + (k as real * alpha) * margin;
  }

  /** The decayed distance is below the margin. */
  lemma DecayedBelow(d: real, margin: real, alpha: real, k: nat, q: real)
    requires d >= 0.0 && margin > 0.0 && 0.0 < alpha <= 1.0
    requires q == 1.0 + k as real * alpha && d < q * margin
    ensures Pow(1.0 - alpha, k) * d < margin
  {
    DecayBound(alpha, k);
    PositiveFactor(alpha, k);
    DecayArithmetic(Pow(1.0 - alpha, k), d, q, margin);
  }

  lemma DecayedInTime(d: real, margin: real, alpha: real, k: nat)
    requires d >= 0.0 && margin > 0.0 && 0.0 < alpha <= 1.0 && k >= ApproachTime(d, margin, alpha)
    ensures Pow(1.0 - alpha, k) * d < margin
  {
    EnoughSamples(d, margin, alpha, k);
    DecayedBelow(d, margin, alpha, k, 1.0 + k as real * alpha);
  }

  lemma CloseAfter(s: State, ms: real, margin: real, k: nat, t: Thresholds)
    requires t.Valid() && ms >= 0.0 && margin > 0.0
    requires k >= ApproachTime(Distance(s, ms), margin, t.alpha)
    ensures Repeat(s, ms, k, t).ewma.Some? && Distance(Repeat(s, ms, k, t), ms) < margin
  {
    hide Advance;
    GeometricApproach(s, ms, k, t);
    DecayedInTime(Distance(s, ms), margin, t.alpha, k);
  }

  lemma PositiveFactor(alpha: real, k: nat)
    requires alpha > 0.0
    ensures 1.0 + k as real * alpha > 0.0
  {
  }

  // ---- Settling ----

  /** Inside one of the two dwell bands. */
  predicate InBand(ms: real, t: Thresholds) {
    t.good - t.hysteresis <= ms < t.good || t.degraded - t.hysteresis <= ms < t.degraded
  }

  /** Outside both dwell bands and, unless the average is just the last sample, not on a threshold. */
  predicate Clear(ms: real, t: Thresholds) {
    !InBand(ms, t) && (t.alpha == 1.0 || (ms != t.good && ms != t.degraded))
  }

  /** How far an average may be from a clear sample without changing any candidate. */
  function Margin(ms: real, t: Thresholds): real {
    if t.alpha == 1.0 then 1.0
    else if ms < t.good then t.good - t.hysteresis - ms
    else if ms < t.degraded then
      if ms - t.good < t.degraded - t.hysteresis - ms then ms - t.good else t.degraded - t.hysteresis - ms
    else ms - t.degraded
  }

  lemma CandidateNearby(value: real, ms: real, current: Tier, t: Thresholds)
    requires t.Valid() && ms >= 0.0 && Clear(ms, t)
    requires if t.alpha == 1.0 then value == ms else Abs(value - ms) < Margin(ms, t)
    ensures Candidate(value, current, t) == Classify(ms, t)
  {
  }

  /** From sample number `ApproachTime` on, every candidate is the plain classification. */
  lemma CandidateSettles(s: State, ms: real, k: nat, current: Tier, t: Thresholds)
    requires t.Valid() && ms >= 0.0 && Clear(ms, t)
    requires Margin(ms, t) > 0.0 && k >= ApproachTime(Distance(s, ms), Margin(ms, t), t.alpha)
    ensures Repeat(s, ms, k, t).ewma.Some?
    ensures Candidate(Repeat(s, ms, k, t).ewma.value, current, t) == Classify(ms, t)
  {
    hide Advance;
    CloseAfter(s, ms, Margin(ms, t), k, t);
    if t.alpha == 1.0 {
      GeometricApproach(s, ms, k, t);
      assert Pow(1.0 - t.alpha, k) == 0.0 * Pow(0.0, k - 1);
      assert Distance(Repeat(s, ms, k, t), ms) == 0.0 * Distance(s, ms);
    }
    CandidateNearby(Repeat(s, ms, k, t).ewma.value, ms, current, t);
  }

  /** Counters never fall below where they started, or below zero. */
  lemma {:induction false} CountFloor(s: State, ms: real, k: nat, t: Thresholds)
    ensures Repeat(s, ms, k, t).pendingCount >= Min(s.pendingCount, 0)
  {
    if k > 0 { CountFloor(s, ms, k - 1, t); }
  }

  /** What one sample does to the tier when its candidate is `target`. */
  lemma TierStep(s: State, ms: real, target: Tier, t: Thresholds)
    requires ms >= 0.0
    requires Candidate(Smooth(s.ewma, ms, t.alpha), s.tier, t) == target
    ensures var s' := Advance(s, Finite(ms), t);
            && s'.ewma == Some(Smooth(s.ewma, ms, t.alpha))
            && (s.tier == target ==> s'.tier == target)
            && (s'.tier != target ==>
                  && s'.pendingTier == Some(target) && s'.pendingCount < t.transitionSamples
                  && s'.pendingCount >= Min(s.pendingCount, 0) + 1
                  && (s.pendingTier == Some(target) ==> s'.pendingCount == s.pendingCount + 1))
  {
  }

  ghost predicate CandidateIs(s: State, ms: real, k: nat, current: Tier, target: Tier, t: Thresholds) {
    Repeat(s, ms, k, t).ewma.Some? && Candidate(Repeat(s, ms, k, t).ewma.value, current, t) == target
  }

  /** When the candidate is `target` from sample `from` on, the counter climbs until the tier is `target`. */
  lemma {:induction false} ClimbsToTarget(s: State, ms: real, from: nat, j: nat, target: Tier, t: Thresholds)
    requires t.Valid() && ms >= 0.0 && j > 0
    requires forall k: nat, c: Tier | k >= from :: CandidateIs(s, ms, k, c, target, t)
    ensures var s' := Repeat(s, ms, from + j, t);
            s'.tier == target ||
            (s'.pendingTier == Some(target) && Min(s.pendingCount, 0) + j <= s'.pendingCount < t.transitionSamples)
  {
    var before := Repeat(s, ms, from + j - 1, t);
    assert Repeat(s, ms, from + j, t) == Advance(before, Finite(ms), t);
    assert CandidateIs(s, ms, from + j, before.tier, target, t);
    TierStep(before, ms, target, t);
    if j == 1 {
      CountFloor(s, ms, from, t);
    } else {
      ClimbsToTarget(s, ms, from, j - 1, target, t);
    }
  }

  /** A number of samples that always suffices. */
  function SettleTime(s: State, ms: real, t: Thresholds): nat
    requires t.Valid() && Margin(ms, t) > 0.0
  {
    ApproachTime(Distance(s, ms), Margin(ms, t), t.alpha) + t.transitionSamples - Min(s.pendingCount, 0)
  }

  /** From any state whatsoever, under a clear constant sample the committed tier is the plain
      classification from a computable sample on, and stays it forever. */
  lemma SettlesInTime(s: State, ms: real, k: nat, t: Thresholds)
    requires t.Valid() && ms >= 0.0 && Clear(ms, t)
    ensures Margin(ms, t) > 0.0
    ensures k >= SettleTime(s, ms, t) ==> Repeat(s, ms, k, t).tier == Classify(ms, t)
  {
    var from := ApproachTime(Distance(s, ms), Margin(ms, t), t.alpha);
    if k >= SettleTime(s, ms, t) {
      forall i: nat, c: Tier | i >= from
        ensures CandidateIs(s, ms, i, c, Classify(ms, t), t)
      {
        CandidateSettles(s, ms, i, c, t);
      }
      ClimbsToTarget(s, ms, from, k - from, Classify(ms, t), t);
    }
  }

  ghost predicate Settles(s: State, ms: real, t: Thresholds) {
    exists n: nat :: SettledFrom(s, ms, n, t)
  }

  ghost predicate SettledFrom(s: State, ms: real, n: nat, t: Thresholds) {
    forall k: nat | k >= n :: Repeat(s, ms, k, t).tier == Classify(ms, t)
  }

  /** A state that never settles when the sample is not clear. */
  function Stuck(ms: real, t: Thresholds): State {
    if t.degraded - t.hysteresis <= ms < t.degraded then State(Some(ms), POOR, None, 0)
    else if InBand(ms, t) then State(Some(ms), DEGRADED, None, 0)
    else if ms == t.good then State(Some(0.0), GOOD, None, 0)
    else State(Some(t.good), DEGRADED, None, 0)
  }

  lemma {:induction false} StuckForever(ms: real, k: nat, t: Thresholds)
    requires t.Valid() && ms >= 0.0 && !Clear(ms, t)
    ensures var s := Repeat(Stuck(ms, t), ms, k, t);
            && s.tier == Stuck(ms, t).tier && s.ewma.Some?
            && (if InBand(ms, t) then s.ewma.value == ms
                else Stuck(ms, t).ewma.value <= s.ewma.value < ms)
  {
    if k > 0 {
      StuckForever(ms, k - 1, t);
      var before := Repeat(Stuck(ms, t), ms, k - 1, t);
      if InBand(ms, t) {
        SmoothFixed(ms, t.alpha);
      } else {
        SmoothBetween(before.ewma.value, ms, t.alpha);
      }
      assert Repeat(Stuck(ms, t), ms, k, t) == Advance(before, Finite(ms), t);
      KeptIffJustified(Smooth(before.ewma, ms, t.alpha), before.tier, t);
    }
  }

  lemma MulPositive(a: real, b: real)
    requires a > 0.0 && b > 0.0
    ensures a * b > 0.0
  {
  }

  lemma MulBetween(a: real, gap: real, part: real)
    requires 0.0 < a < 1.0 && gap < 0.0 && part == a * gap
    ensures gap < part < 0.0
  {
    MulPositive(a, -gap);
    MulNegate(a, gap);
    MulPositive(1.0 - a, -gap);
    MulNegate(1.0 - a, gap);
    assert (1.0 - a) * gap == gap - part;
  }

  lemma SmoothFixed(ms: real, alpha: real)
    ensures Smooth(Some(ms), ms, alpha) == ms
  {
  }

  lemma SmoothBetween(e: real, ms: real, alpha: real)
    requires 0.0 < alpha < 1.0 && e < ms
    ensures e < Smooth(Some(e), ms, alpha) < ms
  {
    hide Smooth;
    var gap := e - ms;
    var left := (1.0 - alpha) * gap;
    SmoothGap(e, ms, alpha, gap);
    MulBetween(1.0 - alpha, gap, left);
  }

  /** Exactly which constant samples settle the classifier on the plain classification from every state. */
  lemma SettlesIffClear(ms: real, t: Thresholds)
    requires t.Valid() && ms >= 0.0
    ensures (forall s :: Settles(s, ms, t)) <==> Clear(ms, t)
  {
    if Clear(ms, t) {
      forall s ensures Settles(s, ms, t) {
        SettlesInTime(s, ms, 0, t);
        var n := SettleTime(s, ms, t);
        forall k: nat | k >= n ensures Repeat(s, ms, k, t).tier == Classify(ms, t) {
          SettlesInTime(s, ms, k, t);
        }
        assert SettledFrom(s, ms, n, t);
      }
    } else {
      forall n: nat ensures !SettledFrom(Stuck(ms, t), ms, n, t) {
        StuckForever(ms, n, t);
        assert Repeat(Stuck(ms, t), ms, n, t).tier != Classify(ms, t);
      }
      assert !Settles(Stuck(ms, t), ms, t);
    }
  }
}
