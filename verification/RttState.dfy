/** gateway/middleware/rtt_state.py: the passive round-trip classifier, and the plain classification
    of gateway/middleware/network_detector.py.  Times are real numbers. */
module RttState {
  import opened Options

  datatype Tier = GOOD | DEGRADED | POOR {
    function Order(): nat {
      match this
      case GOOD => 0
      case DEGRADED => 1
      case POOR => 2
    }
  }

  datatype State = State(ewma: Option<real>, tier: Tier, pendingTier: Option<Tier>, pendingCount: int)

  const INITIAL: State := State(None, GOOD, None, 0)

  /** A sample is accepted when it is finite and nonnegative. */
  datatype Sample = Finite(ms: real) | NotFinite {
    predicate Accepted() { Finite? && ms >= 0.0 }
  }

  datatype Thresholds = Thresholds(good: real, degraded: real, hysteresis: real, transitionSamples: int, alpha: real) {
    /** What the settings validator enforces. */
    predicate Valid() {
      && 0.0 < good < degraded
      && 0.0 <= hysteresis < good
      && 0.0 < alpha <= 1.0
      && transitionSamples > 0
    }

    /** Where a tier begins. */
    function UpThreshold(tier: Tier): real {
      match tier
      case GOOD => 0.0
      case DEGRADED => good
      case POOR => degraded
    }
  }

  /** `classify_rtt` on an accepted value. */
  function Classify(value: real, t: Thresholds): Tier {
    if value < t.good then GOOD else if value < t.degraded then DEGRADED else POOR
  }

  /** `_candidate_tier`. */
  function Candidate(value: real, current: Tier, t: Thresholds): Tier {
    var up := if value >= t.degraded then POOR else if value >= t.good then DEGRADED else GOOD;
    if up.Order() >= current.Order() then up
    else
      var goodDown := t.good - t.hysteresis;
      var degDown := t.degraded - t.hysteresis;
      if current == POOR then
        if value >= degDown then POOR else if value < goodDown then GOOD else DEGRADED
      else if value < goodDown then GOOD else DEGRADED
  }

  function Smooth(previous: Option<real>, ms: real, alpha: real): real {
    match previous
    case None => ms
    case Some(e) => alpha * ms + (1.0 - alpha) * e
  }

  /** `advance`. */
  function Advance(s: State, sample: Sample, t: Thresholds): State {
    if !sample.Accepted() then s
    else
      var ewma := Smooth(s.ewma, sample.ms, t.alpha);
      var candidate := Candidate(ewma, s.tier, t);
      if candidate == s.tier then State(Some(ewma), s.tier, None, 0)
      else
        var count := if s.pendingTier == Some(candidate) then s.pendingCount + 1 else 1;
        if count >= t.transitionSamples then State(Some(ewma), candidate, None, 0)
        else State(Some(ewma), s.tier, Some(candidate), count)
  }

  /** The state after a sequence of samples. */
  function Run(s: State, samples: seq<Sample>, t: Thresholds): State {
    if samples == [] then s
    else Advance(Run(s, samples[..|samples| - 1], t), samples[|samples| - 1], t)
  }

  // ---- The dwell band ----

  /** The tier is the plain classification of the value, or a more severe tier whose threshold the value
      is at most the hysteresis width below. */
  predicate Justified(value: real, tier: Tier, t: Thresholds) {
    || tier == Classify(value, t)
    || (tier.Order() > Classify(value, t).Order() && value >= t.UpThreshold(tier) - t.hysteresis)
  }

  /** A tier is kept exactly when it is justified. */
  lemma KeptIffJustified(value: real, tier: Tier, t: Thresholds)
    requires t.Valid()
    ensures Candidate(value, tier, t) == tier <==> Justified(value, tier, t)
  {
  }

  /** Every candidate is justified by the value it was derived from. */
  lemma CandidateJustified(value: real, current: Tier, t: Thresholds)
    requires t.Valid()
    ensures Justified(value, Candidate(value, current, t), t)
  {
  }

  /** Quiescence: after any run with an accepted sample, when nothing is pending the tier is justified
      by the current average. */
  lemma {:induction false} QuiescentTierJustified(samples: seq<Sample>, t: Thresholds)
    requires t.Valid()
    ensures var s := Run(INITIAL, samples, t);
            s.ewma.Some? && s.pendingTier.None? ==> Justified(s.ewma.value, s.tier, t)
  {
    if samples != [] {
      QuiescentTierJustified(samples[..|samples| - 1], t);
      var before := Run(INITIAL, samples[..|samples| - 1], t);
      var last := samples[|samples| - 1];
      if last.Accepted() {
        CandidateJustified(Smooth(before.ewma, last.ms, t.alpha), before.tier, t);
      }
    }
  }

  // ---- Commits rest on consecutive agreement ----

  /** Samples that are not accepted leave no trace. */
  function Accepted(samples: seq<Sample>): seq<Sample> {
    if samples == [] then []
    else
      var last := samples[|samples| - 1];
      Accepted(samples[..|samples| - 1]) + if last.Accepted() then [last] else []
  }

  lemma {:induction false} OnlyAcceptedCount(s: State, samples: seq<Sample>, t: Thresholds)
    ensures Run(s, samples, t) == Run(s, Accepted(samples), t)
    ensures forall x | x in Accepted(samples) :: x.Accepted()
  {
    if samples != [] {
      var init, last := samples[..|samples| - 1], samples[|samples| - 1];
      OnlyAcceptedCount(s, init, t);
      if last.Accepted() {
        assert Accepted(samples)[..|Accepted(samples)| - 1] == Accepted(init);
      } else {
        assert Accepted(samples) == Accepted(init);
      }
    }
  }

  ghost predicate AllAccepted(samples: seq<Sample>) {
    forall i | 0 <= i < |samples| :: samples[i].Accepted()
  }

  /** At sample `j` of the run the tier was `tier` and the candidate was `candidate`. */
  ghost predicate AgreesAt(samples: seq<Sample>, t: Thresholds, j: int, tier: Tier, candidate: Tier) {
    && 0 <= j < |samples|
    && Run(INITIAL, samples[..j], t).tier == tier
    && Run(INITIAL, samples[..j + 1], t).ewma.Some?
    && Candidate(Run(INITIAL, samples[..j + 1], t).ewma.value, tier, t) == candidate
  }

  /** The last `count` samples all agree. */
  ghost predicate Agreeing(samples: seq<Sample>, t: Thresholds, count: nat, tier: Tier, candidate: Tier) {
    && count <= |samples|
    && forall j | |samples| - count <= j < |samples| :: AgreesAt(samples, t, j, tier, candidate)
  }

  lemma AgreeingSnoc(samples: seq<Sample>, t: Thresholds, count: nat, tier: Tier, candidate: Tier)
    requires samples != [] && Agreeing(samples[..|samples| - 1], t, count, tier, candidate)
    requires Run(INITIAL, samples[..|samples| - 1], t).tier == tier
    requires Run(INITIAL, samples, t).ewma.Some? && Candidate(Run(INITIAL, samples, t).ewma.value, tier, t) == candidate
    ensures Agreeing(samples, t, count + 1, tier, candidate)
  {
    var init := samples[..|samples| - 1];
    forall j | |samples| - (count + 1) <= j < |samples|
      ensures AgreesAt(samples, t, j, tier, candidate)
    {
      if j < |init| {
        assert AgreesAt(init, t, j, tier, candidate);
        assert samples[..j] == init[..j] && samples[..j + 1] == init[..j + 1];
      } else {
        assert samples[..j + 1] == samples && samples[..j] == init;
      }
    }
  }

  /** The pending counter counts exactly the agreeing samples that end the run. */
  lemma {:induction false} PendingCounts(samples: seq<Sample>, t: Thresholds)
    requires t.Valid() && AllAccepted(samples)
    ensures var s := Run(INITIAL, samples, t);
            && (s.ewma.None? <==> samples == [])
            && (s.pendingTier.None? ==> s.pendingCount == 0)
            && (s.pendingTier.Some? ==>
                  && 1 <= s.pendingCount < t.transitionSamples
                  && s.pendingTier.value != s.tier
                  && Agreeing(samples, t, s.pendingCount, s.tier, s.pendingTier.value))
  {
    if samples != [] {
      var init := samples[..|samples| - 1];
      PendingCounts(init, t);
      var s, s' := Run(INITIAL, init, t), Run(INITIAL, samples, t);
      if s'.pendingTier.Some? {
        var candidate := s'.pendingTier.value;
        if s.pendingTier == Some(candidate) {
          AgreeingSnoc(samples, t, s.pendingCount, s.tier, candidate);
        } else {
          AgreeingSnoc(samples, t, 0, s.tier, candidate);
        }
      }
    }
  }

  /** A commit rests on `transition_samples` consecutive samples that all had the new tier as their
      candidate while the old tier was in force. */
  lemma CommitRestsOnAgreement(samples: seq<Sample>, t: Thresholds)
    requires t.Valid() && AllAccepted(samples) && samples != []
    requires Run(INITIAL, samples, t).tier != Run(INITIAL, samples[..|samples| - 1], t).tier
    ensures Agreeing(samples, t, t.transitionSamples,
                     Run(INITIAL, samples[..|samples| - 1], t).tier, Run(INITIAL, samples, t).tier)
  {
    var init := samples[..|samples| - 1];
    PendingCounts(init, t);
    var s, s' := Run(INITIAL, init, t), Run(INITIAL, samples, t);
    if s.pendingTier == Some(s'.tier) {
      AgreeingSnoc(samples, t, s.pendingCount, s.tier, s'.tier);
    } else {
      AgreeingSnoc(samples, t, 0, s.tier, s'.tier);
    }
  }

  /** The tier changes at sample `i` of the run. */
  ghost predicate CommitAt(samples: seq<Sample>, t: Thresholds, i: nat) {
    i < |samples| && Run(INITIAL, samples[..i + 1], t).tier != Run(INITIAL, samples[..i], t).tier
  }

  /** Two commits are at least `transition_samples` accepted samples apart. */
  lemma CommitsSpaced(samples: seq<Sample>, t: Thresholds, i: nat, j: nat)
    requires t.Valid() && AllAccepted(samples)
    requires i < j && CommitAt(samples, t, i) && CommitAt(samples, t, j)
    ensures j - i >= t.transitionSamples
  {
    var run := samples[..j + 1];
    assert run[..j] == samples[..j];
    CommitRestsOnAgreement(run, t);
    assert run[..i] == samples[..i] && run[..i + 1] == samples[..i + 1];
    var tier, next := Run(INITIAL, samples[..j], t).tier, Run(INITIAL, run, t).tier;
    assert j - i < t.transitionSamples ==> AgreesAt(run, t, i, tier, next);
    assert j - i < t.transitionSamples && i + 1 < j ==> AgreesAt(run, t, i + 1, tier, next);
  }

  // ---- Reversals cost travel ----

  /** The tier changes at sample `i` of a run from `s`, to a more severe tier or to a less severe one. */
  ghost predicate Turns(s: State, samples: seq<Sample>, t: Thresholds, i: nat, up: bool) {
    && i < |samples|
    && var before, after := Run(s, samples[..i], t).tier.Order(), Run(s, samples[..i + 1], t).tier.Order();
       if up then after > before else after < before
  }

  lemma RunSnoc(s: State, samples: seq<Sample>, t: Thresholds, i: nat)
    requires i < |samples|
    ensures Run(s, samples[..i + 1], t) == Advance(Run(s, samples[..i], t), samples[i], t)
  {
    assert samples[..i + 1][..i] == samples[..i];
  }

  lemma {:induction false} SameTier(s: State, samples: seq<Sample>, t: Thresholds, i: nat, j: nat)
    requires i < j <= |samples|
    requires forall k: nat | i < k < j :: !Turns(s, samples, t, k, true) && !Turns(s, samples, t, k, false)
    ensures Run(s, samples[..j], t).tier == Run(s, samples[..i + 1], t).tier
    decreases j
  {
    if i + 1 < j {
      SameTier(s, samples, t, i, j - 1);
      assert !Turns(s, samples, t, j - 1, true) && !Turns(s, samples, t, j - 1, false);
    }
  }

  /** Where a change of tier happens, relative to the tier it leads to or away from. */
  lemma TurnAt(s: State, sample: Sample, t: Thresholds)
    requires t.Valid()
    ensures var s' := Advance(s, sample, t);
            && (s'.tier.Order() > s.tier.Order() ==>
                  s'.ewma.Some? && s'.ewma.value >= t.UpThreshold(s'.tier))
            && (s'.tier.Order() < s.tier.Order() ==>
                  s'.ewma.Some? && s'.ewma.value < t.UpThreshold(s.tier) - t.hysteresis
                  && (s'.tier == GOOD ==> s'.ewma.value < t.good - t.hysteresis))
  {
  }

  /** In any run from any state, two consecutive changes of tier in opposite directions happen at averages more
      than the hysteresis width apart. */
  lemma ConsecutiveTurnsApart(s: State, samples: seq<Sample>, t: Thresholds, i: nat, j: nat, up: bool)
    requires t.Valid() && i < j && Turns(s, samples, t, i, up) && Turns(s, samples, t, j, !up)
    requires forall k: nat | i < k < j :: !Turns(s, samples, t, k, true) && !Turns(s, samples, t, k, false)
    ensures var first, second := Run(s, samples[..i + 1], t).ewma, Run(s, samples[..j + 1], t).ewma;
            && first.Some? && second.Some?
            && (if up then first.value - second.value > t.hysteresis else second.value - first.value > t.hysteresis)
  {
    RunSnoc(s, samples, t, i);
    RunSnoc(s, samples, t, j);
    SameTier(s, samples, t, i, j);
    TurnAt(Run(s, samples[..i], t), samples[i], t);
    TurnAt(Run(s, samples[..j], t), samples[j], t);
    hide Run, Advance;
  }

  function Abs(x: real): real { if x < 0.0 then -x else x }

  /** A run together with what an observer notes: the direction and the average of the last commit, how
      often the direction reversed, and how far the average has travelled. */
  datatype Journal = Journal(state: State, lastUp: Option<bool>, lastAt: real, reversals: nat, travel: real)

  function Note(j: Journal, next: State): Journal {
    var moved := if j.state.ewma.Some? && next.ewma.Some? then Abs(next.ewma.value - j.state.ewma.value) else 0.0;
    if next.tier == j.state.tier then j.(state := next, travel := j.travel + moved)
    else
      var up := next.tier.Order() > j.state.tier.Order();
      Journal(next, Some(up), next.ewma.GetOr(0.0),
              j.reversals + (if j.lastUp == Some(!up) then 1 else 0), j.travel + moved)
  }

  function Journey(s: State, samples: seq<Sample>, t: Thresholds): Journal {
    if samples == [] then Journal(s, None, 0.0, 0, 0.0)
    else
      var j := Journey(s, samples[..|samples| - 1], t);
      Note(j, Advance(j.state, samples[|samples| - 1], t))
  }

  /** Where the last commit happened, relative to the tier it led to. */
  ghost predicate Anchored(j: Journal, t: Thresholds) {
    match j.lastUp
    case None => j.reversals == 0
    case Some(true) => j.state.tier != GOOD && j.lastAt >= t.UpThreshold(j.state.tier)
    case Some(false) =>
      && j.state.tier != POOR
      && j.lastAt < (if j.state.tier == GOOD then t.good else t.degraded) - t.hysteresis
  }

  /** Two consecutive commits in opposite directions are more than the hysteresis width apart. */
  lemma OppositeCommitsApart(j: Journal, sample: Sample, t: Thresholds)
    requires t.Valid() && Anchored(j, t)
    ensures var j' := Note(j, Advance(j.state, sample, t));
            && Anchored(j', t)
            && (j'.reversals > j.reversals ==> Abs(j'.lastAt - j.lastAt) > t.hysteresis)
  {
  }

  /** The travel so far pays for every reversal and for the distance from the last commit. */
  ghost predicate TravelCovers(j: Journal, t: Thresholds) {
    && j.travel >= 0.0
    && (j.lastUp.Some? ==>
          && j.state.ewma.Some?
          && j.reversals as real * t.hysteresis + Abs(j.state.ewma.value - j.lastAt) <= j.travel)
  }

  lemma TravelStep(j: Journal, next: State, t: Thresholds)
    requires TravelCovers(j, t) && (j.lastUp.None? ==> j.reversals == 0)
    requires next.tier != j.state.tier || j.state.ewma.Some? ==> next.ewma.Some?
    requires var j' := Note(j, next); j'.reversals > j.reversals ==> Abs(j'.lastAt - j.lastAt) > t.hysteresis
    ensures TravelCovers(Note(j, next), t)
  {
    var j' := Note(j, next);
    var paid := j.reversals as real * t.hysteresis;
    if j'.reversals > j.reversals {
      var moved := Abs(next.ewma.value - j.state.ewma.value);
      assert j'.travel == j.travel + moved && j'.lastAt == next.ewma.value;
      assert t.hysteresis <= moved + Abs(j.state.ewma.value - j.lastAt);
      assert j'.reversals as real == j.reversals as real + 1.0;
      assert j'.reversals as real * t.hysteresis == paid + t.hysteresis;
    } else {
      assert j'.reversals as real * t.hysteresis == paid;
    }
  }

  lemma JourneyStep(j: Journal, sample: Sample, t: Thresholds)
    requires t.Valid() && Anchored(j, t) && TravelCovers(j, t)
    ensures var j' := Note(j, Advance(j.state, sample, t)); Anchored(j', t) && TravelCovers(j', t)
  {
    OppositeCommitsApart(j, sample, t);
    TravelStep(j, Advance(j.state, sample, t), t);
  }

  lemma {:induction false} JourneyInvariant(s: State, samples: seq<Sample>, t: Thresholds)
    requires t.Valid()
    ensures var j := Journey(s, samples, t); j.state == Run(s, samples, t) && Anchored(j, t) && TravelCovers(j, t)
  {
    if samples != [] {
      JourneyInvariant(s, samples[..|samples| - 1], t);
      JourneyStep(Journey(s, samples[..|samples| - 1], t), samples[|samples| - 1], t);
    }
  }

  /** Over any run from any state, direction reversals times the hysteresis width never exceed the total
      travel of the average. */
  lemma ReversalsBoundedByTravel(s: State, samples: seq<Sample>, t: Thresholds)
    requires t.Valid()
    ensures var j := Journey(s, samples, t);
            j.state == Run(s, samples, t) && j.reversals as real * t.hysteresis <= j.travel
  {
    JourneyInvariant(s, samples, t);
    var j := Journey(s, samples, t);
    if j.lastUp.None? { assert j.reversals as real * t.hysteresis == 0.0; }
  }
}
