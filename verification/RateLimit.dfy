/** gateway/middleware/rate_limit.py: the fixed-window counter kept by one atomic Redis script. */
module RateLimit {
  import opened Collections

  /** The counter key: absent, or a count that disappears at `expires`. */
  datatype Key = Absent | Counter(count: nat, expires: real)

  /** `incr`, and `expire` when the counter was created: the window opens with its first request. */
  function Hit(key: Key, now: real, window: real): (r: Key)
    ensures r.Counter? && r.count > 0
  {
    if key.Counter? && now < key.expires then Counter(key.count + 1, key.expires) else Counter(1, now + window)
  }

  datatype Answer = Allowed(remaining: nat) | Limited | Unavailable

  class Limiter {
    const limit: nat
    const window: real
    var key: Key

    constructor (limit: nat, window: real)
      ensures this.limit == limit && this.window == window && key == Absent
    {
      this.limit, this.window, this.key := limit, window, Absent;
    }

    /** `check_rate_limit`: with Redis down it fails open, or closed in production, and counts nothing. */
    method CheckRateLimit(now: real, redisUp: bool, production: bool) returns (r: Answer)
      modifies this
      ensures redisUp ==> key == Hit(old(key), now, window)
      ensures redisUp ==>
                key == if old(key).Counter? && now < old(key).expires then Counter(old(key).count + 1, old(key).expires)
                       else Counter(1, now + window)
      ensures redisUp ==> r == if key.count <= limit then Allowed(limit - key.count) else Limited
      ensures !redisUp ==> key == old(key) && r == if production then Unavailable else Allowed(limit)
    {
      if !redisUp {
        return if production then Unavailable else Allowed(limit);
      }
      key := Hit(key, now, window);
      var count := key.count;
      var remaining := if limit - count > 0 then limit - count else 0;
      r := if count <= limit then Allowed(remaining) else Limited;
    }

    /** Every run of the limiter with Redis available: which of the requests are let through. */
    method Serve(times: seq<real>) returns (allowed: seq<bool>)
      requires key == Absent
      modifies this
      ensures key == KeyAfter(times, window)
      ensures |allowed| == |times|
      ensures forall i | 0 <= i < |times| :: allowed[i] <==> Admitted(times, window, limit, i)
    {
      allowed := [];
      for i := 0 to |times|
        invariant key == KeyAfter(times[..i], window)
        invariant |allowed| == i
        invariant forall j | 0 <= j < i :: allowed[j] <==> Admitted(times, window, limit, j)
      {
        var r := CheckRateLimit(times[i], true, false);
        allowed := allowed + [r.Allowed?];
        assert times[..i + 1][..i] == times[..i];
      }
      assert times[..|times|] == times;
    }
  }

  // ---- Runs ----

  /** The key after requests at the given times. */
  function KeyAfter(times: seq<real>, window: real): Key {
    if times == [] then Absent
    else Hit(KeyAfter(times[..|times| - 1], window), times[|times| - 1], window)
  }

  predicate Admitted(times: seq<real>, window: real, limit: nat, i: nat)
    requires i < |times|
  {
    KeyAfter(times[..i + 1], window).count <= limit
  }

  ghost predicate Ordered(times: seq<real>) {
    forall i, j | 0 <= i < j < |times| :: times[i] <= times[j]
  }

  /** How many of the requests are admitted at a time in `[from, to)`. */
  function AdmittedIn(times: seq<real>, window: real, limit: nat, from: real, to: real): nat {
    if times == [] then 0
    else
      var n := |times| - 1;
      AdmittedIn(times[..n], window, limit, from, to)
      + if KeyAfter(times, window).count <= limit && from <= times[n] < to then 1 else 0
  }

  /** The requests admitted at a time in `[from, to)`. */
  function AdmittedAt(times: seq<real>, window: real, limit: nat, from: real, to: real): set<nat> {
    set i: nat | i < |times| && InInterval(times, window, limit, from, to, i)
  }

  predicate InInterval(times: seq<real>, window: real, limit: nat, from: real, to: real, i: nat)
    requires i < |times|
  {
    Admitted(times, window, limit, i) && from <= times[i] < to
  }

  lemma AdmittedAtStep(times: seq<real>, window: real, limit: nat, from: real, to: real)
    requires times != []
    ensures var n: nat := |times| - 1;
            AdmittedAt(times, window, limit, from, to) ==
            AdmittedAt(times[..n], window, limit, from, to)
            + if KeyAfter(times, window).count <= limit && from <= times[n] < to then {n} else {}
  {
    var n: nat := |times| - 1;
    var init := times[..n];
    hide KeyAfter;
    forall i: nat | i < n
      ensures InInterval(init, window, limit, from, to, i) <==> InInterval(times, window, limit, from, to, i)
    {
      assert init[..i + 1] == times[..i + 1];
    }
    assert times[..n + 1] == times;
  }

  lemma {:induction false} AdmittedInCounts(times: seq<real>, window: real, limit: nat, from: real, to: real)
    ensures AdmittedIn(times, window, limit, from, to) == |AdmittedAt(times, window, limit, from, to)|
  {
    if times == [] {
      assert AdmittedAt(times, window, limit, from, to) == {};
    } else {
      AdmittedInCounts(times[..|times| - 1], window, limit, from, to);
      AdmittedAtStep(times, window, limit, from, to);
    }
  }

  /** Where the count stands relative to an interval of one window length that starts at `from`: the
      opening request of a window that began earlier lies outside, and at most one window begins inside. */
  ghost predicate Bounded(times: seq<real>, window: real, limit: nat, from: real) {
    var admitted := AdmittedIn(times, window, limit, from, from + window);
    match KeyAfter(times, window)
    case Absent => admitted == 0
    case Counter(count, expires) =>
      var start := expires - window;
      && start <= times[|times| - 1] < expires
      && (times[|times| - 1] < from ==> admitted == 0)
      && (start < from ==> admitted <= Min(count, limit) - 1 || admitted == 0)
      && (from <= start < from + window ==> admitted <= (if limit > 0 then limit - 1 else 0) + Min(count, limit))
      && (from + window <= start ==> admitted <= if limit > 0 then 2 * limit - 1 else 0)
  }

  lemma {:induction false} BoundedRun(times: seq<real>, window: real, limit: nat, from: real)
    requires window > 0.0 && Ordered(times)
    ensures Bounded(times, window, limit, from)
  {
    if times != [] {
      var n := |times| - 1;
      var init := times[..n];
      BoundedRun(init, window, limit, from);
      if n > 0 { assert init[n - 1] <= times[n]; }
    }
  }

  /** No window-long half-open interval, wherever it starts, sees more than `2 * limit - 1` admissions. */
  lemma SlidingBound(times: seq<real>, window: real, limit: nat, from: real)
    requires window > 0.0 && Ordered(times)
    ensures |AdmittedAt(times, window, limit, from, from + window)| <= if limit > 0 then 2 * limit - 1 else 0
  {
    BoundedRun(times, window, limit, from);
    AdmittedInCounts(times, window, limit, from, from + window);
  }

  /** Within the window that is open at the end of a run, exactly the first `limit` requests were admitted. */
  lemma {:induction false} WindowBound(times: seq<real>, window: real, limit: nat)
    requires window > 0.0 && Ordered(times) && times != []
    ensures var key := KeyAfter(times, window);
            && key.expires - window <= times[|times| - 1] < key.expires
            && |AdmittedAt(times, window, limit, key.expires - window, key.expires)| == Min(key.count, limit)
  {
    var n := |times| - 1;
    var init, key := times[..n], KeyAfter(times, window);
    AdmittedInCounts(times, window, limit, key.expires - window, key.expires);
    AdmittedInCounts(init, window, limit, key.expires - window, key.expires);
    if n == 0 {
      assert AdmittedIn(init, window, limit, key.expires - window, key.expires) == 0;
    } else {
      assert init[n - 1] <= times[n];
      WindowBound(init, window, limit);
      if times[n] >= KeyAfter(init, window).expires {
        NoneYet(init, window, limit, times[n], times[n] + window);
      }
    }
  }

  lemma {:induction false} NoneYet(times: seq<real>, window: real, limit: nat, from: real, to: real)
    requires forall i | 0 <= i < |times| :: times[i] < from
    ensures AdmittedIn(times, window, limit, from, to) == 0
  {
    if times != [] { NoneYet(times[..|times| - 1], window, limit, from, to); }
  }

  // ---- The sliding bound is reached ----

  /** One request opens a window, `limit - 1` follow in its second half, and `limit` open the next. */
  function Burst(limit: nat, window: real): seq<real>
    requires limit > 0
  {
    [0.0] + seq(limit - 1, i => window / 2.0) + seq(limit, i => window)
  }

  lemma {:induction false} BurstKeys(limit: nat, window: real, i: nat)
    requires limit > 0 && window > 0.0 && i < 2 * limit
    ensures KeyAfter(Burst(limit, window)[..i + 1], window) ==
            if i < limit then Counter(i + 1, window) else Counter(i - limit + 1, 2.0 * window)
  {
    var times := Burst(limit, window);
    assert times[..i + 1][..i] == times[..i];
    if i > 0 { BurstKeys(limit, window, i - 1); }
    assert times[i] == if i == 0 then 0.0 else if i < limit then window / 2.0 else window;
  }

  /** For every positive limit there is a run that reaches the sliding bound, so it cannot be improved. */
  lemma SlidingBoundTight(limit: nat, window: real)
    requires limit > 0 && window > 0.0
    ensures var times := Burst(limit, window);
            && Ordered(times)
            && |AdmittedAt(times, window, limit, window / 2.0, window / 2.0 + window)| == 2 * limit - 1
  {
    BurstOrdered(limit, window);
    BurstAdmitted(limit, window);
  }

  lemma BurstOrdered(limit: nat, window: real)
    requires limit > 0 && window > 0.0
    ensures Ordered(Burst(limit, window))
  {
  }

  lemma BurstAdmitted(limit: nat, window: real)
    requires limit > 0 && window > 0.0
    ensures |AdmittedAt(Burst(limit, window), window, limit, window / 2.0, window / 2.0 + window)| == 2 * limit - 1
  {
    var times, from, to := Burst(limit, window), window / 2.0, window / 2.0 + window;
    forall i: nat | i < |times| ensures InInterval(times, window, limit, from, to, i) <==> i >= 1 {
      BurstInside(limit, window, i);
    }
    AllButFirst(times, window, limit, from, to);
  }

  lemma AllButFirst(times: seq<real>, window: real, limit: nat, from: real, to: real)
    requires times != [] && forall i: nat | i < |times| :: InInterval(times, window, limit, from, to, i) <==> i >= 1
    ensures |AdmittedAt(times, window, limit, from, to)| == |times| - 1
  {
    assert AdmittedAt(times, window, limit, from, to) == Range(1, |times|);
  }

  lemma BurstInside(limit: nat, window: real, i: nat)
    requires limit > 0 && window > 0.0 && i < 2 * limit
    ensures InInterval(Burst(limit, window), window, limit, window / 2.0, window / 2.0 + window, i) <==> i >= 1
  {
    BurstKeys(limit, window, i);
    hide KeyAfter;
    assert Burst(limit, window)[i] == if i == 0 then 0.0 else if i < limit then window / 2.0 else window;
  }

  function Range(lo: nat, hi: nat): (r: set<nat>)
    requires lo <= hi
    ensures forall i :: i in r <==> lo <= i < hi
    ensures |r| == hi - lo
    decreases hi
  {
    if lo == hi then {} else Range(lo, hi - 1) + {hi - 1}
  }
}
