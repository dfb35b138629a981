/** The single-flight revalidation of gateway/routes/proxy.py on the token lock, as a transition system over
    any number of keys and refreshes. */
module SingleFlight {
  import opened TokenLock

  /** `int(timeout) + 5`, or the configured minimum if that is longer. */
  function LockTtl(configured: real, timeout: real): (ttl: real)
    ensures ttl >= configured && ttl >= timeout.Floor as real + 5.0
    ensures ttl == configured || ttl == timeout.Floor as real + 5.0
  {
    var floor := timeout.Floor as real + 5.0;
    if configured > floor then configured else floor
  }

  datatype Phase = Spawned | Calling(started: real) | Storing

  /** A background refresh: the key it revalidates, its token, when it took the lock, its timeout. */
  datatype Refresh = Refresh(key: string, token: nat, taken: real, timeout: real, phase: Phase)

  datatype State = State(now: real, locks: Locks<string>, refreshes: map<nat, Refresh>)

  datatype Action =
    | Tick(elapsed: real)
    | Revalidate(id: nat, key: string, timeout: real)
    | Start(id: nat)
    | Answer(id: nat)
    | Release(id: nat)
    | Crash(id: nat)

  predicate Enabled(s: State, a: Action) {
    match a
    case Tick(elapsed) => elapsed >= 0.0
    case Revalidate(id, _, timeout) => id !in s.refreshes && timeout > 0.0
    case Start(id) => id in s.refreshes && s.refreshes[id].phase.Spawned?
    case Answer(id) => id in s.refreshes && s.refreshes[id].phase.Calling?
    case Release(id) => id in s.refreshes
    case Crash(id) => id in s.refreshes
  }

  /** A stale hit: only the winner of SET NX EX spawns a refresh.  A release compares tokens. */
  function Next(configured: real, s: State, a: Action): State
    requires Enabled(s, a)
  {
    match a
    case Tick(elapsed) => s.(now := s.now + elapsed)
    case Revalidate(id, key, timeout) =>
      if s.locks.Leased(key, s.now) then s
      else s.(locks := s.locks.Acquired(key, s.now, LockTtl(configured, timeout)),
              refreshes := s.refreshes[id := Refresh(key, s.locks.nextToken, s.now, timeout, Spawned)])
    case Start(id) => s.(refreshes := s.refreshes[id := s.refreshes[id].(phase := Calling(s.now))])
    case Answer(id) => s.(refreshes := s.refreshes[id := s.refreshes[id].(phase := Storing)])
    case Release(id) =>
      var r := s.refreshes[id];
      s.(locks := s.locks.Released(r.key, r.token, s.now), refreshes := s.refreshes - {id})
    case Crash(id) => s.(refreshes := s.refreshes - {id})
  }

  function Initial(now: real): State { State(now, Locks(map[], 0), map[]) }

  /** A refresh began its call at most `grace` seconds after taking the lock, and the call's own timeout
      has not been exceeded. */
  ghost predicate Timely(s: State, grace: real) {
    forall id | id in s.refreshes && s.refreshes[id].phase.Calling? ::
      var r := s.refreshes[id];
      r.phase.started <= r.taken + grace && s.now <= r.phase.started + r.timeout
  }

  ghost predicate Inv(configured: real, s: State) {
    && (forall k | k in s.locks.leases :: s.locks.leases[k].token < s.locks.nextToken)
    && (forall id | id in s.refreshes :: RefreshOk(configured, s, s.refreshes[id]))
    && (forall i, j | i in s.refreshes && j in s.refreshes && i != j :: s.refreshes[i].token != s.refreshes[j].token)
  }

  /** Until its lease ends, a refresh's lock is in place and carries its token. */
  ghost predicate RefreshOk(configured: real, s: State, r: Refresh) {
    var until := r.taken + LockTtl(configured, r.timeout);
    && r.token < s.locks.nextToken && r.taken <= s.now && r.timeout > 0.0
    && (s.now < until ==> r.key in s.locks.leases && s.locks.leases[r.key] == Lease(r.token, until))
  }

  lemma {:induction false} InvStep(configured: real, s: State, a: Action)
    requires Inv(configured, s) && Enabled(s, a)
    ensures Inv(configured, Next(configured, s, a))
  {
    var s' := Next(configured, s, a);
    forall id | id in s'.refreshes ensures RefreshOk(configured, s', s'.refreshes[id]) {
      if id in s.refreshes { assert RefreshOk(configured, s, s.refreshes[id]); }
    }
  }

  /** Giving a lock back never removes a lock that another refresh holds, even after one's own has expired. */
  lemma ReleaseSparesSuccessor(configured: real, s: State, id: nat, other: nat)
    requires Inv(configured, s) && id in s.refreshes && other in s.refreshes && id != other
    requires var r := s.refreshes[other]; r.key in s.locks.leases && s.locks.leases[r.key].token == r.token
    ensures var s', r := Next(configured, s, Release(id)), s.refreshes[other];
            r.key in s'.locks.leases && s'.locks.leases[r.key] == s.locks.leases[r.key]
  {
    assert s.refreshes[id].token != s.refreshes[other].token;
  }

  /** Any run; an action that is not possible is skipped. */
  function Execute(configured: real, s: State, actions: seq<Action>): State {
    if actions == [] then s
    else
      var before := Execute(configured, s, actions[..|actions| - 1]);
      var a := actions[|actions| - 1];
      if Enabled(before, a) then Next(configured, before, a) else before
  }

  lemma {:induction false} InvRun(configured: real, now: real, actions: seq<Action>)
    ensures Inv(configured, Execute(configured, Initial(now), actions))
  {
    if actions != [] {
      var n := |actions| - 1;
      InvRun(configured, now, actions[..n]);
      var before := Execute(configured, Initial(now), actions[..n]);
      if Enabled(before, actions[n]) { InvStep(configured, before, actions[n]); }
    }
  }

  // ---- Single flight and its exact condition ----

  /** Two refreshes of one key are calling the upstream at once. */
  ghost predicate Overlap(s: State, i: nat, j: nat) {
    && i in s.refreshes && j in s.refreshes && i != j
    && s.refreshes[i].phase.Calling? && s.refreshes[j].phase.Calling?
    && s.refreshes[i].key == s.refreshes[j].key
  }

  /** The lock outlives every call with this timeout that starts in time. */
  predicate Outlasts(configured: real, timeout: real, grace: real) {
    grace + timeout < LockTtl(configured, timeout)
  }

  /** Four seconds are enough for every timeout and every configured minimum. */
  lemma FourSecondsOutlast(configured: real, timeout: real, grace: real)
    requires grace <= 4.0
    ensures Outlasts(configured, timeout, grace)
  {
    assert timeout < timeout.Floor as real + 1.0;
  }

  lemma CallWithinLock(configured: real, r: Refresh, now: real, grace: real)
    requires r.phase.Calling? && Outlasts(configured, r.timeout, grace)
    requires r.phase.started <= r.taken + grace && now <= r.phase.started + r.timeout
    ensures now < r.taken + LockTtl(configured, r.timeout)
  {
  }

  /** After every run, timely calls that their locks outlast do not overlap. */
  lemma OutlastedCallsApart(configured: real, now: real, actions: seq<Action>, i: nat, j: nat, grace: real)
    requires var s := Execute(configured, Initial(now), actions);
             && Timely(s, grace)
             && forall id | id in s.refreshes :: Outlasts(configured, s.refreshes[id].timeout, grace)
    ensures !Overlap(Execute(configured, Initial(now), actions), i, j)
  {
    var s := Execute(configured, Initial(now), actions);
    InvRun(configured, now, actions);
    if i in s.refreshes && j in s.refreshes && i != j
       && s.refreshes[i].phase.Calling? && s.refreshes[j].phase.Calling?
    {
      CallWithinLock(configured, s.refreshes[i], s.now, grace);
      CallWithinLock(configured, s.refreshes[j], s.now, grace);
      assert RefreshOk(configured, s, s.refreshes[i]) && RefreshOk(configured, s, s.refreshes[j]);
    }
  }

  /** Single flight: after every run, if calls start within four seconds of taking the lock, at most one
      refresh of a key is calling the upstream, whatever the timeouts and the configured minimum. */
  lemma AtMostOneInFlight(configured: real, now: real, actions: seq<Action>, i: nat, j: nat)
    requires Timely(Execute(configured, Initial(now), actions), 4.0)
    ensures !Overlap(Execute(configured, Initial(now), actions), i, j)
  {
    var s := Execute(configured, Initial(now), actions);
    forall id | id in s.refreshes ensures Outlasts(configured, s.refreshes[id].timeout, 4.0) {
      FourSecondsOutlast(configured, s.refreshes[id].timeout, 4.0);
    }
    OutlastedCallsApart(configured, now, actions, i, j, 4.0);
  }

  /** The run that breaks single flight when the lock does not outlast the call: the first refresh starts at
      the end of its grace, and the second takes the expired lock while the first is still within its timeout. */
  function LateCalls(key: string, timeout: real, grace: real): seq<Action> {
    [Revalidate(0, key, timeout), Tick(grace), Start(0), Tick(timeout), Revalidate(1, key, timeout), Start(1)]
  }

  lemma ExecuteMore(configured: real, s: State, actions: seq<Action>, n: nat)
    requires n < |actions|
    ensures var before := Execute(configured, s, actions[..n]);
            Execute(configured, s, actions[..n + 1]) ==
            if Enabled(before, actions[n]) then Next(configured, before, actions[n]) else before
  {
    assert actions[..n + 1][..n] == actions[..n];
  }

  lemma LateCallsOverlap(configured: real, key: string, timeout: real, grace: real)
    requires timeout > 0.0 && grace >= 0.0 && !Outlasts(configured, timeout, grace)
    ensures var s := Execute(configured, Initial(0.0), LateCalls(key, timeout, grace));
            && Timely(s, grace) && Overlap(s, 0, 1)
            && forall id | id in s.refreshes :: s.refreshes[id].timeout == timeout
  {
    var actions, start := LateCalls(key, timeout, grace), Initial(0.0);
    forall n: nat | n < |actions|
      ensures var before := Execute(configured, start, actions[..n]);
              Execute(configured, start, actions[..n + 1]) ==
              if Enabled(before, actions[n]) then Next(configured, before, actions[n]) else before
    {
      ExecuteMore(configured, start, actions, n);
    }
    hide LockTtl;
    assert actions[..0] == [] && actions[..6] == actions;
    var s1 := Execute(configured, start, actions[..1]);
    assert s1.refreshes == map[0 := Refresh(key, 0, 0.0, timeout, Spawned)];
    assert s1.locks == Locks(map[key := Lease(0, 0.0 + LockTtl(configured, timeout))], 1);
    var s2 := Execute(configured, start, actions[..2]);
    assert s2 == s1.(now := 0.0 + grace);
    var s3 := Execute(configured, start, actions[..3]);
    var first := Refresh(key, 0, 0.0, timeout, Calling(s2.now));
    assert s3 == s2.(refreshes := map[0 := first]);
    var s4 := Execute(configured, start, actions[..4]);
    assert s4 == s3.(now := s3.now + timeout) && !s4.locks.Leased(key, s4.now);
    var s5 := Execute(configured, start, actions[..5]);
    assert s5.now == s4.now && s5.refreshes == map[0 := first, 1 := Refresh(key, 1, s4.now, timeout, Spawned)];
    var s6 := Execute(configured, start, actions[..6]);
    assert s6.now == s4.now && s6.refreshes == map[0 := first, 1 := Refresh(key, 1, s4.now, timeout, Calling(s4.now))];
  }

  /** No run in which calls start within the grace, all with the given timeout, has two of them overlap. */
  ghost predicate FlightSafe(configured: real, timeout: real, grace: real) {
    forall now, actions, i, j ::
      var s := Execute(configured, Initial(now), actions);
      Timely(s, grace) && (forall id | id in s.refreshes :: s.refreshes[id].timeout == timeout) ==> !Overlap(s, i, j)
  }

  /** For given settings, single flight holds in every run exactly when the lock outlasts the call. */
  lemma FlightSafeIffOutlasts(configured: real, timeout: real, grace: real)
    requires timeout > 0.0
    ensures FlightSafe(configured, timeout, grace) <==> Outlasts(configured, timeout, grace)
    ensures FlightSafe(configured, timeout, grace) <==>
            grace + timeout < configured || grace < 5.0 + timeout.Floor as real - timeout
  {
    if Outlasts(configured, timeout, grace) {
      forall now, actions, i, j |
        var s := Execute(configured, Initial(now), actions);
        Timely(s, grace) && (forall id | id in s.refreshes :: s.refreshes[id].timeout == timeout)
        ensures !Overlap(Execute(configured, Initial(now), actions), i, j)
      {
        OutlastedCallsApart(configured, now, actions, i, j, grace);
      }
    } else {
      assert grace > 0.0 by { if grace <= 0.0 { FourSecondsOutlast(configured, timeout, grace); } }
      LateCallsOverlap(configured, "", timeout, grace);
    }
  }

  /** Single flight holds for every positive minimum and timeout exactly when the grace is at most four
      seconds. */
  lemma SingleFlightIffFourSeconds(grace: real)
    ensures (forall configured, timeout | configured > 0.0 && timeout > 0.0 :: FlightSafe(configured, timeout, grace))
            <==> grace <= 4.0
  {
    if grace <= 4.0 {
      forall configured, timeout | configured > 0.0 && timeout > 0.0 ensures FlightSafe(configured, timeout, grace) {
        FourSecondsOutlast(configured, timeout, grace);
        FlightSafeIffOutlasts(configured, timeout, grace);
      }
    } else {
      var timeout := if grace >= 5.0 then 0.5 else 0.5 * (6.0 - grace);
      assert timeout.Floor == 0;
      FlightSafeIffOutlasts(1.0, timeout, grace);
      assert !FlightSafe(1.0, timeout, grace);
    }
  }

  // ---- The operations on the shared keys ----

  class Revalidator {
    const configured: real
    var s: State

    constructor (configured: real, now: real)
      ensures this.configured == configured && s == Initial(now) && Inv(configured, s)
    {
      this.configured, this.s := configured, Initial(now);
    }

    /** `acquire_lock` on the revalidation key and, for the winner, the spawned refresh. */
    method ServeStale(id: nat, key: string, timeout: real) returns (token: nat, won: bool)
      requires Inv(configured, s) && id !in s.refreshes && timeout > 0.0
      modifies this
      ensures Inv(configured, s) && s == Next(configured, old(s), Revalidate(id, key, timeout))
      ensures won <==> !old(s.locks.Leased(key, s.now))
      ensures won ==> s.locks.Leased(key, s.now) && s.locks.leases[key].token == token
      ensures won ==> forall k | k in old(s.locks.leases) :: old(s.locks.leases)[k].token != token
      ensures !won ==> s == old(s)
    {
      InvStep(configured, s, Revalidate(id, key, timeout));
      token := s.locks.nextToken;
      won := !s.locks.Leased(key, s.now);
      if won {
        var ttl := if configured > timeout.Floor as real + 5.0 then configured else timeout.Floor as real + 5.0;
        s := s.(locks := Locks(s.locks.leases[key := Lease(token, s.now + ttl)], token + 1),
                refreshes := s.refreshes[id := Refresh(key, token, s.now, timeout, Spawned)]);
        assert timeout.Floor >= 0;
      }
    }

    /** `release_lock` at the end of a refresh: every lock with another token stays. */
    method FinishRefresh(id: nat)
      requires Inv(configured, s) && id in s.refreshes
      modifies this
      ensures Inv(configured, s) && s == Next(configured, old(s), Release(id))
      ensures forall k | k in old(s.locks.leases) && old(s.locks.leases)[k].token != old(s.refreshes)[id].token ::
                k in s.locks.leases && s.locks.leases[k] == old(s.locks.leases)[k]
      ensures var r := old(s.refreshes)[id];
              && id !in s.refreshes
              && (old(s.locks.Leased(r.key, s.now)) && old(s.locks.leases)[r.key].token == r.token ==>
                    !s.locks.Leased(r.key, s.now))
    {
      InvStep(configured, s, Release(id));
      var r := s.refreshes[id];
      if s.locks.Leased(r.key, s.now) && s.locks.leases[r.key].token == r.token {
        s := s.(locks := s.locks.(leases := s.locks.leases - {r.key}));
      }
      s := s.(refreshes := s.refreshes - {id});
    }
  }
}
