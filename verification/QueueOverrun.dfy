/** When the retry budget needs the timing hypothesis: unless a claim can only reach expired entries, one
    lease that runs out under a live holder is enough for two sends on one persisted attempt. */
module QueueOverrun {
  import opened OfflineQueue
  import opened QueueSafety
  import QueueExpiry
  import opened TokenLock

  /** Two workers and one entry created at time zero. */
  function Pair(now: real, delivered: nat, pending: map<nat, real>, hashes: Hashes, locks: Locks<nat>,
                first: Worker, second: Worker, record: Record): State
  {
    State(now, Log(map[0 := 0.0], 1, delivered, pending, {}), hashes, locks, map[0 := first, 1 := second], record)
  }

  const NO_HASHES := Hashes(map[], map[])
  const CREATED := Record(map[0 := 0.0], {}, [], map[], map[], map[])

  lemma Replace(first: Worker, second: Worker, other: Worker)
    ensures map[0 := first, 1 := second][0 := other] == map[0 := other, 1 := second]
    ensures map[0 := first, 1 := second][1 := other] == map[0 := first, 1 := other]
  {
  }

  /** Both workers wait and the entry is undelivered. */
  function Prepared(): State {
    Pair(0.0, 0, map[], NO_HASHES, Locks(map[], 0), Worker([], Idle), Worker([], Idle), CREATED)
  }

  /** The first worker holds the entry, its attempt counted and not yet persisted. */
  function Held(c: Config): State {
    var until := 0.0 + c.claimIdle;
    Pair(0.0, 1, map[0 := 0.0], NO_HASHES, Locks(map[0 := Lease(0, until)], 1),
         Worker([0], Persisting(Hold(0, 0, until), 1)), Worker([], Idle), CREATED)
  }

  lemma {:induction false} ToPrepared(c: Config) returns (states: seq<State>, actions: seq<Action>)
    requires c.Valid()
    ensures Run(c, states, actions) && states[0] == Initial(0.0) && states[|actions|] == Prepared()
  {
    var s0 := Initial(0.0);
    var s1 := Next(c, s0, Enqueue);
    var s2 := Next(c, s1, Spawn(0));
    var s3 := Next(c, s2, Spawn(1));
    states := Extend(c, [s0], [], Enqueue, s1);
    states := Extend(c, states, [Enqueue], Spawn(0), s2);
    actions := [Enqueue] + [Spawn(0)];
    states := Extend(c, states, actions, Spawn(1), s3);
    actions := actions + [Spawn(1)];
    assert s3.workers == map[0 := Worker([], Idle), 1 := Worker([], Idle)];
  }

  lemma {:induction false} Delivered(c: Config, s: State)
    requires c.Valid() && s == Prepared()
    ensures Enabled(c, s, ReadNew(0, 1))
    ensures Next(c, s, ReadNew(0, 1)) ==
            Pair(0.0, 1, map[0 := 0.0], NO_HASHES, Locks(map[], 0), Worker([0], Idle), Worker([], Idle), CREATED)
  {
    assert HandedOut(s.log, 1) == [0];
    assert NextLog(s, ReadNew(0, 1)).pending == map[0 := 0.0];
    Replace(Worker([], Idle), Worker([], Idle), Worker([0], Idle));
  }

  /** A worker with the entry in its batch comes to hold it with its attempt counted. */
  lemma {:induction false} Counted(c: Config, states: seq<State>, actions: seq<Action>, w: nat, s: State)
    returns (longer: seq<State>, done: seq<Action>)
    requires Run(c, states, actions) && states[|actions|] == s
    requires w < 2 && s.workers.Keys == {0, 1} && s.workers[w] == Worker([0], Idle) && !s.locks.Leased(0, s.now)
    requires s.hashes == NO_HASHES && s.record == CREATED && s.now <= c.maxAge
    ensures Run(c, longer, done) && longer[0] == states[0]
    ensures var until := s.now + c.claimIdle;
            var s' := longer[|done|];
            && s'.now == s.now && s'.log == s.log && s'.hashes == s.hashes && s'.record == s.record
            && s'.locks == Locks(s.locks.leases[0 := Lease(s.locks.nextToken, until)], s.locks.nextToken + 1)
            && s'.workers == s.workers[w := Worker([0], Persisting(Hold(0, s.locks.nextToken, until), 1))]
  {
    var s1 := Next(c, s, Acquire(w, true));
    var s2 := Next(c, s1, ReadDue(w));
    var s3 := Next(c, s2, ReadAttempts(w, Eligible));
    longer := Extend(c, states, actions, Acquire(w, true), s1);
    done := actions + [Acquire(w, true)];
    longer := Extend(c, longer, done, ReadDue(w), s2);
    done := done + [ReadDue(w)];
    longer := Extend(c, longer, done, ReadAttempts(w, Eligible), s3);
    done := done + [ReadAttempts(w, Eligible)];
    assert s3.workers == s.workers[w := s3.workers[w]];
  }

  /** A holder with its attempt counted persists it and sends. */
  lemma {:induction false} SendsOnce(c: Config, states: seq<State>, actions: seq<Action>, w: nat, s: State)
    returns (longer: seq<State>, done: seq<Action>)
    requires Run(c, states, actions) && states[|actions|] == s
    requires w < 2 && s.workers.Keys == {0, 1} && s.workers[w].stage.Persisting?
    requires s.workers[w].stage.h.m == 0 && s.workers[w].stage.n == 1
    ensures Run(c, longer, done) && longer[0] == states[0]
    ensures var s' := longer[|done|];
            && s'.log == s.log && s'.hashes.Attempts(0) == 1
            && |s'.record.Sends(0)| == |s.record.Sends(0)| + 1
            && w in s'.workers && s'.workers == s.workers[w := s'.workers[w]]
  {
    var s1 := Next(c, s, PersistAttempts(w));
    var s2 := Next(c, s1, PersistDue(w));
    var s3 := Next(c, s2, Request(w, true));
    longer := Extend(c, states, actions, PersistAttempts(w), s1);
    done := actions + [PersistAttempts(w)];
    longer := Extend(c, longer, done, PersistDue(w), s2);
    done := done + [PersistDue(w)];
    longer := Extend(c, longer, done, Request(w, true), s3);
    done := done + [Request(w, true)];
    assert s3.workers == s.workers[w := s3.workers[w]];
  }

  lemma {:induction false} Reclaimed(c: Config, s: State)
    requires c.Valid() && s == Held(c)
    ensures var late := s.(now := 0.0 + c.claimIdle);
            && Enabled(c, s, Tick(c.claimIdle)) && Next(c, s, Tick(c.claimIdle)) == late
            && Enabled(c, late, Claim(1, [0]))
            && Next(c, late, Claim(1, [0])) ==
               Pair(late.now, 1, map[0 := late.now], NO_HASHES, s.locks, s.workers[0], Worker([0], Idle), CREATED)
  {
    var late := s.(now := 0.0 + c.claimIdle);
    assert NextLog(late, Claim(1, [0])).pending == map[0 := late.now];
    Replace(s.workers[0], Worker([], Idle), Worker([0], Idle));
  }

  /** With any settings whose claim time is within the maximum age there is a run of two workers, in which
      one lease runs out under its live holder, that sends an unacknowledged message twice on one
      persisted attempt. */
  lemma OverrunBreaksBudget(c: Config) returns (states: seq<State>, actions: seq<Action>)
    requires c.Valid() && c.claimIdle <= c.maxAge
    ensures Run(c, states, actions) && states[0] == Initial(0.0)
    ensures var s := states[|actions|];
            0 !in s.log.acked && |s.record.Sends(0)| == 2 && s.hashes.Attempts(0) == 1
  {
    hide Enabled, Next;
    states, actions := ToPrepared(c);
    var s := states[|actions|];
    Delivered(c, s);
    states := Extend(c, states, actions, ReadNew(0, 1), Next(c, s, ReadNew(0, 1)));
    actions := actions + [ReadNew(0, 1)];
    states, actions := Counted(c, states, actions, 0, states[|actions|]);
    s := states[|actions|];
    Replace(Worker([0], Idle), Worker([], Idle), Held(c).workers[0]);
    assert s == Held(c);
    Reclaimed(c, s);
    states := Extend(c, states, actions, Tick(c.claimIdle), Next(c, s, Tick(c.claimIdle)));
    actions := actions + [Tick(c.claimIdle)];
    s := states[|actions|];
    states := Extend(c, states, actions, Claim(1, [0]), Next(c, s, Claim(1, [0])));
    actions := actions + [Claim(1, [0])];
    states, actions := Counted(c, states, actions, 1, states[|actions|]);
    states, actions := SendsOnce(c, states, actions, 1, states[|actions|]);
    states, actions := SendsOnce(c, states, actions, 0, states[|actions|]);
  }

  /** The message's sends are covered by its persisted attempts, and these are within the budget. */
  predicate Covered(c: Config, s: State, m: nat) {
    m !in s.log.acked ==> |s.record.Sends(m)| <= s.hashes.Attempts(m) <= c.maxRetries + 1
  }

  /** The budget holds in every run, whatever leases run out. */
  ghost predicate AlwaysCovered(c: Config) {
    forall states, actions, now, m |
      Run(c, states, actions) && states[0] == Initial(now) :: Covered(c, states[|actions|], m)
  }

  /** Without the timing hypothesis the settings decide: the budget holds in every run if and only if an
      entry idle long enough to be claimed is already too old to be sent. */
  lemma BudgetIffClaimsExpire(c: Config)
    requires c.Valid()
    ensures AlwaysCovered(c) <==> c.claimIdle > c.maxAge
  {
    if c.claimIdle > c.maxAge {
      forall states, actions, now, m | Run(c, states, actions) && states[0] == Initial(now)
        ensures Covered(c, states[|actions|], m)
      {
        QueueExpiry.SentAtMostOnce(c, states, actions, now, m);
      }
    } else {
      var states, actions := OverrunBreaksBudget(c);
      assert !Covered(c, states[|actions|], 0);
    }
  }
}
