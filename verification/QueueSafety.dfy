/** Nothing accepted into the offline queue is lost, in any run, with crashes and expiring leases anywhere. */
module QueueSafety {
  import opened OfflineQueue

  // ---- Runs ----

  /** A run: each state follows from the one before by some possible action. */
  ghost predicate Run(c: Config, states: seq<State>, actions: seq<Action>) {
    && c.Valid() && |states| == |actions| + 1
    && forall i | 0 <= i < |actions| :: Stepped(c, states, actions, i)
  }

  ghost predicate Stepped(c: Config, states: seq<State>, actions: seq<Action>, i: nat)
    requires c.Valid() && |states| == |actions| + 1 && i < |actions|
  {
    Enabled(c, states[i], actions[i]) && states[i + 1] == Next(c, states[i], actions[i])
  }

  lemma RunPrefix(c: Config, states: seq<State>, actions: seq<Action>)
    requires Run(c, states, actions) && actions != []
    ensures Run(c, states[..|actions|], actions[..|actions| - 1])
    ensures Stepped(c, states, actions, |actions| - 1)
  {
    var n := |actions| - 1;
    var earlier, done := states[..n + 1], actions[..n];
    forall i | 0 <= i < n ensures Stepped(c, earlier, done, i) {
      assert Stepped(c, states, actions, i);
    }
  }

  lemma Extend(c: Config, states: seq<State>, actions: seq<Action>, a: Action, s: State) returns (longer: seq<State>)
    requires Run(c, states, actions) && Enabled(c, states[|actions|], a) && s == Next(c, states[|actions|], a)
    ensures longer == states + [s] && Run(c, longer, actions + [a])
  {
    hide Enabled, Next;
    longer := states + [s];
    var done := actions + [a];
    forall i | 0 <= i < |done| ensures Stepped(c, longer, done, i) {
      if i < |actions| { assert Stepped(c, states, actions, i); }
    }
  }

  // ---- The invariant ----

  /** The stream, the group's position and the pending list fit together. */
  ghost predicate LogSafe(c: Config, log: Log) {
    && |log.stream| <= c.maxDepth
    && log.delivered <= log.nextId
    && (forall m | m in log.stream :: m < log.nextId)
    && (forall m: nat | log.delivered <= m < log.nextId :: m in log.stream)
    && (forall m | m in log.pending :: m < log.delivered && m in log.stream && m !in log.acked)
    && (forall m | m in log.acked :: m < log.delivered)
    && (forall m: nat | m < log.delivered :: m in log.pending || m in log.acked)
  }

  /** What a worker knows about the message in its hand: it acknowledges only what is recorded, and deletes
      only what is acknowledged. */
  ghost predicate WorkerSafe(log: Log, record: Record, worker: Worker) {
    && (forall i | 0 <= i < |worker.batch| :: worker.batch[i] < log.delivered)
    && (!worker.stage.Idle? ==> worker.stage.h.m < log.delivered)
    && (worker.stage.Acking? ==> record.Terminal(worker.stage.h.m))
    && (worker.stage.Acking? && worker.stage.done > 0 ==> worker.stage.h.m in log.acked)
  }

  ghost predicate Safe(c: Config, s: State) {
    && LogSafe(c, s.log)
    && (forall m | m in s.log.acked :: s.record.Terminal(m))
    && (forall w | w in s.workers :: WorkerSafe(s.log, s.record, s.workers[w]))
  }

  /** Deliveries and acknowledgements only grow. */
  ghost predicate LogGrows(log: Log, log': Log) {
    log.delivered <= log'.delivered && log.acked <= log'.acked
  }

  lemma EnqueueLog(c: Config, s: State, a: Action)
    requires c.Valid() && LogSafe(c, s.log) && Enabled(c, s, a) && a.Enqueue?
    ensures LogSafe(c, NextLog(s, a)) && LogGrows(s.log, NextLog(s, a))
  {
    assert NextLog(s, a).stream.Keys == s.log.stream.Keys + {s.log.nextId};
  }

  lemma ReadLog(c: Config, s: State, a: Action)
    requires c.Valid() && LogSafe(c, s.log) && Enabled(c, s, a) && a.ReadNew?
    ensures LogSafe(c, NextLog(s, a)) && LogGrows(s.log, NextLog(s, a))
  {
    var log := s.log;
    var ids := HandedOut(log, a.count);
    assert forall m | m in ids :: log.delivered <= m < log.delivered + a.count;
    forall m: nat | log.delivered <= m < log.delivered + a.count ensures m in ids {
      assert ids[m - log.delivered] == m;
    }
  }

  lemma AckLog(c: Config, s: State, a: Action)
    requires c.Valid() && LogSafe(c, s.log) && Enabled(c, s, a) && a.AckStep?
    requires WorkerSafe(s.log, s.record, s.workers[a.w])
    ensures LogSafe(c, NextLog(s, a)) && LogGrows(s.log, NextLog(s, a))
  {
    SmallerMap(s.log.stream, s.workers[a.w].stage.h.m);
  }

  lemma OtherLog(c: Config, s: State, a: Action)
    requires c.Valid() && LogSafe(c, s.log) && Enabled(c, s, a) && !a.Enqueue? && !a.ReadNew? && !a.AckStep?
    ensures LogSafe(c, NextLog(s, a)) && LogGrows(s.log, NextLog(s, a))
  {
    if a.Claim? { assert forall m | m in a.ids :: m in s.log.pending; }
  }

  lemma LogStep(c: Config, s: State, a: Action)
    requires c.Valid() && LogSafe(c, s.log) && Enabled(c, s, a)
    requires a.AckStep? ==> WorkerSafe(s.log, s.record, s.workers[a.w])
    ensures LogSafe(c, NextLog(s, a)) && LogGrows(s.log, NextLog(s, a))
  {
    hide NextLog, LogSafe, LogGrows, Enabled, WorkerSafe;
    if a.Enqueue? {
      EnqueueLog(c, s, a);
    } else if a.ReadNew? {
      ReadLog(c, s, a);
    } else if a.AckStep? {
      AckLog(c, s, a);
    } else {
      OtherLog(c, s, a);
    }
  }

  /** Terminal records are never lost. */
  lemma {:induction false} RecordGrows(c: Config, s: State, a: Action, m: nat)
    requires c.Valid() && At(s, a) && s.record.Terminal(m)
    ensures NextRecord(c, s, a).Terminal(m)
  {
    if m !in s.record.succeeded {
      var i :| 0 <= i < |s.record.dead| && s.record.dead[i].m == m;
      assert NextRecord(c, s, a).dead[i] == s.record.dead[i];
    }
  }

  lemma {:induction false} OwnWorkerStep(c: Config, s: State, a: Action)
    requires c.Valid() && Enabled(c, s, a) && !a.Tick? && !a.Enqueue? && !a.Crash?
    requires LogSafe(c, s.log) && (a.w in s.workers ==> WorkerSafe(s.log, s.record, s.workers[a.w]))
    ensures WorkerSafe(NextLog(s, a), NextRecord(c, s, a), NextWorker(c, s, a))
  {
    if a.Bury? {
      assert NextRecord(c, s, a).dead[|s.record.dead|].m == s.workers[a.w].stage.h.m;
    } else if a.Claim? {
      assert forall i | 0 <= i < |a.ids| :: a.ids[i] in s.log.pending;
    }
  }

  lemma {:induction false} SafeStep(c: Config, s: State, a: Action)
    requires c.Valid() && Safe(c, s) && Enabled(c, s, a)
    ensures Safe(c, Next(c, s, a))
  {
    hide NextLog, NextRecord, NextWorker, NextHashes, NextLocks, LogSafe;
    var s' := Next(c, s, a);
    LogStep(c, s, a);
    forall m | s.record.Terminal(m) ensures s'.record.Terminal(m) { RecordGrows(c, s, a, m); }
    forall m | m in s'.log.acked ensures s'.record.Terminal(m) { NewlyAcked(c, s, a, m); }
    forall w | w in s'.workers ensures WorkerSafe(s'.log, s'.record, s'.workers[w]) {
      if !a.Tick? && !a.Enqueue? && !a.Crash? && w == a.w {
        OwnWorkerStep(c, s, a);
      } else {
        assert WorkerSafe(s.log, s.record, s.workers[w]);
      }
    }
  }

  lemma NewlyAcked(c: Config, s: State, a: Action, m: nat)
    requires c.Valid() && Safe(c, s) && Enabled(c, s, a) && m in NextLog(s, a).acked
    ensures NextRecord(c, s, a).Terminal(m)
  {
    hide LogSafe;
    if m !in s.log.acked { assert WorkerSafe(s.log, s.record, s.workers[a.w]); }
    RecordGrows(c, s, a, m);
  }

  lemma SmallerMap(m: map<nat, real>, k: nat)
    ensures |m - {k}| <= |m|
  {
    if k in m {
      assert m == (m - {k})[k := m[k]];
    } else {
      assert m - {k} == m;
    }
  }

  lemma {:induction false} SafeRun(c: Config, states: seq<State>, actions: seq<Action>, now: real)
    requires Run(c, states, actions) && states[0] == Initial(now)
    ensures Safe(c, states[|actions|])
    decreases |actions|
  {
    if actions != [] {
      RunPrefix(c, states, actions);
      SafeRun(c, states[..|actions|], actions[..|actions| - 1], now);
      SafeStep(c, states[|actions| - 1], actions[|actions| - 1]);
    }
  }

  /** At the end of every run, every accepted message is undelivered in the stream, pending, or has a
      terminal record, and the stream is within its bound. */
  lemma NothingLost(c: Config, states: seq<State>, actions: seq<Action>, now: real, m: nat)
    requires Run(c, states, actions) && states[0] == Initial(now)
    ensures var s := states[|actions|];
            && |s.log.stream| <= c.maxDepth
            && (m < s.log.nextId ==>
                  || (m in s.log.stream && m >= s.log.delivered)
                  || (m in s.log.stream && m in s.log.pending)
                  || s.record.Terminal(m))
  {
    SafeRun(c, states, actions, now);
  }
}
