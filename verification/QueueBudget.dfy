/** The retry budget and the backoff of the replay worker, in every run in which no lease runs out under a
    live holder: workers and their crashes are otherwise unrestricted. */
module QueueBudget {
  import opened OfflineQueue
  import opened QueueSafety
  import opened TokenLock

  // ---- Lease exclusion ----

  /** No live worker is still handling a message when its own lease ends. */
  ghost predicate NoOverrun(s: State) {
    forall w | w in s.workers && !s.workers[w].stage.Idle? :: s.now < s.workers[w].stage.h.until
  }

  /** Tokens are fresh, and a worker that handles a message owns the message's lease. */
  ghost predicate LocksOk(s: State) {
    && (forall m | m in s.locks.leases :: s.locks.leases[m].token < s.locks.nextToken)
    && (forall w | w in s.workers && !s.workers[w].stage.Idle? :: Owns(s.locks, s.workers[w].stage.h))
    && (forall v, w | v in s.workers && w in s.workers && v != w
                      && !s.workers[v].stage.Idle? && !s.workers[w].stage.Idle? ::
          s.workers[v].stage.h.m != s.workers[w].stage.h.m)
  }

  ghost predicate Owns(locks: Locks<nat>, h: Hold) {
    h.m in locks.leases && locks.leases[h.m] == Lease(h.token, h.until)
  }

  lemma {:induction false} LocksStep(c: Config, s: State, a: Action)
    requires c.Valid() && Enabled(c, s, a) && LocksOk(s) && NoOverrun(s)
    ensures LocksOk(Next(c, s, a))
  {
    hide NextLog, NextRecord, NextHashes;
    var s' := Next(c, s, a);
    forall w | w in s'.workers && !s'.workers[w].stage.Idle? ensures Owns(s'.locks, s'.workers[w].stage.h) {
      OwnsStep(c, s, a, w);
    }
    forall v, w | v in s'.workers && w in s'.workers && v != w
                  && !s'.workers[v].stage.Idle? && !s'.workers[w].stage.Idle?
      ensures s'.workers[v].stage.h.m != s'.workers[w].stage.h.m
    {
      if !a.Tick? && !a.Enqueue? && !a.Crash? && (v == a.w || w == a.w) {
        ApartStep(c, s, a, if v == a.w then w else v);
      }
    }
  }

  lemma {:induction false} OwnsStep(c: Config, s: State, a: Action, w: nat)
    requires c.Valid() && Enabled(c, s, a) && LocksOk(s) && NoOverrun(s)
    requires w in Next(c, s, a).workers && !Next(c, s, a).workers[w].stage.Idle?
    ensures Owns(Next(c, s, a).locks, Next(c, s, a).workers[w].stage.h)
  {
    hide NextLog, NextRecord, NextHashes;
    var s' := Next(c, s, a);
    if a.Tick? || a.Enqueue? || a.Crash? || w != a.w {
      assert Owns(s.locks, s.workers[w].stage.h);
      if a.Acquire? || a.Release? { OtherLeaseKept(c, s, a, w); }
    } else if Handles(a) {
      assert s'.workers[w].stage.h == s.workers[w].stage.h;
    }
  }

  /** Taking or giving back one lease leaves the leases of the other holders alone. */
  lemma {:induction false} OtherLeaseKept(c: Config, s: State, a: Action, w: nat)
    requires c.Valid() && Enabled(c, s, a) && LocksOk(s) && NoOverrun(s)
    requires (a.Acquire? || a.Release?) && w != a.w
    requires w in s.workers && !s.workers[w].stage.Idle?
    ensures Owns(NextLocks(c, s, a), s.workers[w].stage.h)
  {
    var h := s.workers[w].stage.h;
    assert Owns(s.locks, h) && s.locks.Leased(h.m, s.now);
  }

  lemma {:induction false} ApartStep(c: Config, s: State, a: Action, v: nat)
    requires c.Valid() && Enabled(c, s, a) && LocksOk(s) && NoOverrun(s)
    requires !a.Tick? && !a.Enqueue? && !a.Crash? && v != a.w
    requires v in s.workers && !s.workers[v].stage.Idle? && !NextWorker(c, s, a).stage.Idle?
    ensures s.workers[v].stage.h.m != NextWorker(c, s, a).stage.h.m
  {
    var h := s.workers[v].stage.h;
    assert Owns(s.locks, h) && s.locks.Leased(h.m, s.now);
    if Handles(a) {
      assert NextWorker(c, s, a).stage.h == s.workers[a.w].stage.h;
    }
  }

  // ---- What is known about one message ----

  /** The sum of the backoffs chosen for the given sends. */
  function Total(sends: seq<Send>): real {
    if sends == [] then 0.0 else Total(sends[..|sends| - 1]) + sends[|sends| - 1].backoff
  }

  /** Each send comes no earlier than `first` plus the backoffs chosen for the sends before it. */
  ghost predicate WellSpaced(first: real, sends: seq<Send>) {
    forall i | 0 <= i < |sends| :: sends[i].at >= first + Total(sends[..i])
  }

  /** The sends are rising attempts up to `bound`, each with the backoff of its own attempt. */
  ghost predicate Numbered(c: Config, sends: seq<Send>, bound: int)
    requires c.Valid()
  {
    && (forall k | 0 <= k < |sends| ::
          k < sends[k].attempt <= bound && sends[k].backoff == c.Backoff(sends[k].attempt))
    && (forall j, k | 0 <= j < k < |sends| :: sends[j].attempt < sends[k].attempt)
  }

  lemma NumberedSnoc(c: Config, sends: seq<Send>, at: real, n: nat)
    requires c.Valid() && Numbered(c, sends, n - 1) && |sends| < n
    ensures Numbered(c, sends + [Send(at, n, c.Backoff(n))], n)
  {
  }

  lemma NumberedWider(c: Config, sends: seq<Send>, bound: int, wider: int)
    requires c.Valid() && Numbered(c, sends, bound) && bound <= wider
    ensures Numbered(c, sends, wider)
  {
  }

  /** Everything the state holds about one message before its ack starts. */
  datatype View = View(now: real, acked: bool, attempts: nat, sends: seq<Send>, retried: nat,
                       hasDue: bool, due: real, hasFirst: bool, first: real)
  {
    function Earliest(): real { first + Total(sends) }
  }

  function ViewOf(s: State, m: nat): View {
    View(s.now, m in s.log.acked, s.hashes.Attempts(m), s.record.Sends(m), s.record.Retried(m),
         m in s.hashes.due, if m in s.hashes.due then s.hashes.due[m] else 0.0,
         m in s.record.first, if m in s.record.first then s.record.first[m] else 0.0)
  }

  /** Before the ack starts: sends and rescheduled handlings are covered by persisted attempts, attempts are
      within the budget, sends are spaced by the chosen backoffs, and the due time bars the next one, but not for
      longer than the backoff of the attempts made. */
  ghost predicate Budgeted(c: Config, v: View)
    requires c.Valid()
  {
    !v.acked ==>
      && |v.sends| <= v.attempts <= c.MaxAttempts()
      && v.retried <= v.attempts && v.retried <= c.maxRetries
      && Numbered(c, v.sends, v.attempts)
      && (v.hasFirst ==> v.first <= v.now)
      && (v.hasDue ==> v.due <= v.now + c.Backoff(v.attempts))
      && (v.sends != [] ==> v.hasFirst && v.hasDue && v.due >= v.Earliest() && WellSpaced(v.first, v.sends))
  }

  /** The due time was seen to have passed. */
  ghost predicate Admitted(v: View) {
    !v.acked && v.hasFirst ==> v.now >= v.Earliest()
  }

  ghost predicate Passed(v: View) {
    !v.acked && v.hasDue ==> v.due <= v.now
  }

  /** What the holder's stage adds: an attempt that is persisted but not yet spent. */
  ghost predicate StageOk(c: Config, v: View, stage: Stage)
    requires c.Valid()
  {
    match stage
    case Counting(_) => Admitted(v) && Passed(v)
    case Persisting(_, n) => n == v.attempts + 1 && n <= c.MaxAttempts() && Admitted(v) && Passed(v)
    case Scheduling(_, n) =>
      && n == v.attempts && n <= c.MaxAttempts() && Admitted(v)
      && (!v.acked ==> |v.sends| < n && Numbered(c, v.sends, n - 1) && v.retried < n && v.hasFirst)
    case Sending(_, n) =>
      && n == v.attempts && n <= c.MaxAttempts() && Admitted(v)
      && (!v.acked ==>
            && |v.sends| < n && Numbered(c, v.sends, n - 1) && v.retried < n
            && v.hasFirst && v.hasDue && v.due >= v.Earliest() + c.Backoff(n))
    case Awaiting(_, n) => n == v.attempts && n <= c.MaxAttempts() && (!v.acked ==> v.retried < n)
    case Burying(_, retries) => retries == v.attempts
    case _ => true
  }

  /** Rows written before the ack: the recorded retries cover the sends and are within the budget. */
  ghost predicate RowsOk(c: Config, rows: seq<Row>) {
    forall i | 0 <= i < |rows| && !rows[i].acked :: rows[i].sends <= rows[i].retries <= c.MaxAttempts()
  }

  ghost predicate Inv(c: Config, s: State)
    requires c.Valid()
  {
    && Safe(c, s) && LocksOk(s)
    && (forall m: nat :: Budgeted(c, ViewOf(s, m)))
    && (forall w | w in s.workers && !s.workers[w].stage.Idle? ::
          StageOk(c, ViewOf(s, s.workers[w].stage.h.m), s.workers[w].stage))
    && RowsOk(c, s.record.dead)
  }

  // ---- One step ----

  /** The message an action of a holder is about. */
  predicate Concerns(s: State, a: Action, m: nat)
    requires At(s, a)
  {
    Handles(a) && s.workers[a.w].stage.h.m == m
  }

  /** Other messages keep everything but the time. */
  lemma {:induction false} ViewKept(c: Config, s: State, a: Action, m: nat)
    requires c.Valid() && Enabled(c, s, a) && !Concerns(s, a, m)
    ensures ViewOf(Next(c, s, a), m) == ViewOf(s, m).(now := Next(c, s, a).now)
    ensures ViewOf(s, m).now == s.now <= Next(c, s, a).now
  {
    LogKept(s, a, m);
    HashesKept(c, s, a, m);
    RecordKept(c, s, a, m);
    hide NextLog, NextHashes, NextRecord, NextLocks, NextWorker;
  }

  lemma LogKept(s: State, a: Action, m: nat)
    requires At(s, a) && !Concerns(s, a, m)
    ensures m in NextLog(s, a).acked <==> m in s.log.acked
  {
  }

  lemma HashesKept(c: Config, s: State, a: Action, m: nat)
    requires c.Valid() && At(s, a) && !Concerns(s, a, m)
    ensures var h := NextHashes(c, s, a);
            && h.Attempts(m) == s.hashes.Attempts(m)
            && (m in h.due <==> m in s.hashes.due) && (m in h.due ==> h.due[m] == s.hashes.due[m])
  {
  }

  lemma RecordKept(c: Config, s: State, a: Action, m: nat)
    requires c.Valid() && At(s, a) && !Concerns(s, a, m)
    ensures var r := NextRecord(c, s, a);
            && r.Sends(m) == s.record.Sends(m) && r.Retried(m) == s.record.Retried(m)
            && (m in r.first <==> m in s.record.first) && (m in r.first ==> r.first[m] == s.record.first[m])
  {
  }

  lemma BudgetedLater(c: Config, v: View, now: real, stage: Stage)
    requires c.Valid() && v.now <= now
    requires Budgeted(c, v)
    ensures Budgeted(c, v.(now := now))
    ensures StageOk(c, v, stage) ==> StageOk(c, v.(now := now), stage)
  {
    hide Numbered, WellSpaced;
    var v' := v.(now := now);
    assert v'.Earliest() == v.Earliest();
  }

  lemma TotalSnoc(sends: seq<Send>, send: Send)
    ensures Total(sends + [send]) == Total(sends) + send.backoff
  {
    assert (sends + [send])[..|sends|] == sends;
  }

  lemma WellSpacedSnoc(first: real, sends: seq<Send>, send: Send)
    requires WellSpaced(first, sends) && send.at >= first + Total(sends)
    ensures WellSpaced(first, sends + [send])
  {
    var longer := sends + [send];
    forall i | 0 <= i < |longer| ensures longer[i].at >= first + Total(longer[..i]) {
      if i < |sends| {
        assert longer[..i] == sends[..i];
      } else {
        assert longer[..i] == sends;
      }
    }
  }

  /** What a holder's action does to the view of its message. */
  function NextView(c: Config, v: View, stage: Stage, a: Action): View
    requires c.Valid() && Handles(a) && AtStage(stage, a)
  {
    match a
    case PersistAttempts(_) =>
      v.(attempts := stage.n, hasFirst := true, first := if v.hasFirst then v.first else v.now)
    case PersistDue(_) => v.(hasDue := true, due := v.now + c.Backoff(stage.n))
    case Request(_, sendable) =>
      if sendable then v.(sends := v.sends + [Send(v.now, stage.n, c.Backoff(stage.n))]) else v
    case Receive(_, reply) => if Settle(c, stage.h, stage.n, reply).Releasing? then v.(retried := v.retried + 1) else v
    case AckStep(_) =>
      if stage.done == 0 then v.(acked := true)
      else if stage.done == 1 then v
      else if stage.done == 2 then v.(attempts := 0)
      else v.(hasDue := false, due := 0.0)
    case _ => v
  }

  predicate AtStage(stage: Stage, a: Action) {
    match a
    case PersistAttempts(_) => stage.Persisting?
    case PersistDue(_) => stage.Scheduling?
    case Request(_, _) => stage.Sending?
    case Receive(_, _) => stage.Awaiting?
    case AckStep(_) => stage.Acking?
    case _ => true
  }

  lemma {:induction false} AckLogView(c: Config, s: State, a: Action)
    requires c.Valid() && Enabled(c, s, a) && Handles(a) && a.AckStep? && s.workers[a.w].stage.done < 2
    ensures var stage := s.workers[a.w].stage;
            ViewOf(Next(c, s, a), stage.h.m) == NextView(c, ViewOf(s, stage.h.m), stage, a)
  {
    hide NextLocks, NextWorker;
  }

  lemma {:induction false} AckHashesView(c: Config, s: State, a: Action)
    requires c.Valid() && Enabled(c, s, a) && Handles(a) && a.AckStep? && s.workers[a.w].stage.done >= 2
    ensures var stage := s.workers[a.w].stage;
            ViewOf(Next(c, s, a), stage.h.m) == NextView(c, ViewOf(s, stage.h.m), stage, a)
  {
    hide NextLocks, NextWorker;
  }

  lemma {:induction false} PersistingView(c: Config, s: State, a: Action)
    requires c.Valid() && Enabled(c, s, a) && Handles(a) && (a.PersistAttempts? || a.PersistDue?)
    ensures var stage := s.workers[a.w].stage;
            ViewOf(Next(c, s, a), stage.h.m) == NextView(c, ViewOf(s, stage.h.m), stage, a)
  {
    hide NextLocks, NextWorker;
  }

  lemma {:induction false} RequestingView(c: Config, s: State, a: Action)
    requires c.Valid() && Enabled(c, s, a) && Handles(a) && a.Request?
    ensures var stage := s.workers[a.w].stage;
            ViewOf(Next(c, s, a), stage.h.m) == NextView(c, ViewOf(s, stage.h.m), stage, a)
  {
    hide NextLocks, NextWorker;
  }

  lemma {:induction false} ReceivingView(c: Config, s: State, a: Action)
    requires c.Valid() && Enabled(c, s, a) && Handles(a) && a.Receive?
    ensures var stage := s.workers[a.w].stage;
            ViewOf(Next(c, s, a), stage.h.m) == NextView(c, ViewOf(s, stage.h.m), stage, a)
  {
    hide NextLocks, NextWorker;
  }

  lemma {:induction false} UnchangedView(c: Config, s: State, a: Action)
    requires c.Valid() && Enabled(c, s, a) && Handles(a)
    requires !a.AckStep? && !a.PersistAttempts? && !a.PersistDue? && !a.Request? && !a.Receive?
    ensures var stage := s.workers[a.w].stage;
            ViewOf(Next(c, s, a), stage.h.m) == NextView(c, ViewOf(s, stage.h.m), stage, a)
  {
    hide NextLocks, NextWorker;
  }

  lemma ViewFollows(c: Config, s: State, a: Action)
    requires c.Valid() && Enabled(c, s, a) && Handles(a)
    ensures var stage := s.workers[a.w].stage;
            ViewOf(Next(c, s, a), stage.h.m) == NextView(c, ViewOf(s, stage.h.m), stage, a)
  {
    hide NextLog, NextHashes, NextLocks, NextRecord, NextWorker, NextView, ViewOf;
    if a.AckStep? {
      if s.workers[a.w].stage.done < 2 { AckLogView(c, s, a); } else { AckHashesView(c, s, a); }
    } else if a.PersistAttempts? || a.PersistDue? {
      PersistingView(c, s, a);
    } else if a.Request? {
      RequestingView(c, s, a);
    } else if a.Receive? {
      ReceivingView(c, s, a);
    } else {
      UnchangedView(c, s, a);
    }
  }

  /** A holder's action keeps the budget of its message and establishes what its next stage claims. */
  lemma {:induction false} HolderStep(c: Config, s: State, a: Action)
    requires c.Valid() && Enabled(c, s, a) && Handles(a)
    requires WorkerSafe(s.log, s.record, s.workers[a.w])
    requires var stage := s.workers[a.w].stage;
             Budgeted(c, ViewOf(s, stage.h.m)) && StageOk(c, ViewOf(s, stage.h.m), stage)
    ensures var v' := ViewOf(Next(c, s, a), s.workers[a.w].stage.h.m);
            Budgeted(c, v') && StageOk(c, v', NextStage(c, s, a))
  {
    var stage := s.workers[a.w].stage;
    var v := ViewOf(s, stage.h.m);
    ViewFollows(c, s, a);
    if a.ReadDue? {
      DueGate(c, s, a);
    } else if a.PersistAttempts? {
      PersistView(c, v, stage, a);
    } else if a.Request? {
      RequestView(c, v, stage, a);
    } else if a.PersistDue? {
      ScheduleView(c, v, stage, a);
    } else {
      OtherView(c, s, a);
    }
  }

  lemma {:induction false} DueGate(c: Config, s: State, a: Action)
    requires c.Valid() && Enabled(c, s, a) && a.ReadDue?
    requires Budgeted(c, ViewOf(s, s.workers[a.w].stage.h.m))
    ensures StageOk(c, ViewOf(s, s.workers[a.w].stage.h.m), NextStage(c, s, a))
  {
    assert Total([]) == 0.0;
  }

  lemma {:induction false} PersistView(c: Config, v: View, stage: Stage, a: Action)
    requires c.Valid() && a.PersistAttempts? && AtStage(stage, a)
    requires Budgeted(c, v) && StageOk(c, v, stage)
    ensures Budgeted(c, NextView(c, v, stage, a)) && StageOk(c, NextView(c, v, stage, a), Scheduling(stage.h, stage.n))
  {
    hide Numbered, WellSpaced;
    var v' := NextView(c, v, stage, a);
    if !v.acked { NumberedWider(c, v.sends, v.attempts, stage.n); }
    if v.hasFirst {
      assert v'.Earliest() == v.Earliest();
    } else {
      assert !v.acked ==> v.sends == [];
      assert !v.acked ==> v'.Earliest() == v.now;
    }
  }

  lemma {:induction false} RequestView(c: Config, v: View, stage: Stage, a: Action)
    requires c.Valid() && a.Request? && AtStage(stage, a)
    requires Budgeted(c, v) && StageOk(c, v, stage)
    ensures Budgeted(c, NextView(c, v, stage, a))
    ensures StageOk(c, NextView(c, v, stage, a), if a.sendable then Awaiting(stage.h, stage.n) else Salvaging(stage.h))
  {
    hide Numbered, WellSpaced, Total;
    if a.sendable && !v.acked {
      var send := Send(v.now, stage.n, c.Backoff(stage.n));
      NumberedSnoc(c, v.sends, v.now, stage.n);
      TotalSnoc(v.sends, send);
      WellSpacedSnoc(v.first, v.sends, send);
    }
  }

  lemma {:induction false} ScheduleView(c: Config, v: View, stage: Stage, a: Action)
    requires c.Valid() && a.PersistDue? && AtStage(stage, a)
    requires Budgeted(c, v) && StageOk(c, v, stage)
    ensures Budgeted(c, NextView(c, v, stage, a)) && StageOk(c, NextView(c, v, stage, a), Sending(stage.h, stage.n))
  {
    hide Numbered, WellSpaced;
    assert NextView(c, v, stage, a).Earliest() == v.Earliest();
  }

  lemma {:induction false} OtherView(c: Config, s: State, a: Action)
    requires c.Valid() && Enabled(c, s, a) && Handles(a)
    requires !a.ReadDue? && !a.PersistAttempts? && !a.PersistDue? && !a.Request?
    requires WorkerSafe(s.log, s.record, s.workers[a.w])
    requires var stage := s.workers[a.w].stage;
             Budgeted(c, ViewOf(s, stage.h.m)) && StageOk(c, ViewOf(s, stage.h.m), stage)
    ensures var stage := s.workers[a.w].stage;
            var v' := NextView(c, ViewOf(s, stage.h.m), stage, a);
            Budgeted(c, v') && StageOk(c, v', NextStage(c, s, a))
  {
    var stage := s.workers[a.w].stage;
    var v := ViewOf(s, stage.h.m);
    assert v.attempts == s.hashes.Attempts(stage.h.m);
    assert stage.Acking? && stage.done > 0 ==> v.acked;
    hide ViewOf, WorkerSafe, Total, Numbered, WellSpaced;
    assert NextView(c, v, stage, a).Earliest() == v.Earliest();
  }

  lemma {:induction false} RowsStep(c: Config, s: State, a: Action)
    requires c.Valid() && Enabled(c, s, a) && RowsOk(c, s.record.dead)
    requires a.Bury? ==>
               var stage := s.workers[a.w].stage;
               Budgeted(c, ViewOf(s, stage.h.m)) && StageOk(c, ViewOf(s, stage.h.m), stage)
    ensures RowsOk(c, NextRecord(c, s, a).dead)
  {
  }

  lemma {:induction false} InvStep(c: Config, s: State, a: Action)
    requires c.Valid() && Enabled(c, s, a) && Inv(c, s) && NoOverrun(s)
    ensures Inv(c, Next(c, s, a))
  {
    hide Safe, LocksOk, NextLog, NextHashes, NextLocks, NextRecord, Budgeted, StageOk, RowsOk, ViewOf, WorkerSafe;
    var s' := Next(c, s, a);
    SafeStep(c, s, a);
    LocksStep(c, s, a);
    RowsStep(c, s, a);
    forall m: nat ensures Budgeted(c, ViewOf(s', m)) {
      MessageStep(c, s, a, m);
    }
    forall w | w in s'.workers && !s'.workers[w].stage.Idle?
      ensures StageOk(c, ViewOf(s', s'.workers[w].stage.h.m), s'.workers[w].stage)
    {
      WorkerStep(c, s, a, w);
    }
  }

  lemma MessageStep(c: Config, s: State, a: Action, m: nat)
    requires c.Valid() && Enabled(c, s, a) && Inv(c, s)
    ensures Budgeted(c, ViewOf(Next(c, s, a), m))
  {
    hide LocksOk, NextLog, NextHashes, NextLocks, NextRecord, Budgeted, StageOk, RowsOk, ViewOf, NextWorker;
    if Concerns(s, a, m) {
      assert WorkerSafe(s.log, s.record, s.workers[a.w]);
      HolderStep(c, s, a);
    } else {
      ViewKept(c, s, a, m);
      BudgetedLater(c, ViewOf(s, m), Next(c, s, a).now, Idle);
    }
  }

  lemma NothingClaimed(c: Config, v: View, stage: Stage)
    requires c.Valid() && stage.CheckingDue?
    ensures StageOk(c, v, stage)
  {
  }

  lemma OwnStage(c: Config, s: State, a: Action)
    requires c.Valid() && Enabled(c, s, a) && Inv(c, s) && !a.Tick? && !a.Enqueue? && !a.Crash?
    requires !NextWorker(c, s, a).stage.Idle?
    ensures StageOk(c, ViewOf(Next(c, s, a), NextWorker(c, s, a).stage.h.m), NextWorker(c, s, a).stage)
  {
    hide Next, NextLog, NextHashes, NextLocks, NextRecord, NextStage;
    hide Budgeted, RowsOk, ViewOf, StageOk, LocksOk, LogSafe;
    if Handles(a) {
      assert WorkerSafe(s.log, s.record, s.workers[a.w]);
      HolderStep(c, s, a);
      StageKeepsHold(c, s, a);
    } else {
      NothingClaimed(c, ViewOf(Next(c, s, a), NextWorker(c, s, a).stage.h.m), NextWorker(c, s, a).stage);
    }
  }

  lemma NotConcerned(s: State, a: Action, w: nat)
    requires At(s, a) && LocksOk(s) && (a.Tick? || a.Enqueue? || a.Crash? || w != a.w)
    requires w in s.workers && !s.workers[w].stage.Idle?
    ensures !Concerns(s, a, s.workers[w].stage.h.m)
  {
  }

  lemma OtherStage(c: Config, s: State, a: Action, w: nat)
    requires c.Valid() && Enabled(c, s, a) && Inv(c, s) && (a.Tick? || a.Enqueue? || a.Crash? || w != a.w)
    requires w in s.workers && !s.workers[w].stage.Idle?
    ensures StageOk(c, ViewOf(Next(c, s, a), s.workers[w].stage.h.m), s.workers[w].stage)
  {
    var m := s.workers[w].stage.h.m;
    hide Next, NextLog, NextHashes, NextLocks, NextRecord, Budgeted, RowsOk, ViewOf, StageOk, LocksOk, Safe, Concerns;
    NotConcerned(s, a, w);
    ViewKept(c, s, a, m);
    BudgetedLater(c, ViewOf(s, m), Next(c, s, a).now, s.workers[w].stage);
  }

  lemma WorkerStep(c: Config, s: State, a: Action, w: nat)
    requires c.Valid() && Enabled(c, s, a) && Inv(c, s) && NoOverrun(s)
    requires w in Next(c, s, a).workers && !Next(c, s, a).workers[w].stage.Idle?
    ensures var s' := Next(c, s, a); StageOk(c, ViewOf(s', s'.workers[w].stage.h.m), s'.workers[w].stage)
  {
    hide NextLog, NextHashes, NextLocks, NextRecord, NextWorker, ViewOf, StageOk, Inv;
    if !a.Tick? && !a.Enqueue? && !a.Crash? && w == a.w {
      OwnStage(c, s, a);
    } else {
      OtherStage(c, s, a, w);
    }
  }

  lemma StageKeepsHold(c: Config, s: State, a: Action)
    requires At(s, a) && Handles(a)
    ensures NextStage(c, s, a).h == s.workers[a.w].stage.h
  {
  }

  // ---- Every run ----

  lemma {:induction false} InvRun(c: Config, states: seq<State>, actions: seq<Action>, now: real)
    requires Run(c, states, actions) && states[0] == Initial(now)
    requires forall i | 0 <= i < |states| :: NoOverrun(states[i])
    ensures Inv(c, states[|actions|])
    decreases |actions|
  {
    if actions == [] {
      SafeRun(c, states, actions, now);
    } else {
      RunPrefix(c, states, actions);
      var n := |actions| - 1;
      var earlier := states[..|actions|];
      assert forall i | 0 <= i < |earlier| :: earlier[i] == states[i];
      InvRun(c, earlier, actions[..n], now);
      InvStep(c, states[n], actions[n]);
    }
  }

  /** At the end of every run without an overrun, for every message whose ack has not started: the upstream
      sends never exceed the persisted attempts, which never exceed `max_retries + 1`, whatever crashed; at
      most `max_retries` handlings ended without an ack or an error, so the next one is the last; and the
      n-th send came no earlier than the first persisted attempt plus the backoffs of the attempts that the
      sends before it were, while the message is never put off for longer than the backoff of the attempts made. */
  lemma RetryBudget(c: Config, states: seq<State>, actions: seq<Action>, now: real, m: nat)
    requires Run(c, states, actions) && states[0] == Initial(now)
    requires forall i | 0 <= i < |states| :: NoOverrun(states[i])
    ensures var s := states[|actions|];
            m !in s.log.acked ==>
              && |s.record.Sends(m)| <= s.hashes.Attempts(m) <= c.maxRetries + 1
              && Numbered(c, s.record.Sends(m), s.hashes.Attempts(m))
              && s.record.Retried(m) <= s.hashes.Attempts(m) && s.record.Retried(m) <= c.maxRetries
              && (s.record.Sends(m) != [] ==> m in s.record.first && WellSpaced(s.record.first[m], s.record.Sends(m)))
              && (m in s.hashes.due ==> s.hashes.due[m] <= s.now + c.Backoff(s.hashes.Attempts(m)))
  {
    InvRun(c, states, actions, now);
    assert Budgeted(c, ViewOf(states[|actions|], m));
  }

  /** Every dead-letter row written before its message's ack started records at least as many retries as there
      had been sends, and no more than the budget. */
  lemma DeadLettersAccurate(c: Config, states: seq<State>, actions: seq<Action>, now: real, i: nat)
    requires Run(c, states, actions) && states[0] == Initial(now)
    requires forall j | 0 <= j < |states| :: NoOverrun(states[j])
    requires i < |states[|actions|].record.dead|
    ensures var row := states[|actions|].record.dead[i];
            !row.acked ==> row.sends <= row.retries <= c.maxRetries + 1
  {
    InvRun(c, states, actions, now);
  }

  /** Two workers never handle the same message at once. */
  lemma LeaseExclusion(c: Config, states: seq<State>, actions: seq<Action>, now: real, v: nat, w: nat)
    requires Run(c, states, actions) && states[0] == Initial(now)
    requires forall i | 0 <= i < |states| :: NoOverrun(states[i])
    ensures var s := states[|actions|];
            && v in s.workers && w in s.workers && v != w
            && !s.workers[v].stage.Idle? && !s.workers[w].stage.Idle?
            ==> s.workers[v].stage.h.m != s.workers[w].stage.h.m
  {
    InvRun(c, states, actions, now);
  }
}
