/** The replay queue with settings under which a claim only ever reaches expired entries: then no message is
    sent twice, however many leases run out under live holders. */
module QueueExpiry {
  import opened OfflineQueue
  import opened QueueSafety
  import opened QueueBudget

  predicate Expired(c: Config, s: State, m: nat) {
    m !in s.record.created || s.now - s.record.created[m] > c.maxAge
  }

  /** Found eligible and not yet sent. */
  predicate Committed(stage: Stage) { stage.Persisting? || stage.Scheduling? || stage.Sending? }

  /** The copy of a message at index `i` of a worker's batch may still be sent. */
  predicate Live(c: Config, s: State, w: nat, i: nat)
    requires w in s.workers && i < |s.workers[w].batch|
  {
    !Expired(c, s, s.workers[w].batch[i]) || (i == 0 && Committed(s.workers[w].stage))
  }

  ghost predicate Untried(v: View) { v.sends == [] && v.attempts == 0 }

  /** What is known of a message with a live copy at index `i` of a batch whose first entry is at `stage`. */
  ghost predicate CopyOk(v: View, stage: Stage, i: nat) {
    if i > 0 || stage.Idle? || stage.CheckingDue? || stage.Counting? then Untried(v)
    else if stage.Persisting? then Untried(v) && stage.n == 1
    else if stage.Scheduling? || stage.Sending? then stage.n == 1 && v.sends == [] && (!v.acked ==> v.attempts == 1)
    else true
  }

  ghost predicate OneSend(v: View) {
    |v.sends| <= 1 && (!v.acked ==> |v.sends| <= v.attempts <= 1)
  }

  // ---- The invariant ----

  /** Entries are delivered after they are created. */
  ghost predicate TimesOk(s: State) {
    && (forall m: nat | m < s.log.nextId :: CreatedBy(s.record, m, s.now))
    && (forall m | m in s.log.pending :: CreatedBy(s.record, m, s.log.pending[m]))
  }

  ghost predicate CreatedBy(record: Record, m: nat, t: real) {
    m in record.created && record.created[m] <= t
  }

  ghost predicate HandsOk(s: State) {
    forall w | w in s.workers && !s.workers[w].stage.Idle? ::
      s.workers[w].batch != [] && s.workers[w].batch[0] == s.workers[w].stage.h.m
  }

  ghost predicate CopiesOk(c: Config, s: State) {
    forall w, i: nat | w in s.workers && i < |s.workers[w].batch| && Live(c, s, w, i) ::
      CopyOk(ViewOf(s, s.workers[w].batch[i]), s.workers[w].stage, i)
  }

  /** A message has at most one live copy. */
  ghost predicate Unique(c: Config, s: State) {
    forall v, w, i: nat, j: nat | v in s.workers && w in s.workers
                                  && i < |s.workers[v].batch| && j < |s.workers[w].batch|
                                  && Live(c, s, v, i) && Live(c, s, w, j) ::
      s.workers[v].batch[i] == s.workers[w].batch[j] ==> v == w && i == j
  }

  ghost predicate Inv(c: Config, s: State) {
    && Safe(c, s) && TimesOk(s) && HandsOk(s) && CopiesOk(c, s) && Unique(c, s)
    && (forall m: nat :: OneSend(ViewOf(s, m)))
    && (forall m: nat | m >= s.log.delivered :: Untried(ViewOf(s, m)))
  }

  // ---- One step ----

  lemma CreatedKept(c: Config, s: State, a: Action, m: nat, t: real)
    requires c.Valid() && Enabled(c, s, a) && CreatedBy(s.record, m, t) && m < s.log.nextId
    ensures CreatedBy(Next(c, s, a).record, m, t)
  {
    hide NextHashes, NextLocks, NextWorker, NextLog;
  }

  lemma {:induction false} TimesStep(c: Config, s: State, a: Action)
    requires c.Valid() && Enabled(c, s, a) && Safe(c, s) && TimesOk(s)
    ensures TimesOk(Next(c, s, a))
  {
    hide NextHashes, NextLocks, NextWorker;
    var s' := Next(c, s, a);
    forall m: nat | m < s'.log.nextId ensures CreatedBy(s'.record, m, s'.now) {
      if m < s.log.nextId { CreatedKept(c, s, a, m, s.now); }
    }
    hide NextRecord;
    forall m | m in s'.log.pending ensures CreatedBy(s'.record, m, s'.log.pending[m]) {
      PendingTime(c, s, a, m);
      CreatedKept(c, s, a, m, s'.log.pending[m]);
    }
  }

  lemma {:induction false} PendingTime(c: Config, s: State, a: Action, m: nat)
    requires c.Valid() && Enabled(c, s, a) && LogSafe(c, s.log) && TimesOk(s) && m in NextLog(s, a).pending
    ensures m < s.log.nextId && CreatedBy(s.record, m, NextLog(s, a).pending[m])
  {
    WherePending(c, s, a, m);
    hide NextLog, Enabled, CreatedBy;
    assert m < s.log.nextId;
  }

  /** A pending entry was pending since the same time, or has just been handed out. */
  lemma {:induction false} WherePending(c: Config, s: State, a: Action, m: nat)
    requires Enabled(c, s, a) && m in NextLog(s, a).pending
    ensures || (m in s.log.pending && NextLog(s, a).pending[m] == s.log.pending[m])
            || (NextLog(s, a).pending[m] == s.now && (m in s.log.pending || s.log.delivered <= m < s.log.nextId))
  {
    if a.Claim? {
      assert m in a.ids ==> m in s.log.pending;
    } else if a.ReadNew? {
      assert m in HandedOut(s.log, a.count) ==> s.log.delivered <= m < s.log.delivered + a.count;
    }
  }

  lemma {:induction false} HandsStep(c: Config, s: State, a: Action)
    requires c.Valid() && Enabled(c, s, a) && HandsOk(s)
    ensures HandsOk(Next(c, s, a))
  {
    hide NextHashes, NextLocks, NextLog, NextRecord;
  }

  /** Time only makes delivered entries expire. */
  lemma StaysExpired(c: Config, s: State, a: Action, m: nat)
    requires c.Valid() && Enabled(c, s, a) && Safe(c, s) && m < s.log.delivered && Expired(c, s, m)
    ensures Expired(c, Next(c, s, a), m)
  {
    hide NextHashes, NextLocks, NextLog, NextWorker;
  }

  /** Where a copy was before an action of its worker: one place further back when the entry in hand was dropped. */
  function Before(c: Config, s: State, a: Action, w: nat, i: nat): nat
    requires c.Valid() && Enabled(c, s, a)
  {
    if (a.Acquire? || a.Release?) && a.w == w && NextWorker(c, s, a).stage.Idle? then i + 1 else i
  }

  /** A reclaimed entry is older than a lease, hence older than the maximum age. */
  lemma {:induction false} ClaimedExpired(c: Config, s: State, a: Action, i: nat)
    requires c.Valid() && c.claimIdle > c.maxAge && Enabled(c, s, a) && TimesOk(s)
    requires a.Claim? && i < |Next(c, s, a).workers[a.w].batch|
    ensures !Live(c, Next(c, s, a), a.w, i)
  {
    hide NextHashes, NextLocks, NextLog;
    assert a.ids[i] in s.log.pending;
  }

  lemma {:induction false} SameCopy(c: Config, s: State, a: Action, w: nat, i: nat)
    requires c.Valid() && Enabled(c, s, a) && HandsOk(s)
    requires w in Next(c, s, a).workers && i < |Next(c, s, a).workers[w].batch|
    requires !((a.ReadNew? || a.Claim?) && a.w == w)
    ensures var i0, worker' := Before(c, s, a, w, i), Next(c, s, a).workers[w];
            && w in s.workers && i0 < |s.workers[w].batch| && s.workers[w].batch[i0] == worker'.batch[i]
            && (Committed(worker'.stage) && i == 0 ==>
                  i0 == 0 && (Committed(s.workers[w].stage) || !Expired(c, s, worker'.batch[i])))
  {
    hide NextHashes, NextLocks, NextLog, NextRecord;
  }

  /** Every live copy after an action was live before it, unless it has just been delivered. */
  lemma {:induction false} LiveBefore(c: Config, s: State, a: Action, w: nat, i: nat)
    requires c.Valid() && c.claimIdle > c.maxAge && Enabled(c, s, a) && Safe(c, s) && TimesOk(s) && HandsOk(s)
    requires var s' := Next(c, s, a); w in s'.workers && i < |s'.workers[w].batch| && Live(c, s', w, i)
    requires !(a.ReadNew? && a.w == w)
    ensures var i0 := Before(c, s, a, w, i);
            && w in s.workers && i0 < |s.workers[w].batch| && Live(c, s, w, i0)
            && s.workers[w].batch[i0] == Next(c, s, a).workers[w].batch[i]
  {
    hide NextHashes, NextLocks, NextLog, NextRecord, NextWorker, TimesOk, HandsOk, Enabled, Expired;
    if a.Claim? && a.w == w {
      ClaimedExpired(c, s, a, i);
    } else {
      SameCopy(c, s, a, w, i);
      var m := s.workers[w].batch[Before(c, s, a, w, i)];
      assert WorkerSafe(s.log, s.record, s.workers[w]);
      if Expired(c, s, m) { StaysExpired(c, s, a, m); }
    }
  }

  /** A freshly delivered entry. */
  lemma {:induction false} JustDelivered(c: Config, s: State, a: Action, i: nat)
    requires c.Valid() && Enabled(c, s, a) && a.ReadNew? && i < |Next(c, s, a).workers[a.w].batch|
    ensures Next(c, s, a).workers[a.w].stage.Idle?
    ensures Next(c, s, a).workers[a.w].batch[i] == s.log.delivered + i
  {
    hide NextHashes, NextLocks, NextLog, NextRecord;
  }

  lemma {:induction false} UniqueStep(c: Config, s: State, a: Action)
    requires c.Valid() && c.claimIdle > c.maxAge && Enabled(c, s, a) && Inv(c, s)
    ensures Unique(c, Next(c, s, a))
  {
    hide NextHashes, NextLocks, NextLog, NextRecord, NextWorker, Enabled;
    hide TimesOk, HandsOk, Live, CopiesOk, OneSend, Untried;
    var s' := Next(c, s, a);
    forall v, w, i: nat, j: nat | v in s'.workers && w in s'.workers
                                  && i < |s'.workers[v].batch| && j < |s'.workers[w].batch|
                                  && Live(c, s', v, i) && Live(c, s', w, j)
                                  && s'.workers[v].batch[i] == s'.workers[w].batch[j]
      ensures v == w && i == j
    {
      PlaceBefore(c, s, a, v, i);
      PlaceBefore(c, s, a, w, j);
      hide Next, Safe;
    }
  }

  /** A live copy is a just delivered entry or was live before, and the two are told apart by the identifier. */
  lemma {:induction false} PlaceBefore(c: Config, s: State, a: Action, w: nat, i: nat)
    requires c.Valid() && c.claimIdle > c.maxAge && Enabled(c, s, a) && Inv(c, s)
    requires var s' := Next(c, s, a); w in s'.workers && i < |s'.workers[w].batch| && Live(c, s', w, i)
    ensures var i0, m := Before(c, s, a, w, i), Next(c, s, a).workers[w].batch[i];
            if a.ReadNew? && a.w == w then m == s.log.delivered + i
            else
              && w in s.workers && i0 < |s.workers[w].batch| && Live(c, s, w, i0) && s.workers[w].batch[i0] == m
              && m < s.log.delivered
  {
    hide NextHashes, NextLocks, NextLog, NextRecord, NextWorker, Enabled;
    hide TimesOk, HandsOk, Live, CopiesOk, OneSend, Untried;
    if a.ReadNew? && a.w == w {
      JustDelivered(c, s, a, i);
    } else {
      LiveBefore(c, s, a, w, i);
      assert WorkerSafe(s.log, s.record, s.workers[w]);
    }
  }

  lemma {:induction false} HandledCopy(c: Config, s: State, a: Action)
    requires c.Valid() && Enabled(c, s, a) && Handles(a)
    requires var stage := s.workers[a.w].stage; CopyOk(ViewOf(s, stage.h.m), stage, 0)
    ensures CopyOk(ViewOf(Next(c, s, a), s.workers[a.w].stage.h.m), NextStage(c, s, a), 0)
  {
    var stage := s.workers[a.w].stage;
    ViewFollows(c, s, a);
    assert ViewOf(s, stage.h.m).attempts == s.hashes.Attempts(stage.h.m);
    hide Next, ViewOf;
  }

  /** What an action of the holder does to the message in hand. */
  lemma {:induction false} HolderCopy(c: Config, s: State, a: Action)
    requires c.Valid() && Enabled(c, s, a) && Handles(a) && WorkerSafe(s.log, s.record, s.workers[a.w])
    requires var stage := s.workers[a.w].stage;
             var v := ViewOf(s, stage.h.m);
             && OneSend(v)
             && (Committed(stage) ==> CopyOk(v, stage, 0))
    ensures var stage := s.workers[a.w].stage;
            var v, v' := ViewOf(s, stage.h.m), ViewOf(Next(c, s, a), stage.h.m);
            && OneSend(v')
            && (!Committed(stage) ==>
                  v'.sends == v.sends && (v'.attempts == v.attempts || (v.acked && v'.attempts == 0)))
            && (v.acked ==> v'.acked)
  {
    var stage := s.workers[a.w].stage;
    var v := ViewOf(s, stage.h.m);
    ViewFollows(c, s, a);
    assert v.attempts == s.hashes.Attempts(stage.h.m);
    assert stage.Acking? && stage.done > 0 ==> v.acked;
    hide Next, ViewOf, WorkerSafe, NextStage;
  }

  /** The holder's copy is live whenever it is about to be sent. */
  lemma HeldCopy(c: Config, s: State, w: nat)
    requires HandsOk(s) && CopiesOk(c, s) && w in s.workers && Committed(s.workers[w].stage)
    ensures s.workers[w].batch != [] && Live(c, s, w, 0)
    ensures CopyOk(ViewOf(s, s.workers[w].stage.h.m), s.workers[w].stage, 0)
  {
    assert Live(c, s, w, 0);
  }

  lemma CommittedIsOnly(c: Config, s: State, w: nat, v: nat, i: nat)
    requires HandsOk(s) && CopiesOk(c, s) && Unique(c, s) && w in s.workers && Committed(s.workers[w].stage)
    requires v in s.workers && i < |s.workers[v].batch| && Live(c, s, v, i)
    ensures s.workers[v].batch[i] == s.workers[w].stage.h.m ==> v == w && i == 0
  {
    HeldCopy(c, s, w);
  }

  lemma {:induction false} MessageOnce(c: Config, s: State, a: Action, m: nat)
    requires c.Valid() && Enabled(c, s, a) && Inv(c, s)
    ensures OneSend(ViewOf(Next(c, s, a), m))
    ensures m >= Next(c, s, a).log.delivered ==> Untried(ViewOf(Next(c, s, a), m))
  {
    hide NextHashes, NextLocks, NextRecord, NextWorker, TimesOk, Unique, ViewOf, LogSafe;
    LogStep(c, s, a) by { if a.AckStep? { assert WorkerSafe(s.log, s.record, s.workers[a.w]); } }
    if Concerns(s, a, m) {
      if Committed(s.workers[a.w].stage) { HeldCopy(c, s, a.w); }
      assert WorkerSafe(s.log, s.record, s.workers[a.w]);
      HolderCopy(c, s, a);
    } else {
      ViewKept(c, s, a, m);
    }
  }

  /** The copy is the one in the hand of the worker that acts. */
  predicate InHand(s: State, a: Action, w: nat, i: nat) { Handles(a) && a.w == w && i == 0 }

  /** A copy that is not in the acting worker's hand is as far as it was. */
  lemma {:induction false} WaitingCopy(c: Config, s: State, a: Action, w: nat, i: nat, v: View)
    requires c.Valid() && Enabled(c, s, a) && HandsOk(s)
    requires !((a.ReadNew? || a.Claim?) && a.w == w) && !InHand(s, a, w, i)
    requires w in Next(c, s, a).workers && i < |Next(c, s, a).workers[w].batch| && w in s.workers
    requires CopyOk(v, s.workers[w].stage, Before(c, s, a, w, i))
    ensures CopyOk(v, Next(c, s, a).workers[w].stage, i)
  {
    hide NextHashes, NextLocks, NextRecord, NextLog;
  }

  /** Whatever another holder of the message does before it is sent leaves a live copy's knowledge intact. */
  lemma {:induction false} OtherCopy(c: Config, s: State, a: Action, w: nat, i: nat)
    requires c.Valid() && Enabled(c, s, a) && Inv(c, s)
    requires w in s.workers && i < |s.workers[w].batch| && Live(c, s, w, i) && !InHand(s, a, w, i)
    ensures var m := s.workers[w].batch[i];
            CopyOk(ViewOf(Next(c, s, a), m), s.workers[w].stage, i)
  {
    hide Next, NextStage, NextHashes, NextLocks, NextRecord, NextLog, TimesOk, ViewOf, Live, OneSend, LogSafe;
    var m := s.workers[w].batch[i];
    assert CopyOk(ViewOf(s, m), s.workers[w].stage, i);
    if Concerns(s, a, m) {
      if Committed(s.workers[a.w].stage) { CommittedIsOnly(c, s, a.w, w, i); }
      assert OneSend(ViewOf(s, m)) && WorkerSafe(s.log, s.record, s.workers[a.w]);
      HolderCopy(c, s, a);
    } else {
      ViewKept(c, s, a, m);
    }
  }

  lemma {:induction false} CopyStep(c: Config, s: State, a: Action, w: nat, i: nat)
    requires c.Valid() && c.claimIdle > c.maxAge && Enabled(c, s, a) && Inv(c, s)
    requires var s' := Next(c, s, a); w in s'.workers && i < |s'.workers[w].batch| && Live(c, s', w, i)
    ensures var s' := Next(c, s, a); CopyOk(ViewOf(s', s'.workers[w].batch[i]), s'.workers[w].stage, i)
  {
    hide NextHashes, NextLocks, NextRecord, NextLog, TimesOk, Live, ViewOf, NextStage, LogSafe, OneSend;
    var s' := Next(c, s, a);
    var m, i0 := s'.workers[w].batch[i], Before(c, s, a, w, i);
    PlaceBefore(c, s, a, w, i);
    if a.ReadNew? && a.w == w {
      JustDelivered(c, s, a, i);
      ViewKept(c, s, a, m);
    } else if InHand(s, a, w, i) {
      assert CopyOk(ViewOf(s, m), s.workers[w].stage, 0);
      HandledCopy(c, s, a);
    } else {
      assert !InHand(s, a, w, i0);
      OtherCopy(c, s, a, w, i0);
      if a.Claim? && a.w == w { ClaimedExpired(c, s, a, i); } else { WaitingCopy(c, s, a, w, i, ViewOf(s', m)); }
    }
  }

  lemma {:induction false} InvStep(c: Config, s: State, a: Action)
    requires c.Valid() && c.claimIdle > c.maxAge && Enabled(c, s, a) && Inv(c, s)
    ensures Inv(c, Next(c, s, a))
  {
    hide NextHashes, NextLocks, NextRecord, NextLog, NextWorker, TimesOk, HandsOk, Unique, OneSend, Untried, CopyOk;
    hide Live, Enabled, ViewOf, Safe;
    var s' := Next(c, s, a);
    SafeStep(c, s, a);
    TimesStep(c, s, a);
    HandsStep(c, s, a);
    UniqueStep(c, s, a);
    forall w, i: nat | w in s'.workers && i < |s'.workers[w].batch| && Live(c, s', w, i)
      ensures CopyOk(ViewOf(s', s'.workers[w].batch[i]), s'.workers[w].stage, i)
    {
      CopyStep(c, s, a, w, i);
    }
    forall m: nat
      ensures OneSend(ViewOf(s', m))
      ensures m >= s'.log.delivered ==> Untried(ViewOf(s', m))
    {
      MessageOnce(c, s, a, m);
    }
  }

  lemma {:induction false} InvRun(c: Config, states: seq<State>, actions: seq<Action>, now: real)
    requires Run(c, states, actions) && states[0] == Initial(now) && c.claimIdle > c.maxAge
    ensures Inv(c, states[|actions|])
    decreases |actions|
  {
    if actions == [] {
      SafeRun(c, states, actions, now);
    } else {
      RunPrefix(c, states, actions);
      InvRun(c, states[..|actions|], actions[..|actions| - 1], now);
      InvStep(c, states[|actions| - 1], actions[|actions| - 1]);
    }
  }

  /** In every run with such settings, overruns included, no message is ever sent twice, and until its ack
      starts its sends are covered by its persisted attempts. */
  lemma SentAtMostOnce(c: Config, states: seq<State>, actions: seq<Action>, now: real, m: nat)
    requires Run(c, states, actions) && states[0] == Initial(now) && c.claimIdle > c.maxAge
    ensures var s := states[|actions|];
            && |s.record.Sends(m)| <= 1
            && (m !in s.log.acked ==> |s.record.Sends(m)| <= s.hashes.Attempts(m) <= 1)
  {
    InvRun(c, states, actions, now);
    assert OneSend(ViewOf(states[|actions|], m));
  }
}
