/** gateway/offline_queue/sync_worker.py as its coroutines run: `_tick`, `_handle`, `_deliver`, `_ack` and
    `_dead_letter` step by step on the shared state, with anything the other workers, the clients and the
    clock can do between any two awaits. */
module SyncWorker {
  import opened OfflineQueue
  import opened QueueSafety
  import QueueBudget

  /** What the surroundings do during one handling: the actions of others before the k-th await completes,
      whether that await fails, and the answers of Redis, the parser and the upstream. */
  datatype Script = Script(
    others: nat -> seq<Action>, fault: nat -> bool,
    answered: bool, released: bool, verdict: Verdict, sendable: bool, reply: Reply)

  // The awaits of one handling, in the order of the code
  const LEASE: nat := 0
  const DUE: nat := 1
  const ATTEMPTS: nat := 2
  const PERSIST: nat := 3
  const SCHEDULE: nat := 4
  const SEND: nat := 5
  const REPLY: nat := 6
  const SALVAGE: nat := 7
  const BURY: nat := 8
  const ACK: nat := 9
  const RELEASE: nat := 13

  /** How one handling ended. */
  datatype Outcome = Skipped | NotDue | Acknowledged | Rescheduled(attempts: nat) | Aborted

  predicate By(a: Action, w: nat) {
    !a.Tick? && !a.Enqueue? && a.w == w
  }

  /** The actions of one worker in a history. */
  function Own(trace: seq<Action>, w: nat): seq<Action> {
    if trace == [] then []
    else
      var earlier, a := Own(trace[..|trace| - 1], w), trace[|trace| - 1];
      if By(a, w) then earlier + [a] else earlier
  }

  /** The first `k` steps of an acknowledgement. */
  function Acks(w: nat, k: nat): seq<Action> { seq(k, _ => AckStep(w)) }

  /** What is never undone. */
  ghost predicate Later(s: State, s': State) {
    && s.log.acked <= s'.log.acked
    && s.log.nextId <= s'.log.nextId
    && (forall m: nat | m < s.log.nextId && m !in s.log.stream :: m !in s'.log.stream)
    && (forall m: nat :: s.record.Retried(m) <= s'.record.Retried(m))
    && s.record.dead <= s'.record.dead && s.record.succeeded <= s'.record.succeeded
  }

  lemma LaterTrivially(s: State)
    ensures Later(s, s)
  {
  }

  lemma LaterTrans(s: State, t: State, u: State)
    requires Later(s, t) && Later(t, u)
    ensures Later(s, u)
  {
  }

  lemma LaterCounts(s: State, t: State, m: nat)
    requires Later(s, t)
    ensures s.record.Retried(m) <= t.record.Retried(m)
    ensures |s.record.dead| <= |t.record.dead| && s.log.acked <= t.log.acked
    ensures s.record.succeeded <= t.record.succeeded
  {
  }

  // ---- Interference ----

  /** The state after others have acted while worker `w` is suspended; what is not possible does not happen. */
  function Interfered(c: Config, s: State, w: nat, others: seq<Action>): (r: State)
    requires c.Valid()
    ensures w in s.workers ==> w in r.workers && r.workers[w] == s.workers[w]
    decreases |others|
  {
    if others == [] then s
    else Interfered(c, OneOther(c, s, w, others[0]), w, others[1..])
  }

  function OneOther(c: Config, s: State, w: nat, a: Action): (r: State)
    requires c.Valid()
    ensures w in s.workers ==> w in r.workers && r.workers[w] == s.workers[w]
  {
    if Enabled(c, s, a) && !By(a, w) then
      if w in s.workers then OthersStep(c, s, a, w); Next(c, s, a) else Next(c, s, a)
    else s
  }

  /** The state in which Redis answers the lease request of a handling. */
  function AtLease(c: Config, s: State, w: nat, script: Script): State
    requires c.Valid()
  {
    Interfered(c, s, w, script.others(LEASE))
  }

  /** The lease is held by someone, or the answer is lost. */
  predicate LeaseRefused(c: Config, s: State, w: nat, script: Script, m: nat)
    requires c.Valid()
  {
    AtLease(c, s, w, script).locks.Leased(m, AtLease(c, s, w, script).now) || !script.answered
  }

  /** The state in which the due time is read. */
  function AtDue(c: Config, s: State, w: nat, script: Script): State
    requires c.Valid() && w in s.workers && s.workers[w].stage.Idle? && s.workers[w].batch != []
  {
    Interfered(c, Next(c, AtLease(c, s, w, script), Acquire(w, script.answered)), w, script.others(DUE))
  }

  /** The state in which the attempts are read, after the due time was read in `due`. */
  function AtAttempts(c: Config, due: State, w: nat, script: Script): State
    requires c.Valid() && w in due.workers && due.workers[w].stage.CheckingDue?
  {
    Interfered(c, Next(c, due, ReadDue(w)), w, script.others(ATTEMPTS))
  }

  lemma {:induction false} HeldAtDue(c: Config, s: State, w: nat, script: Script)
    requires c.Valid() && w in s.workers && s.workers[w].stage.Idle? && s.workers[w].batch != []
    requires !LeaseRefused(c, s, w, script, s.workers[w].batch[0])
    ensures var due := AtDue(c, s, w, script);
            w in due.workers && due.workers[w].stage.CheckingDue? && due.workers[w].stage.h.m == s.workers[w].batch[0]
  {
    hide Interfered, NextLog, NextHashes, NextRecord, NextLocks;
  }

  /** What the code concludes from the entry: an expired one is not eligible. */
  function Concluded(c: Config, s: State, m: nat, verdict: Verdict): Verdict {
    var expired := m !in s.record.created || s.now - s.record.created[m] > c.maxAge;
    if verdict == Eligible && expired then Ineligible else verdict
  }

  lemma {:induction false} OthersStep(c: Config, s: State, a: Action, w: nat)
    requires c.Valid() && Enabled(c, s, a) && !By(a, w) && w in s.workers
    ensures w in Next(c, s, a).workers && Next(c, s, a).workers[w] == s.workers[w]
  {
    hide NextLog, NextRecord, NextHashes, NextLocks, NextWorker;
  }

  lemma {:induction false} LaterStep(c: Config, s: State, a: Action)
    requires c.Valid() && Enabled(c, s, a)
    ensures Later(s, Next(c, s, a))
  {
    hide NextHashes, NextLocks, NextWorker;
  }

  lemma OwnMore(trace: seq<Action>, a: Action, w: nat)
    ensures Own(trace + [a], w) == if By(a, w) then Own(trace, w) + [a] else Own(trace, w)
  {
    assert (trace + [a])[..|trace|] == trace;
  }

  predicate NoPersist(others: seq<Action>) { forall a | a in others :: !a.PersistAttempts? }

  /** Unless somebody else persists an attempt, an erased counter stays erased. */
  lemma {:induction false} StaysErased(c: Config, s: State, w: nat, others: seq<Action>, m: nat)
    requires c.Valid() && m !in s.hashes.attempts && NoPersist(others)
    ensures m !in Interfered(c, s, w, others).hashes.attempts
    decreases |others|
  {
    if others != [] {
      assert m !in OneOther(c, s, w, others[0]).hashes.attempts by {
        assert !others[0].PersistAttempts?;
        hide NextLog, NextRecord, NextLocks, NextWorker;
      }
      StaysErased(c, OneOther(c, s, w, others[0]), w, others[1..], m);
    }
  }

  lemma StaysDeleted(c: Config, s: State, s': State, m: nat)
    requires Safe(c, s) && Later(s, s') && m in s.log.acked && m !in s.log.stream
    ensures m in s'.log.acked && m !in s'.log.stream
  {
  }

  lemma AckedIsTerminal(c: Config, s: State, m: nat)
    requires Safe(c, s) && m in s.log.acked
    ensures s.record.Terminal(m)
  {
  }

  /** What each step of an acknowledgement achieves. */
  lemma {:induction false} AckAchieves(c: Config, s: State, w: nat)
    requires c.Valid() && Safe(c, s) && Enabled(c, s, AckStep(w)) && s.workers[w].stage.done < 4
    ensures var Acking(h, done) := s.workers[w].stage;
            var s' := Next(c, s, AckStep(w));
            && h.m < s.log.nextId
            && (done == 0 ==> h.m in s'.log.acked)
            && (done == 1 ==> h.m !in s'.log.stream)
            && (done == 2 ==> h.m !in s'.hashes.attempts)
            && (done == 3 ==> h.m !in s'.hashes.due && s'.hashes.attempts == s.hashes.attempts)
  {
    assert WorkerSafe(s.log, s.record, s.workers[w]);
    hide NextLocks, NextWorker, NextRecord;
  }

  /** The observer records a success and counts a retryable reply with budget left. */
  lemma {:induction false} Observes(c: Config, s: State, w: nat, reply: Reply)
    requires c.Valid() && Enabled(c, s, Receive(w, reply))
    ensures var Awaiting(h, n) := s.workers[w].stage;
            && (reply == Success ==> h.m in Next(c, s, Receive(w, reply)).record.succeeded)
            && (reply == Retryable && n <= c.maxRetries ==>
                  Next(c, s, Receive(w, reply)).record.Retried(h.m) == s.record.Retried(h.m) + 1)
  {
    hide NextLocks, NextWorker, NextHashes, NextLog;
  }

  /** An eligible entry's attempt persisted, scheduled and sent, after the given actions. */
  function Sent(own: seq<Action>, w: nat, sendable: bool): seq<Action> {
    own + [PersistAttempts(w)] + [PersistDue(w)] + [Request(w, sendable)]
  }

  /** The same and then answered. */
  function Answered(own: seq<Action>, w: nat, reply: Reply): seq<Action> {
    Sent(own, w, true) + [Receive(w, reply)]
  }

  /** The actions end with a whole acknowledgement, directly after a success or a dead-letter row. */
  predicate EndsAcked(own: seq<Action>, w: nat) {
    && |own| >= 5 && own[|own| - 4..] == Acks(w, 4)
    && (own[|own| - 5] == Receive(w, Success) || own[|own| - 5] == Bury(w))
  }

  lemma EndsWithAcks(own: seq<Action>, w: nat, a: Action)
    requires a == Receive(w, Success) || a == Bury(w)
    ensures EndsAcked(own + [a] + Acks(w, 4), w)
  {
    assert |Acks(w, 4)| == 4;
  }

  predicate EndsFailed(own: seq<Action>, w: nat) {
    own != [] && own[|own| - 1] == Fail(w)
  }

  lemma EndsWithFail(own: seq<Action>, w: nat)
    ensures EndsFailed(own + [Fail(w)], w)
  {
  }

  /** A new dead-letter row for the message, with the given count. */
  ghost predicate NewRow(before: seq<Row>, after: seq<Row>, m: nat, retries: nat) {
    exists i | |before| <= i < |after| :: after[i].m == m && after[i].retries == retries
  }

  lemma NewRowLater(before: seq<Row>, mid: seq<Row>, after: seq<Row>, m: nat, retries: nat)
    requires |before| <= |mid| && NewRow(mid, after, m, retries)
    ensures NewRow(before, after, m, retries)
  {
  }

  /** What the reply to a message's `n`-th attempt amounts to. */
  ghost predicate Finishes(c: Config, n: nat, w: nat, m: nat, script: Script, o: Outcome,
                           own: seq<Action>, before: State, own': seq<Action>, after: State)
  {
    && (o.Acknowledged? || o.Rescheduled? || o.Aborted?)
    && (script.fault(REPLY) ==> o.Aborted? && own' == own + [Fail(w)])
    && (!script.fault(REPLY) ==>
          && own + [Receive(w, script.reply)] <= own'
          && (script.reply == Success ==> m in after.record.succeeded))
    && (!o.Aborted? ==> (o.Rescheduled? <==> script.reply == Retryable && n <= c.maxRetries))
    && (o.Acknowledged? ==>
          && m in after.log.acked && m !in after.log.stream && EndsAcked(own', w)
          && (script.reply != Success ==> NewRow(before.record.dead, after.record.dead, m, n))
          && own' == if script.reply == Success then own + [Receive(w, Success)] + Acks(w, 4)
                     else own + [Receive(w, script.reply)] + [Bury(w)] + Acks(w, 4))
    && (o.Rescheduled? ==>
          && o.attempts == n && after.record.Retried(m) > before.record.Retried(m)
          && own' == own + [Receive(w, Retryable)])
    && (o.Aborted? ==> EndsFailed(own', w) && exists k :: script.fault(k))
  }

  lemma FaultFinishes(c: Config, n: nat, w: nat, m: nat, script: Script, own: seq<Action>, before: State, after: State)
    requires script.fault(REPLY)
    ensures Finishes(c, n, w, m, script, Aborted, own, before, own + [Fail(w)], after)
  {
    hide EndsAcked, Acks, NewRow;
  }

  lemma RetryFinishes(c: Config, n: nat, w: nat, m: nat, script: Script, own: seq<Action>, before: State, after: State)
    requires !script.fault(REPLY) && script.reply == Retryable && n <= c.maxRetries
    requires after.record.Retried(m) > before.record.Retried(m)
    ensures Finishes(c, n, w, m, script, Rescheduled(n), own, before, own + [Receive(w, Retryable)], after)
  {
    hide EndsAcked, Acks, NewRow;
  }

  lemma SettledFinishes(c: Config, n: nat, w: nat, m: nat, script: Script, failed: bool,
                        own: seq<Action>, before: State, mid: State, own': seq<Action>, after: State)
    requires !script.fault(REPLY) && !(script.reply == Retryable && n <= c.maxRetries)
    requires own + [Receive(w, script.reply)] <= own' && |before.record.dead| <= |mid.record.dead|
    requires script.reply == Success ==> m in after.record.succeeded
    requires !failed ==>
               && m in after.log.acked && m !in after.log.stream
               && (script.reply != Success ==> NewRow(mid.record.dead, after.record.dead, m, n))
               && own' == (if script.reply == Success then own + [Receive(w, script.reply)]
                           else own + [Receive(w, script.reply)] + [Bury(w)]) + Acks(w, 4)
    requires failed ==> EndsFailed(own', w) && exists k :: script.fault(k)
    ensures Finishes(c, n, w, m, script, if failed then Aborted else Acknowledged, own, before, own', after)
  {
    EndsWithAcks(own, w, Receive(w, Success));
    EndsWithAcks(own + [Receive(w, script.reply)], w, Bury(w));
    hide EndsAcked, EndsFailed, Acks, NewRow;
    if !failed && script.reply != Success {
      NewRowLater(before.record.dead, mid.record.dead, after.record.dead, m, n);
    }
  }

  /** What sending a message as its `n`-th attempt amounts to. */
  ghost predicate Requested(c: Config, n: nat, w: nat, m: nat, script: Script, o: Outcome, thrown: bool,
                            own: seq<Action>, before: State, own': seq<Action>, after: State)
  {
    && (o.Acknowledged? || o.Rescheduled? || o.Aborted?)
    && (thrown <==> !script.sendable)
    && own + [Request(w, script.sendable)] <= own'
    && (thrown ==> own' == own + [Request(w, false)])
    && (!thrown && !script.fault(REPLY) ==>
          && own + [Request(w, true)] + [Receive(w, script.reply)] <= own'
          && (script.reply == Success ==> m in after.record.succeeded))
    && (!thrown && !o.Aborted? ==> (o.Rescheduled? <==> script.reply == Retryable && n <= c.maxRetries))
    && (!thrown && o.Acknowledged? ==>
          && m in after.log.acked && m !in after.log.stream && EndsAcked(own', w)
          && own' == if script.reply == Success
                     then own + [Request(w, true)] + [Receive(w, Success)] + Acks(w, 4)
                     else own + [Request(w, true)] + [Receive(w, script.reply)] + [Bury(w)] + Acks(w, 4))
    && (!thrown && o.Rescheduled? ==>
          && o.attempts == n && after.record.Retried(m) > before.record.Retried(m)
          && own' == own + [Request(w, true)] + [Receive(w, Retryable)])
    && (!thrown && o.Aborted? ==> EndsFailed(own', w) && exists k :: script.fault(k))
  }

  /** What replaying a message as its `n`-th attempt amounts to, the worker's own actions growing from `own` to
      `own'`: the attempt is persisted, then its due time, and only then the request is sent; an error at either
      write sends nothing.  A success is recorded as one and acknowledged without a dead-letter row, a retryable
      failure ends the replay exactly while attempts are left, and any other failure is dead-lettered. */
  ghost predicate Replayed(c: Config, n: nat, w: nat, m: nat, script: Script, o: Outcome, thrown: bool,
                           own: seq<Action>, before: State, own': seq<Action>, after: State)
  {
    && own <= own'
    && (o.Acknowledged? || o.Rescheduled? || o.Aborted?)
    && (thrown <==> !script.fault(PERSIST) && !script.fault(SCHEDULE) && !script.sendable)
    && (script.fault(PERSIST) ==> o.Aborted? && own' == own + [Fail(w)])
    && (!script.fault(PERSIST) && script.fault(SCHEDULE) ==>
          o.Aborted? && own' == own + [PersistAttempts(w)] + [Fail(w)])
    && (!script.fault(PERSIST) && !script.fault(SCHEDULE) ==> Sent(own, w, script.sendable) <= own')
    && (thrown ==> own' == Sent(own, w, false))
    && (!script.fault(PERSIST) && !script.fault(SCHEDULE) && !thrown && !script.fault(REPLY) ==>
          && Answered(own, w, script.reply) <= own'
          && (script.reply == Success ==> m in after.record.succeeded))
    && (!thrown && !o.Aborted? ==> (o.Rescheduled? <==> script.reply == Retryable && n <= c.maxRetries))
    && (!thrown && o.Acknowledged? ==>
          && m in after.log.acked && m !in after.log.stream && EndsAcked(own', w)
          && own' == if script.reply == Success then Answered(own, w, Success) + Acks(w, 4)
                     else Answered(own, w, script.reply) + [Bury(w)] + Acks(w, 4))
    && (!thrown && o.Rescheduled? ==>
          && o.attempts == n && after.record.Retried(m) > before.record.Retried(m)
          && own' == Answered(own, w, Retryable))
    && (!thrown && o.Aborted? ==> EndsFailed(own', w) && exists k :: script.fault(k))
  }

  /** How a delivery goes on once the attempts are read in the state `read`, the worker's own actions growing from
      `own` to `own'`.  An entry that is eligible, young enough and has attempts left is persisted, scheduled and
      sent; a success is recorded as one and acknowledged without a dead-letter row, a retryable failure ends the
      handling exactly while attempts are left, and any other failure is dead-lettered.  Every other entry is
      dead-lettered without a send, an unreadable one through the exception. */
  ghost predicate Decided(c: Config, read: State, w: nat, m: nat, script: Script, o: Outcome, thrown: bool,
                          own: seq<Action>, before: State, own': seq<Action>, after: State)
  {
    var fit := && script.verdict == Eligible && read.hashes.Attempts(m) <= c.maxRetries
               && m in read.record.created && read.now - read.record.created[m] <= c.maxAge;
    var start := own + [ReadAttempts(w, Eligible)];
    && own <= own'
    && (o.Acknowledged? || o.Rescheduled? || o.Aborted?)
    && (!thrown && o.Aborted? ==> EndsFailed(own', w) && exists k :: script.fault(k))
    && (!thrown && o.Acknowledged? ==> EndsAcked(own', w) && m in after.log.acked && m !in after.log.stream)
    && (fit && !script.fault(ATTEMPTS) ==>
          && (thrown <==> !script.fault(PERSIST) && !script.fault(SCHEDULE) && !script.sendable)
          && (script.fault(PERSIST) || script.fault(SCHEDULE) ==> o.Aborted?))
    && (fit && !script.fault(ATTEMPTS) && !script.fault(PERSIST) && !script.fault(SCHEDULE) ==>
          && Sent(start, w, script.sendable) <= own'
          && (script.sendable && !script.fault(REPLY) ==> Answered(start, w, script.reply) <= own')
          && (script.sendable && !script.fault(REPLY) && script.reply == Success ==> m in after.record.succeeded))
    && (fit && !thrown && !o.Aborted? ==>
          && (o.Rescheduled? <==> script.reply == Retryable && read.hashes.Attempts(m) + 1 <= c.maxRetries)
          && (o.Acknowledged? ==>
                own' == if script.reply == Success then Answered(start, w, Success) + Acks(w, 4)
                        else Answered(start, w, script.reply) + [Bury(w)] + Acks(w, 4)))
    && (fit && thrown ==> own' == Sent(start, w, false))
    && (!thrown && o.Rescheduled? ==>
          && script.reply == Retryable && 1 <= o.attempts == read.hashes.Attempts(m) + 1 <= c.maxRetries
          && after.record.Retried(m) > before.record.Retried(m)
          && own' == Answered(start, w, Retryable))
    && (!fit && !script.fault(ATTEMPTS) && script.verdict == Unreadable ==>
          thrown && own' == own + [ReadAttempts(w, Unreadable)])
    && (!fit && !script.fault(ATTEMPTS) && script.verdict != Unreadable ==>
          && !thrown && !o.Rescheduled?
          && (!script.fault(BURY) ==> NewRow(before.record.dead, after.record.dead, m, read.hashes.Attempts(m)))
          && (o.Acknowledged? ==>
                || own' == own + [ReadAttempts(w, Ineligible)] + [Bury(w)] + Acks(w, 4)
                || own' == own + [ReadAttempts(w, Eligible)] + [Bury(w)] + Acks(w, 4)))
    && (script.fault(ATTEMPTS) ==> !thrown && o.Aborted?)
  }

  /** What a handling did, by its outcome: the worker's own actions before and after it. */
  predicate Handling(w: nat, script: Script, o: Outcome, own: seq<Action>, own': seq<Action>) {
    match o
    case Skipped => own' == own + [Acquire(w, script.answered)]
    case NotDue => own' == own + [Acquire(w, true)] + [ReadDue(w)] + [Release(w, script.released)]
    case Rescheduled(_) =>
      own' == Answered(own + [Acquire(w, true)] + [ReadDue(w)] + [ReadAttempts(w, Eligible)], w, Retryable)
              + [Release(w, script.released)]
    case Acknowledged =>
      && own + [Acquire(w, true)] + [ReadDue(w)] <= own'
      && own' != [] && own'[|own'| - 1] == Release(w, script.released) && EndsAcked(own'[..|own'| - 1], w)
    case Aborted =>
      && own + [Acquire(w, true)] <= own'
      && own' != [] && own'[|own'| - 1] == Release(w, script.released) && EndsFailed(own'[..|own'| - 1], w)
  }

  lemma HandlingsSnoc(w: nat, scripts: nat -> Script, outcomes: seq<Outcome>, marks: seq<seq<Action>>,
                      o: Outcome, own: seq<Action>)
    requires Handlings(w, scripts, outcomes, marks) && Handling(w, scripts(|outcomes|), o, marks[|outcomes|], own)
    ensures Handlings(w, scripts, outcomes + [o], marks + [own])
  {
    hide Handling;
  }

  lemma CompletedSnoc(outcomes: seq<Outcome>, o: Outcome)
    ensures Completed(outcomes + [o]) <==> Completed(outcomes) && !o.Aborted?
  {
    assert (outcomes + [o])[|outcomes|] == o;
    assert forall i | 0 <= i < |outcomes| :: (outcomes + [o])[i] == outcomes[i];
  }

  /** What the outcomes say of the messages. */
  ghost predicate Effected(batch: seq<nat>, outcomes: seq<Outcome>, before: State, after: State)
    requires |outcomes| <= |batch|
  {
    forall i | 0 <= i < |outcomes| ::
      && (outcomes[i].Acknowledged? ==> batch[i] in after.log.acked)
      && (outcomes[i].Rescheduled? ==> after.record.Retried(batch[i]) > before.record.Retried(batch[i]))
  }

  lemma EffectedSnoc(batch: seq<nat>, outcomes: seq<Outcome>, o: Outcome, before: State, mid: State, after: State)
    requires |outcomes| < |batch| && Effected(batch, outcomes, before, mid) && Later(before, mid) && Later(mid, after)
    requires o.Acknowledged? ==> batch[|outcomes|] in after.log.acked
    requires o.Rescheduled? ==> after.record.Retried(batch[|outcomes|]) > mid.record.Retried(batch[|outcomes|])
    ensures Effected(batch, outcomes + [o], before, after)
  {
    assert forall i | 0 <= i < |outcomes| :: (outcomes + [o])[i] == outcomes[i];
  }

  /** Handling a batch, so far: the outcomes, the worker's actions around them, and what is left to handle. */
  ghost predicate Progress(w: nat, scripts: nat -> Script, batch: seq<nat>, outcomes: seq<Outcome>,
                           marks: seq<seq<Action>>, rest: seq<nat>, before: State, now: State)
  {
    && |outcomes| <= |batch| && Later(before, now)
    && Handlings(w, scripts, outcomes, marks) && Effected(batch, outcomes, before, now)
    && (Completed(outcomes) ==> rest == batch[|outcomes|..]) && (rest != [] ==> Completed(outcomes))
  }

  lemma ProgressMeans(w: nat, scripts: nat -> Script, batch: seq<nat>, outcomes: seq<Outcome>,
                      marks: seq<seq<Action>>, rest: seq<nat>, before: State, now: State)
    requires Progress(w, scripts, batch, outcomes, marks, rest, before, now) && rest == []
    ensures |outcomes| <= |batch| && (Completed(outcomes) ==> |outcomes| == |batch|)
    ensures Handlings(w, scripts, outcomes, marks) && |marks| == |outcomes| + 1
    ensures Effected(batch, outcomes, before, now)
  {
    hide Handling, Later, Effected;
  }

  lemma ProgressSnoc(w: nat, scripts: nat -> Script, batch: seq<nat>, outcomes: seq<Outcome>,
                     marks: seq<seq<Action>>, rest: seq<nat>, before: State, now: State, after: State,
                     o: Outcome, own: seq<Action>)
    requires Progress(w, scripts, batch, outcomes, marks, rest, before, now) && rest != []
    requires Later(now, after) && marks != [] && Handling(w, scripts(|outcomes|), o, marks[|marks| - 1], own)
    requires o.Acknowledged? ==> rest[0] in after.log.acked
    requires o.Rescheduled? ==> after.record.Retried(rest[0]) > now.record.Retried(rest[0])
    ensures var rest' := if o.Aborted? then [] else rest[1..];
            Progress(w, scripts, batch, outcomes + [o], marks + [own], rest', before, after)
  {
    LaterTrans(before, now, after);
    assert rest[0] == batch[|outcomes|] && rest[1..] == batch[|outcomes| + 1..];
    CompletedSnoc(outcomes, o);
    EffectedSnoc(batch, outcomes, o, before, now, after);
    hide Later, Effected, Completed, Handling;
    HandlingsSnoc(w, scripts, outcomes, marks, o, own);
  }

  /** The scripts of the handlings after the first sixteen. */
  function Afterwards(scripts: nat -> Script): nat -> Script {
    (k: nat) => scripts(16 + k)
  }

  lemma DecidedBasics(c: Config, read: State, w: nat, m: nat, script: Script, o: Outcome, thrown: bool,
                     own: seq<Action>, before: State, own': seq<Action>, after: State)
    requires Decided(c, read, w, m, script, o, thrown, own, before, own', after)
    ensures own <= own' && !o.Skipped? && !o.NotDue?
    ensures !thrown && o.Acknowledged? ==> m in after.log.acked && m !in after.log.stream
    ensures !thrown && o.Rescheduled? ==>
              && 1 <= o.attempts <= c.maxRetries && script.reply == Retryable
              && after.record.Retried(m) > before.record.Retried(m)
    ensures !thrown && o.Aborted? ==> exists k :: script.fault(k)
  {
    hide Sent, Answered, Acks, EndsAcked, EndsFailed, NewRow;
  }

  lemma UnbuiltRequests(c: Config, n: nat, w: nat, m: nat, script: Script, own: seq<Action>,
                        before: State, after: State)
    requires !script.sendable
    ensures Requested(c, n, w, m, script, Aborted, true, own, before, own + [Request(w, false)], after)
  {
    hide EndsAcked, EndsFailed, Acks;
  }

  lemma FinishRequests(c: Config, n: nat, w: nat, m: nat, script: Script, o: Outcome,
                       own: seq<Action>, first: State, before: State, own': seq<Action>, after: State)
    requires Finishes(c, n, w, m, script, o, own + [Request(w, true)], before, own', after)
    requires first.record.Retried(m) <= before.record.Retried(m) && script.sendable
    ensures Requested(c, n, w, m, script, o, false, own, first, own', after)
  {
    hide EndsAcked, EndsFailed, Acks, NewRow;
  }

  lemma RequestReplays(c: Config, n: nat, w: nat, m: nat, script: Script, o: Outcome, thrown: bool,
                       own: seq<Action>, first: State, before: State, own': seq<Action>, after: State)
    requires Requested(c, n, w, m, script, o, thrown, own + [PersistAttempts(w)] + [PersistDue(w)], before, own', after)
    requires first.record.Retried(m) <= before.record.Retried(m)
    requires !script.fault(PERSIST) && !script.fault(SCHEDULE)
    ensures Replayed(c, n, w, m, script, o, thrown, own, first, own', after)
  {
    hide EndsAcked, EndsFailed, Acks;
  }

  /** A write that fails ends the replay. */
  lemma FaultReplays(c: Config, n: nat, w: nat, m: nat, script: Script,
                     own: seq<Action>, first: State, own': seq<Action>, after: State)
    requires script.fault(PERSIST) || script.fault(SCHEDULE)
    requires own' == if script.fault(PERSIST) then own + [Fail(w)] else own + [PersistAttempts(w)] + [Fail(w)]
    ensures Replayed(c, n, w, m, script, Aborted, false, own, first, own', after)
  {
    hide EndsAcked, Acks, Sent, Answered;
  }

  lemma ReplayDecides(c: Config, read: State, w: nat, m: nat, script: Script, o: Outcome, thrown: bool,
                      own: seq<Action>, first: State, before: State, own': seq<Action>, after: State)
    requires Replayed(c, read.hashes.Attempts(m) + 1, w, m, script, o, thrown, own + [ReadAttempts(w, Eligible)],
                      before, own', after)
    requires first.record.Retried(m) <= before.record.Retried(m)
    requires script.verdict == Eligible && read.hashes.Attempts(m) <= c.maxRetries && !script.fault(ATTEMPTS)
    requires m in read.record.created && read.now - read.record.created[m] <= c.maxAge
    ensures Decided(c, read, w, m, script, o, thrown, own, first, own', after)
  {
    hide Answered, Sent, EndsAcked, EndsFailed, Acks;
  }

  /** How the entry is judged. */
  lemma JudgedStage(c: Config, s: State, w: nat, verdict: Verdict)
    requires c.Valid() && w in s.workers && s.workers[w].stage.Counting?
    ensures var h := s.workers[w].stage.h;
            var a, n := ReadAttempts(w, Concluded(c, s, h.m, verdict)), s.hashes.Attempts(h.m);
            && Enabled(c, s, a)
            && NextStage(c, s, a) ==
               if verdict == Unreadable then Salvaging(h)
               else if verdict == Eligible && n <= c.maxRetries
                       && h.m in s.record.created && s.now - s.record.created[h.m] <= c.maxAge then Persisting(h, n + 1)
               else Burying(h, n)
    ensures var h := s.workers[w].stage.h;
            && (verdict == Unreadable ==> Concluded(c, s, h.m, verdict) == Unreadable)
            && (NextStage(c, s, ReadAttempts(w, Concluded(c, s, h.m, verdict))).Persisting? ==>
                  Concluded(c, s, h.m, verdict) == Eligible)
  {
  }

  lemma FaultDecides(c: Config, read: State, w: nat, m: nat, script: Script, own: seq<Action>,
                     first: State, after: State)
    requires script.fault(ATTEMPTS)
    ensures Decided(c, read, w, m, script, Aborted, false, own, first, own + [Fail(w)], after)
  {
    hide EndsAcked, Acks, Sent, Answered, NewRow;
  }

  lemma UnreadableDecides(c: Config, read: State, w: nat, m: nat, script: Script, own: seq<Action>,
                          first: State, after: State)
    requires !script.fault(ATTEMPTS) && script.verdict == Unreadable
    ensures Decided(c, read, w, m, script, Aborted, true, own, first, own + [ReadAttempts(w, Unreadable)], after)
  {
    hide EndsAcked, EndsFailed, Acks, Sent, Answered, NewRow;
  }

  /** Everything else is dead-lettered at once. */
  lemma BurialDecides(c: Config, read: State, w: nat, m: nat, script: Script, failed: bool,
                      own: seq<Action>, first: State, own': seq<Action>, after: State)
    requires !(&& script.verdict == Eligible && read.hashes.Attempts(m) <= c.maxRetries
               && m in read.record.created && read.now - read.record.created[m] <= c.maxAge)
    requires script.verdict != Unreadable && !script.fault(ATTEMPTS)
    requires own + [ReadAttempts(w, Concluded(c, read, m, script.verdict))] <= own'
    requires !script.fault(BURY) ==> NewRow(first.record.dead, after.record.dead, m, read.hashes.Attempts(m))
    requires !failed ==>
               && m in after.log.acked && m !in after.log.stream && EndsAcked(own', w)
               && own' == own + [ReadAttempts(w, Concluded(c, read, m, script.verdict))] + [Bury(w)] + Acks(w, 4)
    requires failed ==> EndsFailed(own', w) && exists k :: script.fault(k)
    ensures Decided(c, read, w, m, script, if failed then Aborted else Acknowledged, false, own, first, own', after)
  {
    hide Answered, Sent, EndsAcked, EndsFailed, Acks, NewRow;
  }

  /** What a handling that read the attempts in the state `read` has done when it ends: an entry that is eligible,
      young enough and has attempts left was persisted, scheduled and sent, in this order; a success is recorded
      and acknowledged with nothing between; a retryable failure ends it exactly while attempts are left; any
      other failure, and an unbuildable request, is dead-lettered.  Any other entry was never sent. */
  ghost predicate Concluding(c: Config, read: State, w: nat, m: nat, script: Script, o: Outcome,
                             own: seq<Action>, own': seq<Action>, after: State)
  {
    var n, start := read.hashes.Attempts(m) + 1, own + [ReadAttempts(w, Eligible)];
    var release := [Release(w, script.released)];
    if && script.verdict == Eligible && read.hashes.Attempts(m) <= c.maxRetries
       && m in read.record.created && read.now - read.record.created[m] <= c.maxAge
    then
      && (!script.fault(PERSIST) && !script.fault(SCHEDULE) ==>
            && Sent(start, w, script.sendable) <= own'
            && (script.sendable && !script.fault(REPLY) ==> Answered(start, w, script.reply) <= own')
            && (script.sendable && !script.fault(REPLY) && script.reply == Success ==> m in after.record.succeeded))
      && (script.sendable && !o.Aborted? ==> (o.Rescheduled? <==> script.reply == Retryable && n <= c.maxRetries))
      && (o.Rescheduled? ==> o.attempts == n && own' == Answered(start, w, Retryable) + release)
      && (o.Acknowledged? ==>
            own' == (if !script.sendable then Sent(start, w, false) + [Salvage(w)] + [Bury(w)]
                     else if script.reply == Success then Answered(start, w, Success)
                     else Answered(start, w, script.reply) + [Bury(w)]) + Acks(w, 4) + release)
    else
      && !o.Rescheduled?
      && (o.Acknowledged? ==>
            || own' == own + [ReadAttempts(w, Unreadable)] + [Salvage(w)] + [Bury(w)] + Acks(w, 4) + release
            || own' == own + [ReadAttempts(w, Ineligible)] + [Bury(w)] + Acks(w, 4) + release
            || own' == own + [ReadAttempts(w, Eligible)] + [Bury(w)] + Acks(w, 4) + release)
  }

  /** The end of a delivery, after the exception branch if it threw. */
  ghost predicate Settled(w: nat, o0: Outcome, thrown: bool, mid: seq<Action>, o: Outcome, end: seq<Action>) {
    if !thrown then o == o0 && end == mid
    else
      && mid <= end && (o.Acknowledged? || o.Aborted?)
      && (o.Acknowledged? ==> end == mid + [Salvage(w)] + [Bury(w)] + Acks(w, 4) && EndsAcked(end, w))
      && (o.Aborted? ==> EndsFailed(end, w))
  }

  lemma SettledConcludes(c: Config, read: State, w: nat, m: nat, script: Script, o0: Outcome, thrown: bool,
                         own: seq<Action>, before: State, mid: seq<Action>, at: State,
                         o: Outcome, end: seq<Action>, after: State)
    requires Decided(c, read, w, m, script, o0, thrown, own, before, mid, at) && Settled(w, o0, thrown, mid, o, end)
    requires at.record.succeeded <= after.record.succeeded && !script.fault(ATTEMPTS)
    ensures Concluding(c, read, w, m, script, o, own, end + [Release(w, script.released)], after)
  {
    hide EndsAcked, EndsFailed, Acks, Sent, Answered;
  }

  lemma ConcludingLater(c: Config, read: State, w: nat, m: nat, script: Script, o: Outcome,
                        own: seq<Action>, own': seq<Action>, at: State, after: State)
    requires Concluding(c, read, w, m, script, o, own, own', at) && at.record.succeeded <= after.record.succeeded
    ensures Concluding(c, read, w, m, script, o, own, own', after)
  {
    hide Acks, Sent, Answered;
  }

  lemma LaterSuccess(s: State, t: State, later: bool)
    requires if later then Later(s, t) else s == t
    ensures s.record.succeeded <= t.record.succeeded
  {
  }

  lemma SkippedHandles(w: nat, script: Script, own: seq<Action>)
    ensures Handling(w, script, Skipped, own, own + [Acquire(w, script.answered)])
  {
  }

  lemma UndecidedHandles(w: nat, script: Script, o: Outcome, own: seq<Action>, end: seq<Action>)
    requires o.NotDue? || o.Aborted?
    requires o.NotDue? ==> end == own + [Acquire(w, true)] + [ReadDue(w)]
    requires o.Aborted? ==> own + [Acquire(w, true)] <= end && EndsFailed(end, w)
    ensures Handling(w, script, o, own, end + [Release(w, script.released)])
  {
    hide EndsFailed;
    var own' := end + [Release(w, script.released)];
    assert own'[..|own'| - 1] == end;
  }

  lemma SettledHandles(c: Config, read: State, w: nat, m: nat, script: Script, o0: Outcome, thrown: bool,
                       own: seq<Action>, before: State, mid: seq<Action>, at: State, o: Outcome, end: seq<Action>)
    requires Decided(c, read, w, m, script, o0, thrown, own + [Acquire(w, true)] + [ReadDue(w)], before, mid, at)
    requires Settled(w, o0, thrown, mid, o, end)
    ensures Handling(w, script, o, own, end + [Release(w, script.released)])
  {
    hide EndsAcked, EndsFailed, Acks, Sent, Answered;
    var own' := end + [Release(w, script.released)];
    assert own'[..|own'| - 1] == end;
  }

  /** No handling was aborted. */
  predicate Completed(outcomes: seq<Outcome>) {
    forall i | 0 <= i < |outcomes| :: !outcomes[i].Aborted?
  }

  /** One handling after the other, each with its own script. */
  ghost predicate Handlings(w: nat, scripts: nat -> Script, outcomes: seq<Outcome>, marks: seq<seq<Action>>) {
    && |marks| == |outcomes| + 1
    && forall i: nat | i < |outcomes| :: Handling(w, scripts(i), outcomes[i], marks[i], marks[i + 1])
  }

  class Gateway {
    const c: Config
    var s: State
    ghost var states: seq<State>
    ghost var trace: seq<Action>

    constructor (c: Config, now: real)
      requires c.Valid()
      ensures this.c == c && s == Initial(now) && trace == [] && Valid()
    {
      this.c, this.s := c, Initial(now);
      this.states, this.trace := [Initial(now)], [];
    }

    /** Everything that has happened is a run of the protocol. */
    ghost predicate Valid()
      reads this
    {
      c.Valid() && Traced() && Safe(c, s)
    }

    ghost predicate Traced()
      reads this
    {
      Run(c, states, trace) && states[|trace|] == s && states[0] == Initial(states[0].now)
    }

    /** What the protocol guarantees therefore holds of the gateway at any moment. */
    lemma Guaranteed(m: nat)
      requires Valid()
      ensures |s.log.stream| <= c.maxDepth
      ensures m < s.log.nextId ==>
                (m in s.log.stream && m >= s.log.delivered) || m in s.log.pending || s.record.Terminal(m)
      ensures (forall i | 0 <= i < |states| :: QueueBudget.NoOverrun(states[i])) && m !in s.log.acked ==>
                && |s.record.Sends(m)| <= s.hashes.Attempts(m) <= c.maxRetries + 1
                && s.record.Retried(m) <= s.hashes.Attempts(m) && s.record.Retried(m) <= c.maxRetries
    {
      NothingLost(c, states, trace, states[0].now, m);
      if forall i | 0 <= i < |states| :: QueueBudget.NoOverrun(states[i]) {
        QueueBudget.RetryBudget(c, states, trace, states[0].now, m);
      }
    }

    method Do(a: Action)
      requires Valid() && Enabled(c, s, a)
      modifies this
      ensures Valid() && s == Next(c, old(s), a) && Later(old(s), s)
      ensures trace == old(trace) + [a]
    {
      assert |states| == |trace| + 1;
      hide Safe, Next, Later, Enabled, Run;
      SafeStep(c, s, a);
      LaterStep(c, s, a);
      var s' := Next(c, s, a);
      ghost var longer := Extend(c, states, trace, a, s');
      s, states, trace := s', longer, trace + [a];
    }

    /** `enqueue_write`: the length check and the append are one script, so the bound holds for any number
        of concurrent callers; a refused write leaves no trace. */
    method EnqueueWrite(replayable: bool) returns (accepted: bool, id: nat)
      requires Valid()
      modifies this
      ensures Valid()
      ensures accepted <==> replayable && |old(s.log.stream)| < c.maxDepth
      ensures !accepted ==> s == old(s)
      ensures accepted ==> id == old(s.log.nextId) && id in s.log.stream && id >= s.log.delivered
      ensures accepted ==> s.log.stream == old(s.log.stream)[id := s.now] && s.log.pending == old(s.log.pending)
      ensures s.now == old(s.now) && s.hashes == old(s.hashes) && s.locks == old(s.locks) && s.workers == old(s.workers)
    {
      hide Run;
      id := s.log.nextId;
      accepted := replayable && |s.log.stream| < c.maxDepth;
      if accepted { Do(Enqueue); }
    }

    /** One action of the worker that is handling a message. */
    method Act(w: nat, a: Action)
      requires Valid() && w in s.workers && Handles(a) && a.w == w && Enabled(c, s, a)
      modifies this
      ensures Valid() && w in s.workers && s == Next(c, old(s), a) && Later(old(s), s)
      ensures s.workers[w] == Worker(old(s.workers[w].batch), NextStage(c, old(s), a))
      ensures Own(trace, w) == old(Own(trace, w)) + [a]
    {
      hide Run, Safe, Own;
      OwnMore(trace, a, w);
      Do(a);
    }

    /** An infrastructure error: the handling ends and the batch will be dropped. */
    method Give(w: nat)
      requires Valid() && w in s.workers && !s.workers[w].stage.Idle? && !s.workers[w].stage.Releasing?
      modifies this
      ensures Valid() && w in s.workers && Later(old(s), s)
      ensures s.workers[w] == Worker(old(s.workers[w].batch), Releasing(old(s.workers[w].stage).h, true))
      ensures Own(trace, w) == old(Own(trace, w)) + [Fail(w)]
    {
      hide Run, Safe, Own;
      Act(w, Fail(w));
    }

    /** Other workers, clients and the clock go on; worker `w` itself is suspended. */
    method Interfere(w: nat, others: seq<Action>)
      requires Valid() && w in s.workers
      modifies this
      ensures Valid() && w in s.workers && s.workers[w] == old(s.workers[w]) && Later(old(s), s)
      ensures s == Interfered(c, old(s), w, others)
      ensures Own(trace, w) == old(Own(trace, w))
    {
      hide Run, Safe, Own, Next, Enabled;
      for i := 0 to |others|
        invariant Valid() && w in s.workers && s.workers[w] == old(s.workers[w]) && Later(old(s), s)
        invariant Interfered(c, s, w, others[i..]) == Interfered(c, old(s), w, others)
        invariant Own(trace, w) == old(Own(trace, w))
      {
        assert others[i..][0] == others[i] && others[i..][1..] == others[i + 1..];
        if Enabled(c, s, others[i]) && !By(others[i], w) {
          OthersStep(c, s, others[i], w);
          OwnMore(trace, others[i], w);
          Do(others[i]);
        }
      }
      assert others[|others|..] == [];
    }

    /** One await of a handling: others go on, then the operation fails or takes effect. */
    method Step(w: nat, others: seq<Action>, fault: bool, a: Action)
      requires Valid() && w in s.workers && Handles(a) && a.w == w && At(s, a) && !a.ReadAttempts?
      modifies this
      ensures Valid() && w in s.workers && s.workers[w].batch == old(s.workers[w].batch) && Later(old(s), s)
      ensures Own(trace, w) == old(Own(trace, w)) + [if fault then Fail(w) else a]
      ensures fault && !a.Fail? ==> s.workers[w].stage == Releasing(old(s.workers[w].stage.h), true)
      ensures !fault ==>
                var before := Interfered(c, old(s), w, others);
                && Enabled(c, before, a) && s == Next(c, before, a)
                && s.workers[w].stage == NextStage(c, before, a) && Later(old(s), before)
    {
      hide Run, Safe, Own, Interfered, Next, NextStage;
      Interfere(w, others);
      if fault { Give(w); } else { Act(w, a); }
    }

    /** One step of `_ack`. */
    method AckOnce(w: nat, others: seq<Action>, fault: bool) returns (failed: bool)
      requires Valid() && w in s.workers && s.workers[w].stage.Acking? && s.workers[w].stage.done < 4
      modifies this
      ensures Valid() && w in s.workers && s.workers[w].batch == old(s.workers[w].batch) && Later(old(s), s)
      ensures failed == fault
      ensures Own(trace, w) == old(Own(trace, w)) + [if failed then Fail(w) else AckStep(w)]
      ensures failed ==> s.workers[w].stage == Releasing(old(s.workers[w].stage.h), true)
      ensures !failed ==>
                var Acking(h, done) := old(s.workers[w].stage);
                && s.workers[w].stage == (if done < 3 then Acking(h, done + 1) else Releasing(h, false))
                && h.m < s.log.nextId
                && (done == 0 ==> h.m in s.log.acked)
                && (done == 1 ==> h.m !in s.log.stream)
                && (done == 2 ==> h.m !in s.hashes.attempts)
                && (done == 3 ==> h.m !in s.hashes.due)
                && (done == 3 && h.m !in old(s.hashes.attempts) && NoPersist(others) ==> h.m !in s.hashes.attempts)
    {
      hide Safe, Next, Own, Run, Interfered;
      ghost var m := s.workers[w].stage.h.m;
      if m !in s.hashes.attempts && NoPersist(others) { StaysErased(c, s, w, others, m); }
      Interfere(w, others);
      failed := fault;
      if failed {
        Give(w);
      } else {
        AckAchieves(c, s, w);
        Act(w, AckStep(w));
      }
    }

    /** `_ack` of the message in hand, from its first step: acknowledged, deleted from the stream, and both
        counters erased.  Only another holder can write the attempts again before the end. */
    method Ack(w: nat, script: Script) returns (failed: bool)
      requires Valid() && w in s.workers && s.workers[w].stage.Acking? && s.workers[w].stage.done == 0
      modifies this
      ensures Valid() && w in s.workers && s.workers[w].batch == old(s.workers[w].batch) && Later(old(s), s)
      ensures s.workers[w].stage == Releasing(old(s.workers[w].stage.h), failed)
      ensures !failed ==>
                var m := old(s.workers[w].stage.h.m);
                && m in s.log.acked && m !in s.log.stream && m !in s.hashes.due
                && (NoPersist(script.others(ACK + 3)) ==> m !in s.hashes.attempts)
                && Own(trace, w) == old(Own(trace, w)) + Acks(w, 4)
      ensures failed ==>
                exists k | 0 <= k < 4 ::
                  script.fault(ACK + k) && Own(trace, w) == old(Own(trace, w)) + Acks(w, k) + [Fail(w)]
      ensures old(Own(trace, w)) <= Own(trace, w) && (failed ==> EndsFailed(Own(trace, w), w))
    {
      hide Safe, Next, Own, Run, Interfered;
      ghost var m := s.workers[w].stage.h.m;
      for done := 0 to 4
        invariant Valid() && w in s.workers && s.workers[w].batch == old(s.workers[w].batch) && Later(old(s), s)
        invariant s.workers[w].stage ==
                  var h := old(s.workers[w].stage.h); if done < 4 then Acking(h, done) else Releasing(h, false)
        invariant done > 0 ==> m in s.log.acked && m < s.log.nextId
        invariant done > 1 ==> m !in s.log.stream
        invariant done == 3 ==> m !in s.hashes.attempts
        invariant done == 4 ==> m !in s.hashes.due
        invariant done == 4 && NoPersist(script.others(ACK + 3)) ==> m !in s.hashes.attempts
        invariant Own(trace, w) == old(Own(trace, w)) + Acks(w, done)
      {
        assert Acks(w, done + 1) == Acks(w, done) + [AckStep(w)];
        assert Own(trace, w) + [AckStep(w)] == old(Own(trace, w)) + Acks(w, done + 1);
        failed := AckOnce(w, script.others(ACK + done), script.fault(ACK + done));
        if failed { return; }
      }
      return false;
    }

    /** `_dead_letter` of the message in hand and the ack after it: once the insert succeeds the row is there,
        with the given count, whatever becomes of the acknowledgement, which starts only then. */
    method DeadLetter(w: nat, script: Script) returns (failed: bool)
      requires Valid() && w in s.workers && s.workers[w].stage.Burying?
      modifies this
      ensures Valid() && w in s.workers && s.workers[w].batch == old(s.workers[w].batch) && Later(old(s), s)
      ensures s.workers[w].stage == Releasing(old(s.workers[w].stage.h), failed)
      ensures script.fault(BURY) ==> failed && Own(trace, w) == old(Own(trace, w)) + [Fail(w)]
      ensures !script.fault(BURY) ==>
                var Burying(h, retries) := old(s.workers[w].stage);
                && NewRow(old(s.record.dead), s.record.dead, h.m, retries)
                && old(Own(trace, w)) + [Bury(w)] <= Own(trace, w)
      ensures !failed ==>
                && old(s.workers[w].stage.h.m) in s.log.acked && old(s.workers[w].stage.h.m) !in s.log.stream
                && Own(trace, w) == old(Own(trace, w)) + [Bury(w)] + Acks(w, 4) && EndsAcked(Own(trace, w), w)
      ensures old(Own(trace, w)) <= Own(trace, w)
      ensures failed ==> EndsFailed(Own(trace, w), w) && exists k :: script.fault(k)
    {
      hide Safe, Own, Run, Interfered;
      var Burying(h, retries) := s.workers[w].stage;
      Interfere(w, script.others(BURY));
      if script.fault(BURY) {
        Give(w);
        return true;
      }
      ghost var i := |s.record.dead|;
      Act(w, Bury(w));
      assert s.record.dead[i].m == h.m && s.record.dead[i].retries == retries;
      hide Next;
      EndsWithAcks(old(Own(trace, w)), w, Bury(w));
      failed := Ack(w, script);
    }

    /** The last part of `_deliver`: the reply arrives, or does not.  A success is recorded and acknowledged; a
        retryable failure with budget left ends the handling; any other failure is dead-lettered with the
        attempts made and then acknowledged. */
    method Finish(w: nat, script: Script) returns (o: Outcome)
      requires Valid() && w in s.workers && s.workers[w].stage.Awaiting?
      modifies this
      ensures Valid() && w in s.workers && s.workers[w].batch == old(s.workers[w].batch) && Later(old(s), s)
      ensures s.workers[w].stage == Releasing(old(s.workers[w].stage.h), o.Aborted?)
      ensures var Awaiting(h, n) := old(s.workers[w].stage);
              Finishes(c, n, w, h.m, script, o, old(Own(trace, w)), old(s), Own(trace, w), s)
    {
      hide Safe, Own, Run, Interfered, Next, Later, Acks, EndsAcked, EndsFailed, NewRow, Finishes;
      var Awaiting(h, n) := s.workers[w].stage;
      ghost var own := Own(trace, w);
      if !script.fault(REPLY) { Observes(c, Interfered(c, s, w, script.others(REPLY)), w, script.reply); }
      Step(w, script.others(REPLY), script.fault(REPLY), Receive(w, script.reply));
      if script.fault(REPLY) {
        FaultFinishes(c, n, w, h.m, script, own, old(s), s);
        return Aborted;
      }
      LaterCounts(old(s), Interfered(c, old(s), w, script.others(REPLY)), h.m);
      if s.workers[w].stage.Releasing? {
        RetryFinishes(c, n, w, h.m, script, own, old(s), s);
        return Rescheduled(n);
      }
      ghost var answered := s;
      LaterCounts(old(s), answered, h.m);
      var failed := Settle(w, script);
      LaterTrans(old(s), answered, s);
      LaterCounts(answered, s, h.m);
      SettledFinishes(c, n, w, h.m, script, failed, own, old(s), answered, Own(trace, w), s);
      return if failed then Aborted else Acknowledged;
    }

    /** The acknowledgement of a success, or the dead letter and the acknowledgement of a failure. */
    method Settle(w: nat, script: Script) returns (failed: bool)
      requires Valid() && w in s.workers
      requires s.workers[w].stage.Burying? || (s.workers[w].stage.Acking? && s.workers[w].stage.done == 0)
      modifies this
      ensures Valid() && w in s.workers && s.workers[w].batch == old(s.workers[w].batch) && Later(old(s), s)
      ensures s.workers[w].stage == Releasing(old(s.workers[w].stage.h), failed)
      ensures old(Own(trace, w)) <= Own(trace, w)
      ensures !failed ==>
                var stage := old(s.workers[w].stage);
                && stage.h.m in s.log.acked && stage.h.m !in s.log.stream
                && Own(trace, w) ==
                   (if stage.Acking? then old(Own(trace, w)) else old(Own(trace, w)) + [Bury(w)]) + Acks(w, 4)
                && (stage.Burying? ==> NewRow(old(s.record.dead), s.record.dead, stage.h.m, stage.retries))
      ensures failed ==> EndsFailed(Own(trace, w), w) && exists k :: script.fault(k)
    {
      hide Safe, Own, Run, Interfered, Next, Later, Acks, EndsAcked, EndsFailed, NewRow;
      if s.workers[w].stage.Acking? {
        failed := Ack(w, script);
      } else {
        failed := DeadLetter(w, script);
      }
    }

    /** The request itself.  `thrown` means it could not be built. */
    method SendOnce(w: nat, script: Script) returns (o: Outcome, thrown: bool)
      requires Valid() && w in s.workers && s.workers[w].stage.Sending?
      modifies this
      ensures Valid() && w in s.workers && s.workers[w].batch == old(s.workers[w].batch) && Later(old(s), s)
      ensures s.workers[w].stage ==
              var h := old(s.workers[w].stage.h); if thrown then Salvaging(h) else Releasing(h, o.Aborted?)
      ensures var Sending(h, n) := old(s.workers[w].stage);
              Requested(c, n, w, h.m, script, o, thrown, old(Own(trace, w)), old(s), Own(trace, w), s)
    {
      hide Safe, Own, Run, Interfered, Next, Later, Finishes, Requested;
      var Sending(h, n) := s.workers[w].stage;
      ghost var own := Own(trace, w);
      Step(w, script.others(SEND), false, Request(w, script.sendable));
      if !script.sendable {
        UnbuiltRequests(c, n, w, h.m, script, own, old(s), s);
        return Aborted, true;
      }
      ghost var sent := s;
      LaterCounts(old(s), sent, h.m);
      o := Finish(w, script);
      LaterTrans(old(s), sent, s);
      FinishRequests(c, n, w, h.m, script, o, own, old(s), sent, Own(trace, w), s);
      thrown := false;
    }

    /** The second half of `_deliver`: the attempt is persisted, then its due time, and only then the request
        is sent; an error at either write sends nothing.  `thrown` means the request could not be built,
        which is the exception that `_handle` catches. */
    method Replay(w: nat, script: Script) returns (o: Outcome, thrown: bool)
      requires Valid() && w in s.workers && s.workers[w].stage.Persisting?
      modifies this
      ensures Valid() && w in s.workers && s.workers[w].batch == old(s.workers[w].batch) && Later(old(s), s)
      ensures s.workers[w].stage ==
              var h := old(s.workers[w].stage.h); if thrown then Salvaging(h) else Releasing(h, o.Aborted?)
      ensures var Persisting(h, n) := old(s.workers[w].stage);
              Replayed(c, n, w, h.m, script, o, thrown, old(Own(trace, w)), old(s), Own(trace, w), s)
    {
      hide Safe, Own, Run, Interfered, Next, Later, Replayed, Requested;
      var Persisting(h, n) := s.workers[w].stage;
      ghost var own := Own(trace, w);
      Step(w, script.others(PERSIST), script.fault(PERSIST), PersistAttempts(w));
      if script.fault(PERSIST) {
        FaultReplays(c, n, w, h.m, script, own, old(s), Own(trace, w), s);
        return Aborted, false;
      }
      ghost var persisted := s;
      Step(w, script.others(SCHEDULE), script.fault(SCHEDULE), PersistDue(w));
      LaterTrans(old(s), persisted, s);
      if script.fault(SCHEDULE) {
        FaultReplays(c, n, w, h.m, script, own, old(s), Own(trace, w), s);
        return Aborted, false;
      }
      ghost var scheduled := s;
      LaterCounts(old(s), scheduled, h.m);
      o, thrown := SendOnce(w, script);
      LaterTrans(old(s), scheduled, s);
      RequestReplays(c, n, w, h.m, script, o, thrown, own, old(s), scheduled, Own(trace, w), s);
    }

    /** The middle of `_deliver`: the attempts are read and the entry is judged. */
    method Decide(w: nat, script: Script) returns (o: Outcome, thrown: bool)
      requires Valid() && w in s.workers && s.workers[w].stage.Counting?
      modifies this
      ensures Valid() && w in s.workers && s.workers[w].batch == old(s.workers[w].batch) && Later(old(s), s)
      ensures s.workers[w].stage ==
              var h := old(s.workers[w].stage.h); if thrown then Salvaging(h) else Releasing(h, o.Aborted?)
      ensures Decided(c, Interfered(c, old(s), w, script.others(ATTEMPTS)), w, old(s.workers[w].stage.h.m), script,
                      o, thrown, old(Own(trace, w)), old(s), Own(trace, w), s)
    {
      hide Safe, Own, Run, Interfered, Next, Later, Acks, EndsAcked, NewRow, Replayed, Decided;
      var h := s.workers[w].stage.h;
      Interfere(w, script.others(ATTEMPTS));
      ghost var read := s;
      LaterCounts(old(s), read, h.m);
      if script.fault(ATTEMPTS) {
        Give(w);
        LaterTrans(old(s), read, s);
        FaultDecides(c, read, w, h.m, script, old(Own(trace, w)), old(s), s);
        return Aborted, false;
      }
      JudgedStage(c, s, w, script.verdict);
      hide Concluded, NextStage, Enabled;
      Act(w, ReadAttempts(w, Concluded(c, s, h.m, script.verdict)));
      LaterTrans(old(s), read, s);
      ghost var judged := s;
      LaterCounts(old(s), judged, h.m);
      if s.workers[w].stage.Salvaging? {
        UnreadableDecides(c, read, w, h.m, script, old(Own(trace, w)), old(s), s);
        return Aborted, true;
      }
      hide EndsFailed;
      if s.workers[w].stage.Burying? {
        var failed := DeadLetter(w, script);
        o, thrown := if failed then Aborted else Acknowledged, false;
        if !script.fault(BURY) {
          NewRowLater(old(s.record.dead), judged.record.dead, s.record.dead, h.m, read.hashes.Attempts(h.m));
        }
        BurialDecides(c, read, w, h.m, script, failed, old(Own(trace, w)), old(s), Own(trace, w), s);
      } else {
        o, thrown := Replay(w, script);
        ReplayDecides(c, read, w, h.m, script, o, thrown, old(Own(trace, w)), old(s), judged, Own(trace, w), s);
      }
      LaterTrans(old(s), judged, s);
    }

    /** `_deliver` on a message whose lease was just taken: it is put off exactly when its due time is still to
        come, and otherwise decided on.  `thrown` is the exception for a malformed entry. */
    method Deliver(w: nat, script: Script) returns (o: Outcome, thrown: bool)
      requires Valid() && w in s.workers && s.workers[w].stage.CheckingDue?
      modifies this
      ensures Valid() && w in s.workers && s.workers[w].batch == old(s.workers[w].batch) && Later(old(s), s)
      ensures s.workers[w].stage ==
              var h := old(s.workers[w].stage.h); if thrown then Salvaging(h) else Releasing(h, o.Aborted?)
      ensures !o.Skipped? && old(Own(trace, w)) <= Own(trace, w)
      ensures var m := old(s.workers[w].stage.h.m);
              && (!thrown && o.Acknowledged? ==> m in s.log.acked && m !in s.log.stream)
              && (!thrown && o.Rescheduled? ==>
                    && 1 <= o.attempts <= c.maxRetries && script.reply == Retryable
                    && s.record.Retried(m) > old(s.record.Retried(m)))
              && (!thrown && o.Aborted? ==> exists k :: script.fault(k))
      ensures script.fault(DUE) ==> !thrown && o.Aborted? && EndsFailed(Own(trace, w), w)
      ensures var m, due := old(s.workers[w].stage.h.m), Interfered(c, old(s), w, script.others(DUE));
              && due.workers[w].stage.CheckingDue?
              && (o.NotDue? <==> !script.fault(DUE) && m in due.hashes.due && due.hashes.due[m] > due.now)
              && (o.NotDue? ==> !thrown && Own(trace, w) == old(Own(trace, w)) + [ReadDue(w)])
              && (!script.fault(DUE) && !o.NotDue? ==>
                    && Enabled(c, due, ReadDue(w)) && Later(old(s), Next(c, due, ReadDue(w)))
                    && Decided(c, AtAttempts(c, due, w, script), w, m, script, o, thrown,
                               old(Own(trace, w)) + [ReadDue(w)], Next(c, due, ReadDue(w)), Own(trace, w), s))
    {
      hide Safe, Own, Run, Interfered, Next, Later, Decided;
      Step(w, script.others(DUE), script.fault(DUE), ReadDue(w));
      if script.fault(DUE) { return Aborted, false; }
      if s.workers[w].stage.Releasing? { return NotDue, false; }
      ghost var due := s;
      LaterCounts(old(s), due, s.workers[w].stage.h.m);
      o, thrown := Decide(w, script);
      DecidedBasics(c, AtAttempts(c, Interfered(c, old(s), w, script.others(DUE)), w, script), w,
                   old(s.workers[w].stage.h.m), script, o, thrown, old(Own(trace, w)) + [ReadDue(w)], due,
                   Own(trace, w), s);
      LaterTrans(old(s), due, s);
    }

    /** The `except` branch of `_handle`: a malformed entry is dead-lettered and acknowledged. */
    method Malformed(w: nat, script: Script) returns (failed: bool)
      requires Valid() && w in s.workers && s.workers[w].stage.Salvaging?
      modifies this
      ensures Valid() && w in s.workers && s.workers[w].batch == old(s.workers[w].batch) && Later(old(s), s)
      ensures s.workers[w].stage == Releasing(old(s.workers[w].stage.h), failed)
      ensures old(Own(trace, w)) <= Own(trace, w)
      ensures !failed ==>
                && old(s.workers[w].stage.h.m) in s.log.acked && old(s.workers[w].stage.h.m) !in s.log.stream
                && Own(trace, w) == old(Own(trace, w)) + [Salvage(w)] + [Bury(w)] + Acks(w, 4)
                && EndsAcked(Own(trace, w), w)
      ensures failed ==> EndsFailed(Own(trace, w), w) && exists k :: script.fault(k)
    {
      hide Safe, Own, Run, Interfered, Next, Later, Acks, EndsAcked;
      Step(w, script.others(SALVAGE), script.fault(SALVAGE), Salvage(w));
      if script.fault(SALVAGE) { return true; }
      ghost var salvaged := s;
      failed := DeadLetter(w, script);
      LaterTrans(old(s), salvaged, s);
    }

    /** `_handle` on the first message of the batch, whatever happens around it.  It is passed over exactly when
        the lease is refused and put off exactly when its due time is still to come; otherwise it is carried to
        the end that `Concluding` says, and without an infrastructure error it is acknowledged, with its
        terminal record, or uses up one attempt. */
    method Handle(w: nat, script: Script) returns (o: Outcome)
      requires Valid() && w in s.workers && s.workers[w].stage.Idle? && s.workers[w].batch != []
      modifies this
      ensures Valid() && w in s.workers && s.workers[w].stage.Idle? && Later(old(s), s)
      ensures s.workers[w].batch == if o.Aborted? then [] else old(s.workers[w].batch)[1..]
      ensures Handling(w, script, o, old(Own(trace, w)), Own(trace, w))
      ensures o.Skipped? <==> LeaseRefused(c, old(s), w, script, old(s.workers[w].batch)[0])
      ensures o.NotDue? <==>
              var m, due := old(s.workers[w].batch)[0], AtDue(c, old(s), w, script);
              && !LeaseRefused(c, old(s), w, script, m) && !script.fault(DUE)
              && m in due.hashes.due && due.hashes.due[m] > due.now
      ensures !o.Skipped? && !o.NotDue? && !script.fault(DUE) && !script.fault(ATTEMPTS) ==>
                var m, due := old(s.workers[w].batch)[0], AtDue(c, old(s), w, script);
                && w in due.workers && due.workers[w].stage.CheckingDue?
                && Concluding(c, AtAttempts(c, due, w, script), w, m, script, o,
                              old(Own(trace, w)) + [Acquire(w, true)] + [ReadDue(w)], Own(trace, w), s)
      ensures o.Acknowledged? ==>
                var m := old(s.workers[w].batch)[0];
                m in s.log.acked && m !in s.log.stream && s.record.Terminal(m)
      ensures o.Rescheduled? ==>
                && 1 <= o.attempts <= c.maxRetries && script.reply == Retryable
                && s.record.Retried(old(s.workers[w].batch)[0]) > old(s.record.Retried(s.workers[w].batch[0]))
      ensures o.Aborted? ==> exists k :: script.fault(k)
    {
      hide Safe, Own, Run, Interfered, Next, Later, Concluding, Handling;
      ghost var m, own := s.workers[w].batch[0], Own(trace, w);
      Interfere(w, script.others(LEASE));
      ghost var asked := s;
      TakeLease(w, script.answered);
      LaterTrans(old(s), asked, s);
      if s.workers[w].stage.Idle? {
        SkippedHandles(w, script, own);
        return Skipped;
      }
      HeldAtDue(c, old(s), w, script);
      ghost var taken := s;
      LaterCounts(old(s), taken, m);
      o := Leased(w, script, own);
      LaterTrans(old(s), taken, s);
      ghost var settled := s;
      LetGo(w, script.others(RELEASE), script.released);
      LaterTrans(old(s), settled, s);
      LaterCounts(settled, s, m);
      if o.Acknowledged? { StaysDeleted(c, settled, s, m); AckedIsTerminal(c, s, m); }
      if !o.NotDue? && !script.fault(DUE) && !script.fault(ATTEMPTS) {
        ConcludingLater(c, AtAttempts(c, AtDue(c, old(s), w, script), w, script), w, m, script, o,
                        own + [Acquire(w, true)] + [ReadDue(w)], Own(trace, w), settled, s);
      }
    }

    /** The part of `_handle` between taking and giving back the lease.  `own` are the worker's actions before
        the lease was taken. */
    method Leased(w: nat, script: Script, ghost own: seq<Action>) returns (o: Outcome)
      requires Valid() && w in s.workers && s.workers[w].stage.CheckingDue?
      requires Own(trace, w) == own + [Acquire(w, true)]
      modifies this
      ensures Valid() && w in s.workers && s.workers[w].batch == old(s.workers[w].batch) && Later(old(s), s)
      ensures s.workers[w].stage == Releasing(old(s.workers[w].stage.h), o.Aborted?) && !o.Skipped?
      ensures Handling(w, script, o, own, Own(trace, w) + [Release(w, script.released)])
      ensures var m, due := old(s.workers[w].stage.h.m), Interfered(c, old(s), w, script.others(DUE));
              && due.workers[w].stage.CheckingDue?
              && (o.NotDue? <==> !script.fault(DUE) && m in due.hashes.due && due.hashes.due[m] > due.now)
              && (!o.NotDue? && !script.fault(DUE) && !script.fault(ATTEMPTS) ==>
                    Concluding(c, AtAttempts(c, due, w, script), w, m, script, o,
                               own + [Acquire(w, true)] + [ReadDue(w)],
                               Own(trace, w) + [Release(w, script.released)], s))
              && (o.Acknowledged? ==> m in s.log.acked && m !in s.log.stream)
              && (o.Rescheduled? ==>
                    && 1 <= o.attempts <= c.maxRetries && script.reply == Retryable
                    && s.record.Retried(m) > old(s.record.Retried(m)))
      ensures o.Aborted? ==> exists k :: script.fault(k)
    {
      hide Safe, Own, Run, Interfered, Next, Later, Acks, Decided, Concluding, EndsAcked, EndsFailed;
      ghost var m, due := s.workers[w].stage.h.m, Interfered(c, s, w, script.others(DUE));
      var thrown: bool;
      o, thrown := Deliver(w, script);
      ghost var delivered, o0, mid := s, o, Own(trace, w);
      if thrown {
        var failed := Malformed(w, script);
        o := if failed then Aborted else Acknowledged;
        LaterTrans(old(s), delivered, s);
      }
      LaterSuccess(delivered, s, thrown);
      assert Settled(w, o0, thrown, mid, o, Own(trace, w));
      hide Settled;
      if o.NotDue? || script.fault(DUE) {
        UndecidedHandles(w, script, o, own, Own(trace, w));
      } else {
        ghost var read, before := AtAttempts(c, due, w, script), Next(c, due, ReadDue(w));
        SettledHandles(c, read, w, m, script, o0, thrown, own, before, mid, delivered, o, Own(trace, w));
        if !script.fault(ATTEMPTS) {
          SettledConcludes(c, read, w, m, script, o0, thrown, own + [Acquire(w, true)] + [ReadDue(w)], before, mid,
                           delivered, o, Own(trace, w), s);
        }
      }
    }

    /** `acquire_lock` for the first message of the batch; without the lease the message is passed over. */
    method TakeLease(w: nat, answered: bool)
      requires Valid() && w in s.workers && s.workers[w].stage.Idle? && s.workers[w].batch != []
      modifies this
      ensures Valid() && w in s.workers && Later(old(s), s) && s == Next(c, old(s), Acquire(w, answered))
      ensures var batch := old(s.workers[w].batch);
              if old(s.locks.Leased(s.workers[w].batch[0], s.now)) || !answered
              then s.workers[w] == Worker(batch[1..], Idle)
              else s.workers[w].batch == batch && s.workers[w].stage.CheckingDue? && s.workers[w].stage.h.m == batch[0]
      ensures Own(trace, w) == old(Own(trace, w)) + [Acquire(w, answered)]
    {
      hide Safe, Own, Run, NextLog, NextHashes, NextRecord;
      OwnMore(trace, Acquire(w, answered), w);
      Do(Acquire(w, answered));
    }

    /** `release_lock` in the `finally` clause; after an error the rest of the batch is dropped. */
    method LetGo(w: nat, others: seq<Action>, applied: bool)
      requires Valid() && w in s.workers && s.workers[w].stage.Releasing? && s.workers[w].batch != []
      modifies this
      ensures Valid() && w in s.workers && Later(old(s), s)
      ensures s.workers[w] ==
              Worker(if old(s.workers[w].stage).aborted then [] else old(s.workers[w].batch)[1..], Idle)
      ensures Own(trace, w) == old(Own(trace, w)) + [Release(w, applied)]
    {
      hide Safe, Own, Run, Interfered, NextLog, NextHashes, NextRecord, Later;
      Interfere(w, others);
      ghost var before := s;
      OwnMore(trace, Release(w, applied), w);
      Do(Release(w, applied));
      LaterTrans(old(s), before, s);
    }

    /** `Handle`, as far as the batch is concerned. */
    method HandleNext(w: nat, script: Script) returns (o: Outcome)
      requires Valid() && w in s.workers && s.workers[w].stage.Idle? && s.workers[w].batch != []
      modifies this
      ensures Valid() && w in s.workers && s.workers[w].stage.Idle? && Later(old(s), s)
      ensures s.workers[w].batch == if o.Aborted? then [] else old(s.workers[w].batch)[1..]
      ensures Handling(w, script, o, old(Own(trace, w)), Own(trace, w))
      ensures o.Acknowledged? ==> old(s.workers[w].batch)[0] in s.log.acked
      ensures o.Rescheduled? ==>
                s.record.Retried(old(s.workers[w].batch)[0]) > old(s.record.Retried(s.workers[w].batch[0]))
    {
      hide Safe, Own, Run, Later, Next, LeaseRefused, AtDue, AtAttempts, Handling, Concluding;
      o := Handle(w, script);
    }

    /** Handle the batch in hand, one message after the other; an aborted handling drops the rest.  `marks` are
        the worker's own actions before, between and after the handlings. */
    method HandleBatch(w: nat, scripts: nat -> Script) returns (outcomes: seq<Outcome>, ghost marks: seq<seq<Action>>)
      requires Valid() && w in s.workers && s.workers[w].stage.Idle?
      modifies this
      ensures Valid() && w in s.workers && s.workers[w] == Worker([], Idle) && Later(old(s), s)
      ensures |outcomes| <= |old(s.workers[w].batch)|
      ensures Completed(outcomes) ==> |outcomes| == |old(s.workers[w].batch)|
      ensures Handlings(w, scripts, outcomes, marks) && |marks| == |outcomes| + 1
      ensures marks[0] == old(Own(trace, w)) && marks[|outcomes|] == Own(trace, w)
      ensures Effected(old(s.workers[w].batch), outcomes, old(s), s)
    {
      outcomes, marks := [], [Own(trace, w)];
      ghost var batch := s.workers[w].batch;
      LaterTrivially(s);
      assert Progress(w, scripts, batch, outcomes, marks, batch, s, s);
      hide Safe, Own, Run, Later, Next, Handling, Progress;
      while s.workers[w].batch != []
        invariant Valid() && w in s.workers && s.workers[w].stage.Idle? && Later(old(s), s)
        invariant Progress(w, scripts, batch, outcomes, marks, s.workers[w].batch, old(s), s)
        invariant marks != [] && marks[0] == old(Own(trace, w)) && marks[|marks| - 1] == Own(trace, w)
        decreases |s.workers[w].batch|
      {
        ghost var before, rest := s, s.workers[w].batch;
        var o := HandleNext(w, scripts(|outcomes|));
        LaterTrans(old(s), before, s);
        ProgressSnoc(w, scripts, batch, outcomes, marks, rest, old(s), before, s, o, Own(trace, w));
        outcomes, marks := outcomes + [o], marks + [Own(trace, w)];
      }
      ProgressMeans(w, scripts, batch, outcomes, marks, [], old(s), s);
    }

    /** `_tick`: up to sixteen new entries are fetched and handled, then the idle pending ones Redis hands out.
        Either fetch may fail and an aborted handling is an error too; each of these ends the tick.  Others act
        while each fetch is awaited. */
    method Tick(w: nat, beforeRead: seq<Action>, readFails: bool, beforeClaim: seq<Action>, claimFails: bool,
                ids: seq<nat>, scripts: nat -> Script)
      returns (first: seq<Outcome>, reclaimed: seq<Outcome>,
               ghost marks: seq<seq<Action>>, ghost marks': seq<seq<Action>>)
      requires Valid() && w in s.workers && s.workers[w] == Worker([], Idle)
      modifies this
      ensures Valid() && w in s.workers && s.workers[w] == Worker([], Idle)
      ensures readFails ==> first == [] && reclaimed == [] && Own(trace, w) == old(Own(trace, w))
      ensures !readFails ==>
                var log := Interfered(c, old(s), w, beforeRead).log;
                && log.delivered <= log.nextId
                && var waiting: nat := log.nextId - log.delivered;
                   var count := if waiting < 16 then waiting else 16;
                   && |first| <= count && (Completed(first) ==> |first| == count)
                   && Handlings(w, scripts, first, marks) && |marks| == |first| + 1
                   && marks[0] == old(Own(trace, w)) + [ReadNew(w, count)]
                   && forall i | 0 <= i < |first| && first[i].Acknowledged? :: log.delivered + i in s.log.acked
      ensures !readFails && !(Completed(first) && !claimFails) ==>
                reclaimed == [] && Own(trace, w) == marks[|first|]
      ensures !readFails && Completed(first) && !claimFails ==>
                || (!Claimable(c, s, ids) && reclaimed == [] && Own(trace, w) == marks[|first|])
                || (&& |reclaimed| <= |ids| <= 64 && (Completed(reclaimed) ==> |reclaimed| == |ids|)
                    && Handlings(w, Afterwards(scripts), reclaimed, marks') && |marks'| == |reclaimed| + 1
                    && marks'[0] == marks[|first|] + [Claim(w, ids)] && Own(trace, w) == marks'[|reclaimed|]
                    && forall i | 0 <= i < |reclaimed| && reclaimed[i].Acknowledged? :: ids[i] in s.log.acked)
    {
      hide Safe, Own, Run, Later, Next, Claimable, Handlings, Interfered;
      first, reclaimed, marks, marks' := [], [], [], [];
      Interfere(w, beforeRead);
      if readFails { return; }
      first, marks := ReadPhase(w, scripts);
      if !Completed(first) { return; }
      ghost var read := s;
      Interfere(w, beforeClaim);
      LaterCounts(read, s, 0);
      if claimFails || !Claimable(c, s, ids) { return; }
      ghost var waited := s;
      reclaimed, marks' := ClaimPhase(w, ids, scripts);
      LaterCounts(waited, s, 0);
    }

    /** The first half of a tick. */
    method ReadPhase(w: nat, scripts: nat -> Script) returns (first: seq<Outcome>, ghost marks: seq<seq<Action>>)
      requires Valid() && w in s.workers && s.workers[w] == Worker([], Idle)
      modifies this
      ensures Valid() && w in s.workers && s.workers[w] == Worker([], Idle) && Later(old(s), s)
      ensures old(s.log.delivered) <= old(s.log.nextId)
      ensures var waiting: nat := old(s.log.nextId) - old(s.log.delivered);
              var count := if waiting < 16 then waiting else 16;
              && |first| <= count && (Completed(first) ==> |first| == count)
              && Handlings(w, scripts, first, marks) && |marks| == |first| + 1
              && marks[0] == old(Own(trace, w)) + [ReadNew(w, count)] && marks[|first|] == Own(trace, w)
      ensures forall i | 0 <= i < |first| && first[i].Acknowledged? :: old(s.log.delivered) + i in s.log.acked
    {
      hide Safe, Own, Run, Later, Next, Handlings;
      FetchNew(w);
      ghost var fetched := s;
      first, marks := HandleBatch(w, scripts);
      LaterTrans(old(s), fetched, s);
    }

    /** The second half of a tick. */
    method ClaimPhase(w: nat, ids: seq<nat>, scripts: nat -> Script)
      returns (reclaimed: seq<Outcome>, ghost marks: seq<seq<Action>>)
      requires Valid() && w in s.workers && s.workers[w] == Worker([], Idle) && Claimable(c, s, ids)
      modifies this
      ensures Valid() && w in s.workers && s.workers[w] == Worker([], Idle) && Later(old(s), s)
      ensures |reclaimed| <= |ids| <= 64 && (Completed(reclaimed) ==> |reclaimed| == |ids|)
      ensures Handlings(w, Afterwards(scripts), reclaimed, marks) && |marks| == |reclaimed| + 1
      ensures marks[0] == old(Own(trace, w)) + [Claim(w, ids)] && marks[|reclaimed|] == Own(trace, w)
      ensures forall i | 0 <= i < |reclaimed| && reclaimed[i].Acknowledged? :: ids[i] in s.log.acked
    {
      assert |ids| <= 64;
      hide Safe, Own, Run, Later, Next, Claimable, Handlings, Afterwards;
      FetchIdle(w, ids);
      ghost var claimed := s;
      reclaimed, marks := HandleBatch(w, Afterwards(scripts));
      LaterTrans(old(s), claimed, s);
    }

    /** XREADGROUP: the next undelivered entries, in order. */
    method FetchNew(w: nat)
      requires Valid() && w in s.workers && s.workers[w] == Worker([], Idle)
      modifies this
      ensures Valid() && w in s.workers && s.workers[w].stage.Idle? && Later(old(s), s)
      ensures old(s.log.delivered) <= old(s.log.nextId)
      ensures var waiting: nat := old(s.log.nextId) - old(s.log.delivered);
              var count := if waiting < 16 then waiting else 16;
              && |s.workers[w].batch| == count && s.log.delivered == old(s.log.delivered) + count
              && Own(trace, w) == old(Own(trace, w)) + [ReadNew(w, count)]
      ensures forall i | 0 <= i < |s.workers[w].batch| :: s.workers[w].batch[i] == old(s.log.delivered) + i
    {
      hide Run, Own;
      var waiting := s.log.nextId - s.log.delivered;
      var count := if waiting < READ_COUNT then waiting else READ_COUNT;
      OwnMore(trace, ReadNew(w, count), w);
      Do(ReadNew(w, count));
    }

    /** XAUTOCLAIM: pending entries that have been idle long enough. */
    method FetchIdle(w: nat, ids: seq<nat>)
      requires Valid() && w in s.workers && s.workers[w] == Worker([], Idle) && Claimable(c, s, ids)
      modifies this
      ensures Valid() && w in s.workers && s.workers[w] == Worker(ids, Idle) && Later(old(s), s)
      ensures Own(trace, w) == old(Own(trace, w)) + [Claim(w, ids)]
    {
      hide Run, Own, Safe, Later;
      OwnMore(trace, Claim(w, ids), w);
      Do(Claim(w, ids));
    }
  }
}
