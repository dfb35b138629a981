/** gateway/offline_queue/sync_worker.py as a transition system: a bounded Redis stream with a consumer
    group, per-message attempts and due hashes, leases with random tokens, a dead-letter table, and any
    number of workers that may crash between any two actions.  One action is one Redis, database or HTTP
    operation; what a worker does between two awaits belongs to the operation before it. */
module OfflineQueue {
  import opened TokenLock

  const READ_COUNT: nat := 16
  const CLAIM_COUNT: nat := 64

  datatype Config = Config(maxDepth: nat, maxRetries: nat, schedule: seq<real>, claimIdle: real, maxAge: real) {
    /** What the settings validator enforces. */
    predicate Valid() {
      maxDepth > 0 && schedule != [] && claimIdle > 0.0 && forall i | 0 <= i < |schedule| :: schedule[i] > 0.0
    }

    function MaxAttempts(): nat { maxRetries + 1 }

    /** `_backoff_seconds`: the schedule index is clamped on both sides. */
    function Backoff(attempts: int): (b: real)
      requires Valid()
      ensures b > 0.0
      ensures attempts <= 1 ==> b == schedule[0]
      ensures attempts >= |schedule| ==> b == schedule[|schedule| - 1]
      ensures 1 <= attempts <= |schedule| ==> b == schedule[attempts - 1]
    {
      var low := if attempts - 1 > 0 then attempts - 1 else 0;
      schedule[if low < |schedule| - 1 then low else |schedule| - 1]
    }
  }

  /** A worker's claim to a message: the token it wrote and the time its lease ends. */
  datatype Hold = Hold(m: nat, token: nat, until: real)

  /** Where `_handle` and `_deliver` stand; each name is what the worker does next. */
  datatype Stage =
    | Idle
    | CheckingDue(h: Hold)
    | Counting(h: Hold)
    | Persisting(h: Hold, n: nat)
    | Scheduling(h: Hold, n: nat)
    | Sending(h: Hold, n: nat)
    | Awaiting(h: Hold, n: nat)
    | Salvaging(h: Hold)
    | Burying(h: Hold, retries: nat)
    | Acking(h: Hold, done: nat)
    | Releasing(h: Hold, aborted: bool)

  /** A worker: the messages it has fetched and not finished, first one in hand. */
  datatype Worker = Worker(batch: seq<nat>, stage: Stage)

  /** One upstream send as an observer sees it: when, as which attempt, and the backoff chosen for it. */
  datatype Send = Send(at: real, attempt: nat, backoff: real)

  /** One dead-letter row; the observer notes how many sends preceded it and whether the ack had begun. */
  datatype Row = Row(m: nat, retries: nat, sends: nat, acked: bool)

  /** The stream with its entries' timestamps, the next entry id, the first id not yet delivered, the
      pending list with the time of the last delivery, and the entries acknowledged so far. */
  datatype Log = Log(stream: map<nat, real>, nextId: nat, delivered: nat, pending: map<nat, real>, acked: set<nat>)

  datatype Hashes = Hashes(attempts: map<nat, nat>, due: map<nat, real>) {
    function Attempts(m: nat): nat { if m in attempts then attempts[m] else 0 }
  }

  /** What an observer has seen: when entries were created, 2xx replies, dead-letter rows, sends, the
      first time an attempt was persisted, and how many handlings ended in a new schedule. */
  datatype Record = Record(
    created: map<nat, real>, succeeded: set<nat>, dead: seq<Row>,
    sent: map<nat, seq<Send>>, first: map<nat, real>, retried: map<nat, nat>)
  {
    function Sends(m: nat): seq<Send> { if m in sent then sent[m] else [] }
    function Retried(m: nat): nat { if m in retried then retried[m] else 0 }

    /** A terminal record: a 2xx reply was seen, or a dead-letter row is committed. */
    predicate Terminal(m: nat) {
      m in succeeded || exists i | 0 <= i < |dead| :: dead[i].m == m
    }
  }

  datatype State = State(
    now: real, log: Log, hashes: Hashes, locks: Locks<nat>, workers: map<nat, Worker>, record: Record)

  datatype Verdict = Unreadable | Ineligible | Eligible

  datatype Reply = Success | Retryable | Fatal

  datatype Action =
    | Tick(elapsed: real)
    | Enqueue
    | Spawn(w: nat)
    | Crash(w: nat)
    | ReadNew(w: nat, count: nat)
    | Claim(w: nat, ids: seq<nat>)
    | Acquire(w: nat, answered: bool)
    | ReadDue(w: nat)
    | ReadAttempts(w: nat, verdict: Verdict)
    | PersistAttempts(w: nat)
    | PersistDue(w: nat)
    | Request(w: nat, sendable: bool)
    | Receive(w: nat, reply: Reply)
    | Salvage(w: nat)
    | Bury(w: nat)
    | AckStep(w: nat)
    | Release(w: nat, applied: bool)
    | Fail(w: nat)

  function Initial(now: real): State {
    State(now, Log(map[], 0, 0, map[], {}), Hashes(map[], map[]), Locks(map[], 0), map[],
          Record(map[], {}, [], map[], map[], map[]))
  }

  predicate At(s: State, a: Action) {
    match a
    case Tick(_) => true
    case Enqueue => true
    case Spawn(w) => w !in s.workers
    case Crash(w) => w in s.workers
    case ReadNew(w, _) => w in s.workers && s.workers[w] == Worker([], Idle)
    case Claim(w, _) => w in s.workers && s.workers[w] == Worker([], Idle)
    case Acquire(w, _) => w in s.workers && s.workers[w].stage.Idle? && s.workers[w].batch != []
    case ReadDue(w) => w in s.workers && s.workers[w].stage.CheckingDue?
    case ReadAttempts(w, _) => w in s.workers && s.workers[w].stage.Counting?
    case PersistAttempts(w) => w in s.workers && s.workers[w].stage.Persisting?
    case PersistDue(w) => w in s.workers && s.workers[w].stage.Scheduling?
    case Request(w, _) => w in s.workers && s.workers[w].stage.Sending?
    case Receive(w, _) => w in s.workers && s.workers[w].stage.Awaiting?
    case Salvage(w) => w in s.workers && s.workers[w].stage.Salvaging?
    case Bury(w) => w in s.workers && s.workers[w].stage.Burying?
    case AckStep(w) => w in s.workers && s.workers[w].stage.Acking?
    case Release(w, _) => w in s.workers && s.workers[w].stage.Releasing?
    case Fail(w) => w in s.workers && !s.workers[w].stage.Idle? && !s.workers[w].stage.Releasing?
  }

  /** When an action is possible.  An entry that is expired is never found eligible; XREADGROUP hands out
      undelivered entries in order, up to its count; XAUTOCLAIM hands out idle pending ones. */
  predicate Enabled(c: Config, s: State, a: Action) {
    && At(s, a)
    && match a
       case Tick(elapsed) => elapsed >= 0.0
       case Enqueue => |s.log.stream| < c.maxDepth
       case ReadNew(_, count) => Readable(s.log, count)
       case Claim(_, ids) => Claimable(c, s, ids)
       case ReadAttempts(w, Eligible) =>
         var m := s.workers[w].stage.h.m;
         m in s.record.created && s.now - s.record.created[m] <= c.maxAge
       case _ => true
  }

  predicate Readable(log: Log, count: nat) {
    && count <= READ_COUNT && log.delivered + count <= log.nextId
    && (count == READ_COUNT || log.delivered + count == log.nextId)
    && forall i | log.delivered <= i < log.delivered + count :: i in log.stream
  }

  predicate Claimable(c: Config, s: State, ids: seq<nat>) {
    && |ids| <= CLAIM_COUNT
    && forall i | 0 <= i < |ids| ::
         ids[i] in s.log.pending && s.now - s.log.pending[ids[i]] >= c.claimIdle && ids[i] in s.log.stream
  }

  function HandedOut(log: Log, count: nat): seq<nat> {
    seq(count, i => log.delivered + i)
  }

  // ---- What an action does to the stream ----

  function NextLog(s: State, a: Action): Log
    requires At(s, a)
  {
    var log := s.log;
    match a
    case Enqueue => log.(stream := log.stream[log.nextId := s.now], nextId := log.nextId + 1)
    case ReadNew(_, count) =>
      log.(delivered := log.delivered + count,
           pending := log.pending + map i | i in HandedOut(log, count) :: s.now)
    case Claim(_, ids) => log.(pending := log.pending + map i | i in ids :: s.now)
    case AckStep(w) =>
      // `_ack`, first XACK and then XDEL
      var Acking(h, done) := s.workers[w].stage;
      if done == 0 then log.(pending := log.pending - {h.m}, acked := log.acked + {h.m})
      else if done == 1 then log.(stream := log.stream - {h.m})
      else log
    case _ => log
  }

  // ---- What an action does to the attempts and due hashes ----

  function NextHashes(c: Config, s: State, a: Action): Hashes
    requires c.Valid() && At(s, a)
  {
    var hashes := s.hashes;
    match a
    case PersistAttempts(w) =>
      var Persisting(h, n) := s.workers[w].stage;
      hashes.(attempts := hashes.attempts[h.m := n])
    case PersistDue(w) =>
      var Scheduling(h, n) := s.workers[w].stage;
      hashes.(due := hashes.due[h.m := s.now + c.Backoff(n)])
    case AckStep(w) =>
      // `_ack`, finally the two HDELs
      var Acking(h, done) := s.workers[w].stage;
      if done == 2 then hashes.(attempts := hashes.attempts - {h.m})
      else if done > 2 then hashes.(due := hashes.due - {h.m})
      else hashes
    case _ => hashes
  }

  // ---- What an action does to the leases ----

  function NextLocks(c: Config, s: State, a: Action): Locks<nat>
    requires At(s, a)
  {
    match a
    // a lost answer leaves the lease behind
    case Acquire(w, _) => s.locks.Acquired(s.workers[w].batch[0], s.now, c.claimIdle)
    case Release(w, applied) =>
      var h := s.workers[w].stage.h;
      if applied then s.locks.Released(h.m, h.token, s.now) else s.locks
    case _ => s.locks
  }

  // ---- What the observer notes ----

  function NextRecord(c: Config, s: State, a: Action): Record
    requires c.Valid() && At(s, a)
  {
    var record := s.record;
    match a
    case Enqueue => record.(created := record.created[s.log.nextId := s.now])
    case PersistAttempts(w) =>
      var m := s.workers[w].stage.h.m;
      if m in record.first then record else record.(first := record.first[m := s.now])
    case Request(w, sendable) =>
      var Sending(h, n) := s.workers[w].stage;
      if !sendable then record
      else record.(sent := record.sent[h.m := record.Sends(h.m) + [Send(s.now, n, c.Backoff(n))]])
    case Receive(w, reply) =>
      var Awaiting(h, n) := s.workers[w].stage;
      if reply == Success then record.(succeeded := record.succeeded + {h.m})
      else if Settle(c, h, n, reply).Releasing? then record.(retried := record.retried[h.m := record.Retried(h.m) + 1])
      else record
    case Bury(w) =>
      var Burying(h, retries) := s.workers[w].stage;
      record.(dead := record.dead + [Row(h.m, retries, |record.Sends(h.m)|, h.m in s.log.acked)])
    case _ => record
  }

  // ---- What a worker does next ----

  /** The part of `_deliver` after the attempts were read and before anything is written. */
  function Judge(c: Config, h: Hold, n: nat, verdict: Verdict): Stage
    requires n > 0
  {
    if verdict == Unreadable then Salvaging(h)
    else if verdict == Ineligible || n > c.MaxAttempts() then Burying(h, n - 1)
    else Persisting(h, n)
  }

  /** The part of `_deliver` after the reply. */
  function Settle(c: Config, h: Hold, n: nat, reply: Reply): Stage {
    if reply == Success then Acking(h, 0)
    else if n >= c.MaxAttempts() || reply == Fatal then Burying(h, n)
    else Releasing(h, false)
  }

  /** The stage after an action of a worker that is handling a message. */
  function NextStage(c: Config, s: State, a: Action): Stage
    requires At(s, a) && Handles(a)
  {
    var stage := s.workers[a.w].stage;
    var h := stage.h;
    match a
    case ReadDue(_) =>
      if h.m in s.hashes.due && s.hashes.due[h.m] > s.now then Releasing(h, false) else Counting(h)
    case ReadAttempts(_, verdict) => Judge(c, h, s.hashes.Attempts(h.m) + 1, verdict)
    case PersistAttempts(_) => Scheduling(h, stage.n)
    case PersistDue(_) => Sending(h, stage.n)
    case Request(_, sendable) => if sendable then Awaiting(h, stage.n) else Salvaging(h)
    case Receive(_, reply) => Settle(c, h, stage.n, reply)
    case Salvage(_) => Burying(h, s.hashes.Attempts(h.m))
    case Bury(_) => Acking(h, 0)
    case AckStep(_) => if stage.done < 3 then Acking(h, stage.done + 1) else Releasing(h, false)
    case Fail(_) => Releasing(h, true)
  }

  /** Actions of a worker between acquiring and releasing a lease. */
  predicate Handles(a: Action) {
    a.ReadDue? || a.ReadAttempts? || a.PersistAttempts? || a.PersistDue? || a.Request? || a.Receive?
    || a.Salvage? || a.Bury? || a.AckStep? || a.Fail?
  }

  /** Dropping the entry in hand and going on with the batch. */
  function Finished(batch: seq<nat>): Worker {
    Worker(if batch == [] then [] else batch[1..], Idle)
  }

  function NextWorker(c: Config, s: State, a: Action): Worker
    requires At(s, a) && !a.Tick? && !a.Enqueue? && !a.Crash?
  {
    if Handles(a) then Worker(s.workers[a.w].batch, NextStage(c, s, a))
    else match a
      case Spawn(_) => Worker([], Idle)
      case ReadNew(_, count) => Worker(HandedOut(s.log, count), Idle)
      case Claim(_, ids) => Worker(ids, Idle)
      case Acquire(w, answered) =>
        var batch := s.workers[w].batch;
        if s.locks.Leased(batch[0], s.now) || !answered then Finished(batch)
        else Worker(batch, CheckingDue(Hold(batch[0], s.locks.nextToken, s.now + c.claimIdle)))
      case Release(w, _) =>
        if s.workers[w].stage.aborted then Worker([], Idle) else Finished(s.workers[w].batch)
  }

  function Next(c: Config, s: State, a: Action): State
    requires c.Valid() && Enabled(c, s, a)
  {
    State(
      if a.Tick? then s.now + a.elapsed else s.now,
      NextLog(s, a), NextHashes(c, s, a), NextLocks(c, s, a),
      if a.Tick? || a.Enqueue? then s.workers
      else if a.Crash? then s.workers - {a.w}
      else s.workers[a.w := NextWorker(c, s, a)],
      NextRecord(c, s, a))
  }
}
