/** The observer's record of the replay queue is what happened: each note in it is an action of the run. */
module QueueObserver {
  import opened OfflineQueue
  import opened QueueSafety
  import opened QueueBudget

  datatype Note = Succeeds | Buries | Persists | Sends

  /** The action is about the message in its worker's hand, and of the noted kind. */
  predicate Noted(s: State, a: Action, m: nat, note: Note) {
    && At(s, a) && Concerns(s, a, m)
    && match note
       case Succeeds => a.Receive? && a.reply == Success
       case Buries => a.Bury?
       case Persists => a.PersistAttempts?
       case Sends => a.Request? && a.sendable
  }

  predicate Buried(record: Record, m: nat) {
    exists i | 0 <= i < |record.dead| :: record.dead[i].m == m
  }

  function SendNow(c: Config, s: State, a: Action): Send
    requires c.Valid() && At(s, a) && a.Request?
  {
    Send(s.now, s.workers[a.w].stage.n, c.Backoff(s.workers[a.w].stage.n))
  }

  /** What one action adds to the record. */
  lemma {:induction false} NotedStep(c: Config, s: State, a: Action, m: nat)
    requires c.Valid() && Enabled(c, s, a)
    ensures var r, r' := s.record, Next(c, s, a).record;
            && (m in r'.succeeded <==> m in r.succeeded || Noted(s, a, m, Succeeds))
            && (Buried(r', m) <==> Buried(r, m) || Noted(s, a, m, Buries))
            && (m in r'.first <==> m in r.first || Noted(s, a, m, Persists))
            && (m in r'.first ==> r'.first[m] == if m in r.first then r.first[m] else s.now)
            && r'.Sends(m) == r.Sends(m) + if Noted(s, a, m, Sends) then [SendNow(c, s, a)] else []
  {
    RepliesNoted(c, s, a, m);
    PersistsNoted(c, s, a, m);
    RequestsNoted(c, s, a, m);
    hide NextRecord, NextLog, NextHashes, NextLocks, NextWorker, Noted;
  }

  lemma {:induction false} RepliesNoted(c: Config, s: State, a: Action, m: nat)
    requires c.Valid() && Enabled(c, s, a)
    ensures var r, r' := s.record, NextRecord(c, s, a);
            && (m in r'.succeeded <==> m in r.succeeded || Noted(s, a, m, Succeeds))
            && (Buried(r', m) <==> Buried(r, m) || Noted(s, a, m, Buries))
  {
    if a.Bury? { BuriedSnoc(s.record, NextRecord(c, s, a), m); }
    hide Buried;
  }

  lemma {:induction false} PersistsNoted(c: Config, s: State, a: Action, m: nat)
    requires c.Valid() && Enabled(c, s, a)
    ensures var r, r' := s.record, NextRecord(c, s, a);
            && (m in r'.first <==> m in r.first || Noted(s, a, m, Persists))
            && (m in r'.first ==> r'.first[m] == if m in r.first then r.first[m] else s.now)
  {
  }

  lemma {:induction false} RequestsNoted(c: Config, s: State, a: Action, m: nat)
    requires c.Valid() && Enabled(c, s, a)
    ensures NextRecord(c, s, a).Sends(m) ==
            s.record.Sends(m) + if Noted(s, a, m, Sends) then [SendNow(c, s, a)] else []
  {
  }

  lemma BuriedSnoc(r: Record, r': Record, m: nat)
    requires |r'.dead| == |r.dead| + 1 && r'.dead[..|r.dead|] == r.dead
    ensures Buried(r', m) <==> Buried(r, m) || r'.dead[|r.dead|].m == m
  {
    assert forall i | 0 <= i < |r.dead| :: r'.dead[i] == r.dead[i];
  }

  /** The sends of the message among the first `n` actions of a run. */
  ghost function SendsIn(c: Config, states: seq<State>, actions: seq<Action>, n: nat, m: nat): seq<Send>
    requires c.Valid() && n <= |actions| && |states| == |actions| + 1
  {
    if n == 0 then []
    else
      SendsIn(c, states, actions, n - 1, m)
      + if Noted(states[n - 1], actions[n - 1], m, Sends) then [SendNow(c, states[n - 1], actions[n - 1])] else []
  }

  /** One of the first `n` actions is of the noted kind. */
  ghost predicate Occurs(states: seq<State>, actions: seq<Action>, n: nat, m: nat, note: Note)
    requires n <= |actions| && |states| == |actions| + 1
  {
    exists i | 0 <= i < n :: Noted(states[i], actions[i], m, note)
  }

  /** The first persist among the first `n` actions came at time `t`. */
  ghost predicate FirstPersist(states: seq<State>, actions: seq<Action>, n: nat, m: nat, t: real)
    requires n <= |actions| && |states| == |actions| + 1
  {
    exists i: nat | i < n ::
      Noted(states[i], actions[i], m, Persists) && states[i].now == t && !Occurs(states, actions, i, m, Persists)
  }

  ghost predicate Faithful(c: Config, states: seq<State>, actions: seq<Action>, n: nat, m: nat)
    requires c.Valid() && n <= |actions| && |states| == |actions| + 1
  {
    var r := states[n].record;
    && r.Sends(m) == SendsIn(c, states, actions, n, m)
    && (m in r.succeeded <==> Occurs(states, actions, n, m, Succeeds))
    && (Buried(r, m) <==> Occurs(states, actions, n, m, Buries))
    && (m in r.first <==> Occurs(states, actions, n, m, Persists))
    && (m in r.first ==> FirstPersist(states, actions, n, m, r.first[m]))
  }

  lemma {:induction false} OccursStep(states: seq<State>, actions: seq<Action>, n: nat, m: nat, note: Note)
    requires n < |actions| && |states| == |actions| + 1
    ensures Occurs(states, actions, n + 1, m, note) <==>
            Occurs(states, actions, n, m, note) || Noted(states[n], actions[n], m, note)
  {
    hide Noted;
  }

  lemma {:induction false} FaithfulUpTo(c: Config, states: seq<State>, actions: seq<Action>, n: nat, now: real, m: nat)
    requires Run(c, states, actions) && states[0] == Initial(now) && n <= |actions|
    ensures Faithful(c, states, actions, n, m)
  {
    if n > 0 {
      FaithfulUpTo(c, states, actions, n - 1, now, m);
      assert Stepped(c, states, actions, n - 1);
      NotedStep(c, states[n - 1], actions[n - 1], m);
      OccursStep(states, actions, n - 1, m, Succeeds);
      OccursStep(states, actions, n - 1, m, Buries);
      OccursStep(states, actions, n - 1, m, Persists);
      hide Noted, Next, Enabled, Buried, Run, Occurs;
    }
  }

  /** In every run: the recorded sends are the requests of the run in order with their times, attempts and
      backoffs; a message is recorded as succeeded exactly when a 2xx reply to it arrived, has a dead-letter
      row exactly when one was committed, and its first persist time is that of the first such action. */
  lemma RecordIsHistory(c: Config, states: seq<State>, actions: seq<Action>, now: real, m: nat)
    requires Run(c, states, actions) && states[0] == Initial(now)
    ensures var r, n := states[|actions|].record, |actions|;
            && r.Sends(m) == SendsIn(c, states, actions, n, m)
            && (m in r.succeeded <==> Occurs(states, actions, n, m, Succeeds))
            && (r.Terminal(m) <==> Occurs(states, actions, n, m, Succeeds) || Occurs(states, actions, n, m, Buries))
            && (m in r.first <==> Occurs(states, actions, n, m, Persists))
            && (m in r.first ==> FirstPersist(states, actions, n, m, r.first[m]))
  {
    FaithfulUpTo(c, states, actions, |actions|, now, m);
    hide Occurs, FirstPersist, SendsIn;
  }
}
