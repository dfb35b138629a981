/** gateway/middleware/network_detector.py: the classifier state shared between workers through one
    Redis key, updated by a bounded optimistic loop (WATCH, GET, MULTI, SET, EXEC). */
module NetworkDetector {
  import opened Json
  import opened Options
  import opened RttState

  const MAX_TRIES: nat := 4

  // ---- The stored text ----

  /** What the key holds: nothing, text that is not JSON, or the text of a JSON document. */
  datatype Raw = Missing | Unparsable | Text(doc: Json)

  /** Python's `float` and `int` on strings, which the decoder also accepts as numbers. */
  datatype Parsers = Parsers(floatOf: string -> Option<real>, intOf: string -> Option<int>)

  function TierName(tier: Tier): string {
    match tier
    case GOOD => "GOOD"
    case DEGRADED => "DEGRADED"
    case POOR => "POOR"
  }

  function TierOf(doc: Json): Option<Tier> {
    if doc == Str("GOOD") then Some(GOOD)
    else if doc == Str("DEGRADED") then Some(DEGRADED)
    else if doc == Str("POOR") then Some(POOR)
    else None
  }

  /** `json.dumps(asdict(state))`, up to the JSON text codec. */
  function Encode(s: State): Json {
    Obj(map[
      "ewma" := if s.ewma.Some? then Float(s.ewma.value) else Null,
      "tier" := Str(TierName(s.tier)),
      "pending_tier" := if s.pendingTier.Some? then Str(TierName(s.pendingTier.value)) else Null,
      "pending_count" := Int(s.pendingCount)])
  }

  function Get(m: map<string, Json>, key: string, default: Json): Json {
    if key in m then m[key] else default
  }

  /** `_parse_float(str(value))`: finite and nonnegative, or nothing. */
  function NonNegative(p: Parsers, doc: Json): Option<real> {
    var parsed := match doc
      case Int(i) => Some(i as real)
      case Float(r) => Some(r)
      case Str(s) => p.floatOf(s)
      case _ => None;
    if parsed.Some? && parsed.value >= 0.0 then parsed else None
  }

  /** `int(value)`, which truncates toward zero. */
  function Integer(p: Parsers, doc: Json): Option<int> {
    match doc
    case Int(i) => Some(i)
    case Float(r) => Some(if r >= 0.0 then r.Floor else -((-r).Floor))
    case Bool(b) => Some(if b then 1 else 0)
    case Str(s) => p.intOf(s)
    case _ => None
  }

  /** `_decode_state`: anything corrupt is the initial state. */
  function Decode(p: Parsers, raw: Raw): State {
    if !raw.Text? || !raw.doc.Obj? then INITIAL
    else
      var m := raw.doc.fields;
      var tier := TierOf(Get(m, "tier", Str("GOOD")));
      var pending := Get(m, "pending_tier", Null);
      var ewma := Get(m, "ewma", Null);
      var count := Integer(p, Get(m, "pending_count", Int(0)));
      if tier.None? || (pending != Null && TierOf(pending).None?)
         || (ewma != Null && NonNegative(p, ewma).None?) || count.None? then INITIAL
      else State(if ewma == Null then None else NonNegative(p, ewma), tier.value,
                 if pending == Null then None else TierOf(pending), count.value)
  }

  predicate Storable(s: State) {
    s.ewma.Some? ==> s.ewma.value >= 0.0
  }

  /** Decoding gives an encoded state back exactly when its average is not negative. */
  lemma RoundTripIffStorable(p: Parsers, s: State)
    ensures Decode(p, Text(Encode(s))) == s <==> Storable(s)
  {
  }

  /** Whatever is corrupt counts as the initial state: no JSON object, an unknown tier or pending tier, an average
      that is negative or no number, or a count that is no number. */
  lemma CorruptIsInitial(p: Parsers, raw: Raw)
    requires || !raw.Text? || !raw.doc.Obj?
             || (var m := raw.doc.fields;
                 || ("tier" in m && m["tier"] !in {Str("GOOD"), Str("DEGRADED"), Str("POOR")})
                 || ("pending_tier" in m && m["pending_tier"] !in {Null, Str("GOOD"), Str("DEGRADED"), Str("POOR")})
                 || ("ewma" in m && (m["ewma"].Arr? || m["ewma"].Obj? || m["ewma"].Bool?))
                 || ("ewma" in m && m["ewma"].Float? && m["ewma"].r < 0.0)
                 || ("pending_count" in m
                     && (m["pending_count"].Null? || m["pending_count"].Arr? || m["pending_count"].Obj?)))
    ensures Decode(p, raw) == State(None, GOOD, None, 0)
  {
  }

  lemma DecodeStorable(p: Parsers, raw: Raw)
    ensures Storable(Decode(p, raw))
  {
  }

  lemma AdvanceStorable(s: State, sample: Sample, t: Thresholds)
    requires t.Valid() && Storable(s)
    ensures Storable(Advance(s, sample, t))
  {
    if sample.Accepted() && s.ewma.Some? {
      assert t.alpha * sample.ms >= 0.0 && (1.0 - t.alpha) * s.ewma.value >= 0.0;
    }
  }

  // ---- The watched update ----

  /** Where one call of `_update_state` stands: about to watch, watching since version `seen`, holding the
      new state computed from what it read, or returned. */
  datatype Stage = Ready | Watching(seen: nat) | Loaded(seen: nat, updated: State) | Returned

  /** One call.  `failures` counts its EXECs refused so far and `born` is the key's version at the call. */
  datatype Call = Call(sample: Sample, born: nat, failures: nat, stage: Stage)

  /** The key with its modification count, all calls ever made by any worker, and what an observer knows:
      the calls in the order they committed, and where that order was and what the state was when the key
      last appeared or expired. */
  datatype World = World(
    raw: Raw, version: nat, calls: map<nat, Call>,
    order: seq<nat>, cut: nat, base: State)

  datatype Action =
    | Begin(id: nat, sample: Sample)
    | Watch(id: nat)
    | Read(id: nat)
    | Exec(id: nat)
    | Fault(id: nat, applied: bool)
    | Expire

  function Initial(p: Parsers, raw: Raw): World {
    World(raw, 0, map[], [], 0, Decode(p, raw))
  }

  predicate Enabled(w: World, a: Action) {
    match a
    case Begin(id, _) => id !in w.calls
    case Watch(id) => id in w.calls && w.calls[id].stage.Ready?
    case Read(id) => id in w.calls && w.calls[id].stage.Watching?
    case Exec(id) => id in w.calls && w.calls[id].stage.Loaded?
    case Fault(id, applied) =>
      && id in w.calls && !w.calls[id].stage.Returned?
      && (applied ==> w.calls[id].stage.Loaded? && w.calls[id].stage.seen == w.version)
    case Expire => w.raw != Missing
  }

  /** EXEC writes only when nothing modified the key since WATCH. */
  function Commit(w: World, id: nat): World
    requires id in w.calls && w.calls[id].stage.Loaded?
  {
    var c := w.calls[id];
    w.(raw := Text(Encode(c.stage.updated)), version := w.version + 1,
       calls := w.calls[id := c.(stage := Returned)], order := w.order + [id])
  }

  function Refuse(w: World, id: nat): World
    requires id in w.calls
  {
    var c := w.calls[id];
    var next := if c.failures + 1 < MAX_TRIES then Ready else Returned;
    w.(calls := w.calls[id := c.(failures := c.failures + 1, stage := next)])
  }

  function Next(p: Parsers, t: Thresholds, w: World, a: Action): World
    requires Enabled(w, a)
  {
    match a
    case Begin(id, sample) => w.(calls := w.calls[id := Call(sample, w.version, 0, Ready)])
    case Watch(id) => w.(calls := w.calls[id := w.calls[id].(stage := Watching(w.version))])
    case Read(id) =>
      var c := w.calls[id];
      w.(calls := w.calls[id := c.(stage := Loaded(c.stage.seen, Advance(Decode(p, w.raw), c.sample, t)))])
    case Exec(id) =>
      if w.calls[id].stage.seen == w.version then Commit(w, id) else Refuse(w, id)
    case Fault(id, applied) =>
      if applied then Commit(w, id) else w.(calls := w.calls[id := w.calls[id].(stage := Returned)])
    case Expire => w.(raw := Missing, version := w.version + 1, cut := |w.order|, base := INITIAL)
  }

  /** The samples of the calls in `ids`. */
  function Samples(w: World, ids: seq<nat>): seq<Sample>
    requires forall i | 0 <= i < |ids| :: ids[i] in w.calls
  {
    seq(|ids|, i requires 0 <= i < |ids| => w.calls[ids[i]].sample)
  }

  ghost predicate CallOk(p: Parsers, t: Thresholds, w: World, id: nat)
    requires id in w.calls
  {
    var c := w.calls[id];
    && c.failures <= MAX_TRIES
    && c.born + c.failures <= w.version
    && (c.failures == MAX_TRIES ==> c.stage.Returned? && id !in w.order)
    && (!c.stage.Returned? ==> id !in w.order)
    && (c.stage.Watching? || c.stage.Loaded? ==> c.born + c.failures <= c.stage.seen <= w.version)
    && (c.stage.Loaded? && c.stage.seen == w.version ==>
          c.stage.updated == Advance(Decode(p, w.raw), c.sample, t))
  }

  /** What holds in every reachable world. */
  ghost predicate Inv(p: Parsers, t: Thresholds, w: World) {
    && (forall i | 0 <= i < |w.order| :: w.order[i] in w.calls)
    && (forall i, j | 0 <= i < j < |w.order| :: w.order[i] != w.order[j])
    && w.cut <= |w.order|
    && Storable(w.base)
    && Decode(p, w.raw) == Run(w.base, Samples(w, w.order[w.cut..]), t)
    && (forall id | id in w.calls :: CallOk(p, t, w, id))
  }

  lemma CallOf(p: Parsers, t: Thresholds, w: World, id: nat)
    requires Inv(p, t, w) && id in w.calls
    ensures CallOk(p, t, w, id)
    ensures forall i, j | 0 <= i < j < |w.order| :: w.order[i] != w.order[j]
  {
  }

  lemma CommitFold(p: Parsers, t: Thresholds, w: World, id: nat)
    requires t.Valid() && Inv(p, t, w)
    requires id in w.calls && w.calls[id].stage.Loaded? && w.calls[id].stage.seen == w.version
    ensures var w' := Commit(w, id);
            && w'.order[w'.cut..] == w.order[w.cut..] + [id]
            && Decode(p, w'.raw) == Run(w'.base, Samples(w, w.order[w.cut..]) + [w.calls[id].sample], t)
  {
    assert CallOk(p, t, w, id);
    hide CallOk;
    var c, before, ids := w.calls[id], Decode(p, w.raw), w.order[w.cut..];
    assert before == Run(w.base, Samples(w, ids), t);
    assert c.stage.updated == Advance(before, c.sample, t);
    DecodeStorable(p, w.raw);
    AdvanceStorable(before, c.sample, t);
    RoundTripIffStorable(p, c.stage.updated);
    hide Decode, Advance, Encode;
    var longer := Samples(w, ids) + [c.sample];
    assert longer[..|longer| - 1] == Samples(w, ids);
  }

  lemma CommitKeepsInv(p: Parsers, t: Thresholds, w: World, id: nat)
    requires t.Valid() && Inv(p, t, w)
    requires id in w.calls && w.calls[id].stage.Loaded? && w.calls[id].stage.seen == w.version
    ensures Inv(p, t, Commit(w, id))
  {
    hide Decode, Advance, Encode;
    var w' := Commit(w, id);
    CommitFold(p, t, w, id);
    assert CallOk(p, t, w, id);
    var ids := w.order[w.cut..];
    assert Samples(w', ids + [id]) == Samples(w, ids) + [w.calls[id].sample];
    forall i | i in w'.calls ensures CallOk(p, t, w', i) {
      assert CallOk(p, t, w, i);
    }
  }

  /** Neither a commit nor an expiry: the key and the order of commits stay. */
  predicate Private(w: World, a: Action)
    requires Enabled(w, a)
  {
    !a.Expire? && !(a.Exec? && w.calls[a.id].stage.seen == w.version) && !(a.Fault? && a.applied)
  }

  lemma {:induction false} PrivateKeepsInv(p: Parsers, t: Thresholds, w: World, a: Action)
    requires t.Valid() && Inv(p, t, w) && Enabled(w, a) && Private(w, a)
    ensures Inv(p, t, Next(p, t, w, a))
  {
    hide Decode, Advance, Encode;
    var w' := Next(p, t, w, a);
    assert w'.order == w.order && w'.cut == w.cut && w'.base == w.base && w'.raw == w.raw && w'.version == w.version;
    assert Samples(w', w'.order[w'.cut..]) == Samples(w, w.order[w.cut..]);
    if a.id in w.calls { assert CallOk(p, t, w, a.id); }
    forall i | i in w'.calls ensures CallOk(p, t, w', i) {
      if i != a.id { assert CallOk(p, t, w, i); }
    }
  }

  lemma {:induction false} ExpireKeepsInv(p: Parsers, t: Thresholds, w: World)
    requires t.Valid() && Inv(p, t, w) && Enabled(w, Expire)
    ensures Inv(p, t, Next(p, t, w, Expire))
  {
    var w' := Next(p, t, w, Expire);
    assert w'.order[w'.cut..] == [];
    forall i | i in w'.calls ensures CallOk(p, t, w', i) {
      assert CallOk(p, t, w, i);
    }
  }

  lemma StepKeepsInv(p: Parsers, t: Thresholds, w: World, a: Action)
    requires t.Valid() && Inv(p, t, w) && Enabled(w, a)
    ensures Inv(p, t, Next(p, t, w, a))
  {
    hide Inv;
    if a.Expire? {
      ExpireKeepsInv(p, t, w);
    } else if Private(w, a) {
      PrivateKeepsInv(p, t, w, a);
    } else {
      CommitKeepsInv(p, t, w, a.id);
    }
  }

  /** Any interleaving of any number of workers; an action that is not possible is skipped. */
  function Execute(p: Parsers, t: Thresholds, w: World, actions: seq<Action>): World {
    if actions == [] then w
    else
      var before := Execute(p, t, w, actions[..|actions| - 1]);
      var a := actions[|actions| - 1];
      if Enabled(before, a) then Next(p, t, before, a) else before
  }

  lemma {:induction false} ExecuteKeepsInv(p: Parsers, t: Thresholds, w: World, actions: seq<Action>)
    requires t.Valid() && Inv(p, t, w)
    ensures Inv(p, t, Execute(p, t, w, actions))
  {
    if actions != [] {
      var before := Execute(p, t, w, actions[..|actions| - 1]);
      ExecuteKeepsInv(p, t, w, actions[..|actions| - 1]);
      if Enabled(before, actions[|actions| - 1]) { StepKeepsInv(p, t, before, actions[|actions| - 1]); }
    }
  }

  lemma {:induction false} NoExpiryNoCut(p: Parsers, t: Thresholds, w: World, actions: seq<Action>)
    requires Expire !in actions
    ensures Execute(p, t, w, actions).cut == w.cut && Execute(p, t, w, actions).base == w.base
  {
    if actions != [] {
      NoExpiryNoCut(p, t, w, actions[..|actions| - 1]);
      assert actions[|actions| - 1] in actions;
      hide Decode, Advance, Encode;
    }
  }

  /** No lost update: whatever the key held at first and however the calls interleave, the stored state is
      the sequential fold of `advance` over the samples committed since the key last expired, in commit
      order; no call commits twice; and a call that gave up was overtaken by at least four writes.  When the
      key never expires the fold is over all committed samples, from what the key held at first. */
  lemma NoLostUpdate(p: Parsers, t: Thresholds, raw: Raw, actions: seq<Action>)
    requires t.Valid()
    ensures var w := Execute(p, t, Initial(p, raw), actions);
            && Inv(p, t, w)
            && Decode(p, w.raw) == Run(w.base, Samples(w, w.order[w.cut..]), t)
            && (forall i, j | 0 <= i < j < |w.order| :: w.order[i] != w.order[j])
            && (forall id | id in w.calls ::
                  && w.calls[id].failures <= 4
                  && (w.calls[id].failures == 4 ==> id !in w.order && w.version - w.calls[id].born >= 4))
            && (Expire !in actions ==>
                  && (forall i | 0 <= i < |w.order| :: w.order[i] in w.calls)
                  && Decode(p, w.raw) == Run(Decode(p, raw), Samples(w, w.order), t))
  {
    var start := Initial(p, raw);
    DecodeStorable(p, raw);
    assert start.order[start.cut..] == [];
    ExecuteKeepsInv(p, t, start, actions);
    var w := Execute(p, t, start, actions);
    if Expire !in actions {
      NoExpiryNoCut(p, t, start, actions);
      assert w.order[0..] == w.order;
    }
    forall id | id in w.calls
      ensures w.calls[id].failures <= MAX_TRIES
      ensures w.calls[id].failures == MAX_TRIES ==> id !in w.order && w.version - w.calls[id].born >= MAX_TRIES
    {
      assert CallOk(p, t, w, id);
    }
  }

  // ---- The loop itself ----

  /** How a call ended; after a Redis error the EXEC may have been applied all the same. */
  datatype Ending = Committed | GaveUp | Faulted(applied: bool)

  predicate By(a: Action, id: nat) {
    !a.Expire? && a.id == id
  }

  /** The shared key as the workers' coroutines see it: between two awaits of one call, any actions of
      other calls and expiries may happen. */
  class SharedKey {
    const p: Parsers
    const t: Thresholds
    var w: World

    constructor (p: Parsers, t: Thresholds, raw: Raw)
      requires t.Valid()
      ensures this.p == p && this.t == t && w == Initial(p, raw) && Inv(p, t, w)
    {
      this.p, this.t, this.w := p, t, Initial(p, raw);
      NoLostUpdate(p, t, raw, []);
    }

    method Interfere(id: nat, others: seq<Action>)
      requires t.Valid() && Inv(p, t, w) && id in w.calls
      modifies this
      ensures Inv(p, t, w) && id in w.calls && w.calls[id] == old(w.calls[id])
      ensures id in w.order <==> id in old(w.order)
    {
      for n := 0 to |others|
        invariant Inv(p, t, w) && id in w.calls && w.calls[id] == old(w.calls[id])
        invariant id in w.order <==> id in old(w.order)
      {
        if Enabled(w, others[n]) && !By(others[n], id) {
          StepKeepsInv(p, t, w, others[n]);
          w := Next(p, t, w, others[n]);
        }
      }
    }

    method Do(a: Action)
      requires t.Valid() && Inv(p, t, w) && Enabled(w, a)
      modifies this
      ensures Inv(p, t, w) && w == Next(p, t, old(w), a)
    {
      StepKeepsInv(p, t, w, a);
      w := Next(p, t, w, a);
    }

    /** One round of the loop: watch, read, exec.  `None` means EXEC was refused. */
    method Try(id: nat, before: (seq<Action>, seq<Action>, seq<Action>), fault: (bool, bool, bool), lost: bool)
      returns (r: Option<Ending>)
      requires t.Valid() && Inv(p, t, w)
      requires id in w.calls && w.calls[id].stage.Ready? && w.calls[id].failures < MAX_TRIES
      modifies this
      ensures Inv(p, t, w) && id in w.calls && w.calls[id].sample == old(w.calls[id].sample)
      ensures r.None? ==>
                && w.calls[id].failures == old(w.calls[id].failures) + 1 && id !in w.order
                && w.calls[id].stage == if w.calls[id].failures < MAX_TRIES then Ready else Returned
      ensures r.Some? ==>
                && w.calls[id].stage.Returned? && w.calls[id].failures == old(w.calls[id].failures)
                && r.value != GaveUp && (id in w.order <==> r.value == Committed || r.value.applied)
      ensures r.Some? && r.value.Faulted? ==> (fault.0 || fault.1 || fault.2) && (r.value.applied ==> fault.2 && lost)
    {
      hide Inv, Decode, Advance, Encode;
      var refusals := w.calls[id].failures;
      CallOf(p, t, w, id);
      Interfere(id, before.0);
      if fault.0 { Do(Fault(id, false)); return Some(Faulted(false)); }
      Do(Watch(id));
      Interfere(id, before.1);
      if fault.1 { Do(Fault(id, false)); return Some(Faulted(false)); }
      Do(Read(id));
      Interfere(id, before.2);
      if fault.2 {
        var applied := lost && w.calls[id].stage.seen == w.version;
        Do(Fault(id, applied));
        if applied { assert w.order[|w.order| - 1] == id; }
        return Some(Faulted(applied));
      }
      Do(Exec(id));
      if w.calls[id].failures == refusals {
        assert w.order[|w.order| - 1] == id;
        return Some(Committed);
      }
      return None;
    }

    /** `_update_state`.  `others(k)` is what happens before the `k`-th await of this call completes, `fault(k)`
        whether Redis fails there, and `lost(n)` whether a failure at the `n`-th EXEC loses only its answer,
        if nothing has overtaken the call.  The call returns after at most four tries, and its sample is in
        the shared state, once, exactly when an EXEC was applied, answered or not. */
    method UpdateState(id: nat, sample: Sample, others: nat -> seq<Action>, fault: nat -> bool, lost: nat -> bool)
      returns (r: Ending)
      requires t.Valid() && Inv(p, t, w) && id !in w.calls
      modifies this
      ensures Inv(p, t, w)
      ensures id in w.calls && w.calls[id].stage.Returned? && w.calls[id].sample == sample
      ensures id in w.order <==> r == Committed || r == Faulted(true)
      ensures forall i, j | 0 <= i < j < |w.order| :: w.order[i] == id ==> w.order[j] != id
      ensures r == GaveUp <==> w.calls[id].failures == 4
      ensures r == GaveUp ==> w.version - w.calls[id].born >= 4
      ensures r.Faulted? ==> exists k :: fault(k)
      ensures r == Faulted(true) ==> exists n: nat :: fault(3 * n + 2) && lost(n)
    {
      hide Inv, Decode, Advance, Encode;
      Do(Begin(id, sample));
      CallOf(p, t, w, id);
      for n := 0 to MAX_TRIES
        invariant Inv(p, t, w) && id in w.calls && id !in w.order
        invariant w.calls[id].sample == sample && w.calls[id].failures == n
        invariant w.calls[id].stage == if n < MAX_TRIES then Ready else Returned
      {
        var k := 3 * n;
        var ending := Try(id, (others(k), others(k + 1), others(k + 2)),
                          (fault(k), fault(k + 1), fault(k + 2)), lost(n));
        if ending.Some? {
          CallOf(p, t, w, id);
          return ending.value;
        }
      }
      CallOf(p, t, w, id);
      r := GaveUp;
    }
  }
}
