/** The controlled study's collector: the cooperative worker pool of benchmarks/study_measurement.py, the
    schedule and the collection loop of benchmarks/run_study.py, and the loader's check of
    benchmarks/study_analysis.py. */
module StudyCollector {
  import opened Collections

  // ---- The worker pool ----

  function Upto(count: nat): seq<nat> { seq(count, i requires 0 <= i < count => i + 1) }

  ghost predicate Ascending(s: seq<nat>) {
    forall i, j | 0 <= i < j < |s| :: s[i] <= s[j]
  }

  /** The identifiers handed out so far are exactly those finished and those in flight, and while some are
      left no worker has stopped. */
  ghost predicate PoolOk(count: nat, size: nat, unstarted: nat, next: nat, flight: seq<nat>, results: seq<nat>) {
    && 1 <= next <= count + 1
    && unstarted + |flight| <= size
    && (next <= count ==> unstarted + |flight| == size)
    && Distinct(results + flight)
    && (forall id :: id in results + flight <==> 1 <= id < next)
  }

  lemma FinishOne(count: nat, size: nat, unstarted: nat, next: nat, flight: seq<nat>, results: seq<nat>, k: nat)
    requires PoolOk(count, size, unstarted, next, flight, results) && k < |flight|
    ensures next <= count ==> PoolOk(count, size, unstarted, next + 1, flight[k := next], results + [flight[k]])
    ensures next > count ==> PoolOk(count, size, unstarted, next, flight[..k] + flight[k + 1..], results + [flight[k]])
  {
    var id := flight[k];
    var all := results + flight;
    assert all[|results| + k] == id;
    if next <= count {
      var flight' := flight[k := next];
      var all' := results + [id] + flight';
      assert next !in all;
      forall i, j | 0 <= i < j < |all'| ensures all'[i] != all'[j] {
        var n := |results|;
        var i0 := if i < n then i else if i == n then n + k else i - 1;
        var j0 := if j < n then j else if j == n then n + k else j - 1;
        if i != n + 1 + k { assert all'[i] == all[i0]; } else { assert all'[i] == next; }
        if j != n + 1 + k { assert all'[j] == all[j0]; } else { assert all'[j] == next; }
        assert i != n + 1 + k && j != n + 1 + k ==> i0 != j0;
        assert all[i0] in all && all[j0] in all;
      }
      forall x ensures x in all' <==> 1 <= x < next + 1 {
        if x in all {
          var i :| 0 <= i < |all| && all[i] == x;
          if i < |results| { assert all'[i] == x; }
          else if i == |results| + k { assert all'[|results|] == x; }
          else { assert all'[i + 1] == x; }
        }
        if x == next { assert all'[|results| + 1 + k] == x; }
        if x in all' && x != next {
          assert x in results || x == id || x in flight;
        }
      }
    } else {
      var flight' := flight[..k] + flight[k + 1..];
      var all' := results + [id] + flight';
      var n := |results|;
      forall i, j | 0 <= i < j < |all'| ensures all'[i] != all'[j] {
        var i0 := if i < n then i else if i == n then n + k else if i - 1 < n + k then i - 1 else i;
        var j0 := if j < n then j else if j == n then n + k else if j - 1 < n + k then j - 1 else j;
        assert all'[i] == all[i0] && all'[j] == all[j0] && i0 != j0;
      }
      forall x ensures x in all' <==> x in all {
        if x in all {
          var i :| 0 <= i < |all| && all[i] == x;
          if i < n { assert all'[i] == x; }
          else if i == n + k { assert all'[n] == x; }
          else if i < n + k { assert all'[i + 1] == x; }
          else { assert all'[i] == x; }
        }
      }
    }
  }

  lemma StartOne(count: nat, size: nat, unstarted: nat, next: nat, flight: seq<nat>, results: seq<nat>)
    requires PoolOk(count, size, unstarted, next, flight, results) && unstarted > 0
    ensures next <= count ==> PoolOk(count, size, unstarted - 1, next + 1, flight + [next], results)
    ensures next > count ==> PoolOk(count, size, unstarted - 1, next, flight, results)
  {
    var all := results + flight;
    assert results + (flight + [next]) == all + [next];
    assert next !in all;
  }

  /** Requests sent and not yet answered. */
  function InFlight(log: seq<bool>): int {
    if log == [] then 0 else InFlight(log[..|log| - 1]) + if log[|log| - 1] then 1 else -1
  }

  /** At every point between 0 and `limit` requests are in flight. */
  ghost predicate Bounded(log: seq<bool>, limit: nat) {
    forall n | 0 <= n <= |log| :: 0 <= InFlight(log[..n]) <= limit
  }

  lemma BoundedSnoc(log: seq<bool>, sent: bool, limit: nat)
    requires Bounded(log, limit) && 0 <= InFlight(log) + (if sent then 1 else -1) <= limit
    ensures InFlight(log + [sent]) == InFlight(log) + if sent then 1 else -1
    ensures Bounded(log + [sent], limit)
  {
    var longer := log + [sent];
    assert longer[..|log|] == log;
    forall n | 0 <= n <= |longer| ensures 0 <= InFlight(longer[..n]) <= limit {
      if n <= |log| { assert longer[..n] == log[..n]; } else { assert longer[..n] == longer; }
    }
  }

  /** `measure_block`: the workers run cooperatively, `pick` decides which of them starts or
      finishes next, and the rows are returned in the order of their identifiers.  `log` records each request
      sent (true) and answered (false): each of 1..count is measured once, and at no point are more than
      `min(count, concurrency)` in flight. */
  method MeasureBlock(count: nat, concurrency: nat, pick: nat -> nat, sort: seq<nat> -> seq<nat>)
    returns (rows: seq<nat>, log: seq<bool>)
    requires concurrency > 0
    requires forall s: seq<nat> :: multiset(sort(s)) == multiset(s) && Ascending(sort(s))
    ensures rows == Upto(count)
    ensures |log| == 2 * count && Bounded(log, if count < concurrency then count else concurrency)
  {
    var size := if count < concurrency then count else concurrency;
    var unstarted: nat := size;
    var next: nat := 1;
    var flight: seq<nat>, results: seq<nat> := [], [];
    var turn := 0;
    log := [];
    while unstarted > 0 || flight != []
      invariant PoolOk(count, size, unstarted, next, flight, results)
      invariant Bounded(log, size) && InFlight(log) == |flight| && |log| == 2 * |results| + |flight|
      decreases count + 1 - next, unstarted + |flight|
    {
      var choice := pick(turn);
      if unstarted > 0 && (flight == [] || choice % 2 == 0) {
        StartOne(count, size, unstarted, next, flight, results);
        unstarted := unstarted - 1;
        if next <= count {
          flight := flight + [next];
          next := next + 1;
          BoundedSnoc(log, true, size);
          log := log + [true];
        }
      } else {
        var k := choice / 2 % |flight|;
        FinishOne(count, size, unstarted, next, flight, results, k);
        results := results + [flight[k]];
        BoundedSnoc(log, false, size);
        log := log + [false];
        if next <= count {
          flight := flight[k := next];
          next := next + 1;
          BoundedSnoc(log, true, size);
          log := log + [true];
        } else {
          flight := flight[..k] + flight[k + 1..];
        }
      }
      turn := turn + 1;
    }
    assert results + flight == results;
    rows := sort(results);
    assert |multiset(rows)| == |multiset(results)|;
    SortedIsUpto(results, rows, count);
  }

  lemma SortedIsUpto(results: seq<nat>, rows: seq<nat>, count: nat)
    requires Distinct(results) && (forall id :: id in results <==> 1 <= id < count + 1)
    requires multiset(rows) == multiset(results) && Ascending(rows)
    ensures rows == Upto(count)
  {
    var all := Upto(count);
    forall id ensures id in all <==> id in results {
      if 1 <= id <= count { assert all[id - 1] == id; }
    }
    assert Elements(all) == Elements(results);
    PermutationOfDistinct(rows, results);
    forall id ensures id in rows <==> 1 <= id <= count {
      assert id in rows <==> id in Elements(rows);
      assert id in results <==> id in Elements(results);
    }
    StrictIsUpto(rows, count);
  }

  ghost predicate Enumerates(rows: seq<nat>, count: nat) {
    Distinct(rows) && Ascending(rows) && forall id :: id in rows <==> 1 <= id <= count
  }

  lemma LastIsCount(rows: seq<nat>, count: nat)
    requires Enumerates(rows, count) && count > 0
    ensures rows != [] && rows[|rows| - 1] == count
  {
    assert count in rows;
    var i :| 0 <= i < |rows| && rows[i] == count;
    assert rows[|rows| - 1] in rows;
    assert i < |rows| - 1 ==> rows[i] <= rows[|rows| - 1];
  }

  lemma InitEnumerates(rows: seq<nat>, count: nat)
    requires Enumerates(rows, count) && count > 0 && rows != [] && rows[|rows| - 1] == count
    ensures Enumerates(rows[..|rows| - 1], count - 1)
  {
    var init := rows[..|rows| - 1];
    assert rows == init + [count];
    forall id ensures id in init <==> 1 <= id <= count - 1 {
      assert id in rows <==> id in init || id == count;
      if id in init {
        var j :| 0 <= j < |init| && init[j] == id;
        assert rows[j] != rows[|rows| - 1];
      }
    }
  }

  lemma FirstIsIn(s: seq<nat>)
    requires s != []
    ensures s[0] in s
  {
  }

  lemma {:induction false} StrictIsUpto(rows: seq<nat>, count: nat)
    requires Enumerates(rows, count)
    ensures rows == Upto(count)
    decreases count
  {
    if count == 0 {
      if rows != [] { FirstIsIn(rows); }
    } else {
      LastIsCount(rows, count);
      InitEnumerates(rows, count);
      hide Enumerates;
      StrictIsUpto(rows[..|rows| - 1], count - 1);
      assert rows == rows[..|rows| - 1] + [count];
    }
  }

  // ---- The schedule ----

  /** One block of the study: a mode measured at a position of a trial. */
  datatype Block = Block(trial: nat, position: nat, mode: string)

  /** `initial[k % m:] + initial[:k % m]`. */
  function Rotated(initial: seq<string>, k: nat): seq<string>
    requires initial != []
  {
    initial[k % |initial|..] + initial[..k % |initial|]
  }

  /** `schedule`, given the shuffled modes. */
  function Schedule(trials: nat, initial: seq<string>): seq<Block>
    requires initial != []
  {
    if trials == 0 then []
    else
      Schedule(trials - 1, initial)
      + seq(|initial|, p requires 0 <= p < |initial| => Block(trials, p + 1, Rotated(initial, trials - 1)[p]))
  }

  /** The blocks in which the mode stands at the position. */
  function Placings(blocks: seq<Block>, position: nat, mode: string): set<nat> {
    set i: nat | i < |blocks| && blocks[i].position == position && blocks[i].mode == mode
  }

  /** A trial's row of blocks adds at most one placing. */
  lemma PlacingsAppend(blocks: seq<Block>, row: seq<Block>, position: nat, mode: string)
    requires position < |row| && forall i | 0 <= i < |row| :: row[i].position == i + 1
    ensures |Placings(blocks + row, position + 1, mode)| ==
            |Placings(blocks, position + 1, mode)| + if row[position].mode == mode then 1 else 0
  {
    var before, at: nat := Placings(blocks, position + 1, mode), |blocks| + position;
    forall i: nat | |blocks| <= i < |blocks + row| ensures (blocks + row)[i] == row[i - |blocks|] {}
    assert Placings(blocks + row, position + 1, mode) == if row[position].mode == mode then before + {at} else before;
  }

  /** How many numbers below `t` leave the remainder `r`. */
  function Residues(t: nat, m: nat, r: nat): nat
    requires m > 0
  {
    if t == 0 then 0 else Residues(t - 1, m, r) + if (t - 1) % m == r then 1 else 0
  }

  lemma {:induction false} ResiduesAt(t: nat, m: nat, r: nat, q: nat, e: nat)
    requires r < m && e < m && t == q * m + e
    ensures Residues(t, m, r) == q + if r < e then 1 else 0
    decreases t
  {
    if e > 0 {
      QuotientIs(t - 1, m, q, e - 1);
      ResiduesAt(t - 1, m, r, q, e - 1);
    } else if q > 0 {
      assert t - 1 == (q - 1) * m + (m - 1);
      QuotientIs(t - 1, m, q - 1, m - 1);
      ResiduesAt(t - 1, m, r, q - 1, m - 1);
    }
  }

  lemma ResiduesExact(t: nat, m: nat, r: nat)
    requires r < m
    ensures Residues(t, m, r) == t / m + if r < t % m then 1 else 0
  {
    ResiduesAt(t, m, r, t / m, t % m);
  }

  lemma QuotientIs(t: nat, m: nat, q: nat, r: nat)
    requires m > 0 && r < m && t == q * m + r
    ensures t / m == q && t % m == r
  {
    var d := t / m - q;
    assert t == (t / m) * m + t % m;
    assert d * m == r - t % m;
    assert d >= 1 ==> d * m >= m;
    assert d <= -1 ==> d * m + m <= 0;
  }

  /** Where the rotation puts a mode. */
  lemma RotatedAt(initial: seq<string>, k: nat, position: nat, q: nat)
    requires Distinct(initial) && position < |initial| && q < |initial|
    ensures Rotated(initial, k)[position] == initial[q] <==>
            k % |initial| == if q >= position then q - position else q + |initial| - position
  {
    var m, r := |initial|, k % |initial|;
    assert Rotated(initial, k)[position] ==
           if r + position < m then initial[r + position] else initial[r + position - m];
  }

  /** Balance: in the schedule of any number of trials, each mode stands at each position the same number of
      times up to one, and the formula says where the extra one is. */
  lemma ScheduleBalanced(trials: nat, initial: seq<string>, position: nat, q: nat)
    requires Distinct(initial) && position < |initial| && q < |initial|
    ensures var m := |initial|;
            var shift := if q >= position then q - position else q + m - position;
            |Placings(Schedule(trials, initial), position + 1, initial[q])| ==
            trials / m + if shift < trials % m then 1 else 0
  {
    var shift := if q >= position then q - position else q + |initial| - position;
    PlacingsAreResidues(trials, initial, position, q);
    ResiduesExact(trials, |initial|, shift);
  }

  lemma {:induction false} PlacingsAreResidues(trials: nat, initial: seq<string>, position: nat, q: nat)
    requires Distinct(initial) && position < |initial| && q < |initial|
    ensures var shift := if q >= position then q - position else q + |initial| - position;
            |Placings(Schedule(trials, initial), position + 1, initial[q])| == Residues(trials, |initial|, shift)
  {
    if trials > 0 {
      PlacingsAreResidues(trials - 1, initial, position, q);
      var row := seq(|initial|, p requires 0 <= p < |initial| =>
        Block(trials, p + 1, Rotated(initial, trials - 1)[p]));
      assert Schedule(trials, initial) == Schedule(trials - 1, initial) + row;
      PlacingsAppend(Schedule(trials - 1, initial), row, position, initial[q]);
      RotatedAt(initial, trials - 1, position, q);
    } else {
      assert Placings(Schedule(0, initial), position + 1, initial[q]) == {};
    }
  }

  lemma RotatedIs(initial: seq<string>, t: nat, p: nat)
    requires p < |initial|
    ensures Rotated(initial, t)[p] == initial[(t + p) % |initial|]
  {
    var m, q, r := |initial|, t / |initial|, t % |initial|;
    assert t == q * m + r;
    if r + p < m {
      QuotientIs(t + p, m, q, r + p);
    } else {
      assert t + p == (q + 1) * m + (r + p - m);
      QuotientIs(t + p, m, q + 1, r + p - m);
    }
  }

  /** The whole schedule: `p` places after the start of trial `t + 1` stands position `p + 1`, with the shuffled
      modes turned by one place per trial. */
  lemma {:induction false} ScheduleExact(trials: nat, initial: seq<string>, t: nat, p: nat)
    requires t < trials && p < |initial|
    ensures |Schedule(trials, initial)| == trials * |initial| && t * |initial| + p < trials * |initial|
    ensures Schedule(trials, initial)[t * |initial| + p] == Block(t + 1, p + 1, initial[(t + p) % |initial|])
  {
    var m, earlier := |initial|, Schedule(trials - 1, initial);
    assert trials * m == (trials - 1) * m + m;
    if trials > 1 {
      ScheduleExact(trials - 1, initial, if t < trials - 1 then t else 0, p);
    }
    if t == trials - 1 {
      RotatedIs(initial, t, p);
    } else {
      assert Schedule(trials, initial)[t * m + p] == earlier[t * m + p];
    }
  }

  // ---- Planned identities, collection and the loader's check ----

  datatype Phase = Warmup | Measured

  /** What the manifest fixes for a whole study. */
  datatype Workload = Workload(condition: string, warmup: nat, requests: nat)

  datatype Identity = Identity(trial: nat, condition: string, mode: string, phase: Phase, request: nat)

  function PhaseRows(block: Block, w: Workload, phase: Phase, ids: seq<nat>): seq<Identity> {
    seq(|ids|, i requires 0 <= i < |ids| => Identity(block.trial, w.condition, block.mode, phase, ids[i]))
  }

  function BlockRows(block: Block, w: Workload): seq<Identity> {
    PhaseRows(block, w, Warmup, Upto(w.warmup)) + PhaseRows(block, w, Measured, Upto(w.requests))
  }

  /** The identities a schedule plans, in order. */
  function Planned(blocks: seq<Block>, w: Workload): seq<Identity> {
    if blocks == [] then []
    else Planned(blocks[..|blocks| - 1], w) + BlockRows(blocks[|blocks| - 1], w)
  }

  // ---- Which identities are planned ----

  /** The identity at place `i` of a block: first the warm-up requests from 1 on, then the measured ones from 1 on. */
  function PlaceIn(block: Block, w: Workload, i: nat): Identity {
    if i < w.warmup then Identity(block.trial, w.condition, block.mode, Warmup, i + 1)
    else Identity(block.trial, w.condition, block.mode, Measured, i - w.warmup + 1)
  }

  /** Where the rows of the `b`-th block start. */
  function Start(b: nat, w: Workload): nat { b * (w.warmup + w.requests) }

  /** Each block's rows, in this order, one block after the other. */
  ghost predicate InOrder(rows: seq<Identity>, blocks: seq<Block>, w: Workload) {
    && |rows| == Start(|blocks|, w)
    && forall b: nat, i: nat | b < |blocks| && i < w.warmup + w.requests :: InPlace(rows, blocks[b], w, b, i)
  }

  predicate InPlace(rows: seq<Identity>, block: Block, w: Workload, b: nat, i: nat) {
    Start(b, w) + i < |rows| && rows[Start(b, w) + i] == PlaceIn(block, w, i)
  }

  /** A request of some block: its numbers run from 1 to the count of its own phase. */
  ghost predicate Requested(x: Identity, blocks: seq<Block>, w: Workload) {
    && (exists b :: 0 <= b < |blocks| && blocks[b].trial == x.trial && blocks[b].mode == x.mode)
    && x.condition == w.condition && 1 <= x.request
    && (x.phase == Warmup ==> x.request <= w.warmup) && (x.phase == Measured ==> x.request <= w.requests)
  }

  lemma BlockMembers(block: Block, w: Workload, x: Identity)
    ensures x in BlockRows(block, w) <==> Requested(x, [block], w)
    ensures |BlockRows(block, w)| == w.warmup + w.requests
    ensures forall i | 0 <= i < w.warmup + w.requests :: BlockRows(block, w)[i] == PlaceIn(block, w, i)
  {
    var rows := BlockRows(block, w);
    if Requested(x, [block], w) {
      assert rows[if x.phase == Warmup then x.request - 1 else w.warmup + x.request - 1] == x;
    }
    if x in rows {
      var i :| 0 <= i < |rows| && rows[i] == x;
      assert [block][0].trial == x.trial && [block][0].mode == x.mode;
    }
  }

  lemma RequestedSnoc(blocks: seq<Block>, block: Block, w: Workload, x: Identity)
    ensures Requested(x, blocks + [block], w) <==> Requested(x, blocks, w) || Requested(x, [block], w)
  {
    var all := blocks + [block];
    if Requested(x, blocks, w) {
      var b :| 0 <= b < |blocks| && blocks[b].trial == x.trial && blocks[b].mode == x.mode;
      assert all[b] == blocks[b];
    }
    if Requested(x, [block], w) { assert all[|blocks|] == [block][0]; }
    if Requested(x, all, w) {
      var b :| 0 <= b < |all| && all[b].trial == x.trial && all[b].mode == x.mode;
      if b < |blocks| { assert blocks[b] == all[b]; } else { assert [block][0] == all[b]; }
    }
  }

  /** The plan holds exactly the requests of its blocks. */
  lemma {:induction false} PlannedMembers(blocks: seq<Block>, w: Workload, x: Identity)
    ensures x in Planned(blocks, w) <==> Requested(x, blocks, w)
  {
    if blocks != [] {
      var init, last := blocks[..|blocks| - 1], blocks[|blocks| - 1];
      PlannedMembers(init, w, x);
      BlockMembers(last, w, x);
      RequestedSnoc(init, last, w, x);
      assert blocks == init + [last];
    }
  }

  lemma StartsApart(b: nat, n: nat, w: Workload)
    requires b < n
    ensures Start(b, w) + w.warmup + w.requests <= Start(n, w)
    ensures Start(b + 1, w) == Start(b, w) + w.warmup + w.requests
  {
    var size, more: nat := w.warmup + w.requests, n - b - 1;
    assert n * size == b * size + more * size + size;
    assert (b + 1) * size == b * size + size;
  }

  lemma InOrderSnoc(rows: seq<Identity>, blocks: seq<Block>, w: Workload, block: Block, more: seq<Identity>)
    requires InOrder(rows, blocks, w) && |more| == w.warmup + w.requests
    requires forall i | 0 <= i < w.warmup + w.requests :: more[i] == PlaceIn(block, w, i)
    ensures InOrder(rows + more, blocks + [block], w)
  {
    hide Start, PlaceIn;
    var all, n := blocks + [block], |blocks|;
    StartsApart(n, n + 1, w);
    forall b: nat, i: nat | b < n + 1 && i < w.warmup + w.requests
      ensures InPlace(rows + more, all[b], w, b, i)
    {
      if b < n {
        assert InPlace(rows, blocks[b], w, b, i);
      } else {
        assert (rows + more)[|rows| + i] == more[i];
      }
    }
  }

  lemma {:induction false} PlannedInOrder(blocks: seq<Block>, w: Workload)
    ensures InOrder(Planned(blocks, w), blocks, w)
  {
    if blocks != [] {
      var init, last := blocks[..|blocks| - 1], blocks[|blocks| - 1];
      PlannedInOrder(init, w);
      BlockMembers(last, w, PlaceIn(last, w, 0));
      hide BlockRows, InOrder;
      InOrderSnoc(Planned(init, w), init, w, last, BlockRows(last, w));
      assert blocks == init + [last];
    }
  }

  /** A plan repeats an identity exactly when it asks for requests and two of its blocks share trial and mode. */
  lemma {:induction false} PlannedDistinctIff(blocks: seq<Block>, w: Workload)
    ensures Distinct(Planned(blocks, w)) <==> DistinctBlocks(blocks) || w.warmup + w.requests == 0
  {
    var rows := Planned(blocks, w);
    PlannedInOrder(blocks, w);
    if DistinctBlocks(blocks) {
      PlannedDistinct(blocks, w);
    } else if w.warmup + w.requests > 0 {
      hide Planned, Start;
      var a, b :| 0 <= a < b < |blocks| && blocks[a].trial == blocks[b].trial && blocks[a].mode == blocks[b].mode;
      StartsApart(a, b, w);
      assert InPlace(rows, blocks[a], w, a, 0) && InPlace(rows, blocks[b], w, b, 0);
    } else {
      assert |rows| == 0;
    }
  }

  /** `collect`: however the pool interleaves in each block, the rows are the planned ones in planned order: block by
      block first the warm-up requests and then the measured ones, each phase numbered from 1 to its own count. */
  method Collect(blocks: seq<Block>, w: Workload, concurrency: nat,
                 pick: nat -> nat, sort: seq<nat> -> seq<nat>) returns (rows: seq<Identity>)
    requires concurrency > 0
    requires forall s: seq<nat> :: multiset(sort(s)) == multiset(s) && Ascending(sort(s))
    ensures rows == Planned(blocks, w)
    ensures |rows| == |blocks| * (w.warmup + w.requests) && InOrder(rows, blocks, w)
    ensures forall x :: x in rows <==>
              && (exists b :: 0 <= b < |blocks| && blocks[b].trial == x.trial && blocks[b].mode == x.mode)
              && x.condition == w.condition
              && 1 <= x.request <= if x.phase == Warmup then w.warmup else w.requests
  {
    PlannedInOrder(blocks, w);
    forall x { PlannedMembers(blocks, w, x); }
    rows := [];
    for i := 0 to |blocks|
      invariant rows == Planned(blocks[..i], w)
    {
      var warm, _ := MeasureBlock(w.warmup, concurrency, pick, sort);
      var measured, _ := MeasureBlock(w.requests, concurrency, pick, sort);
      rows := rows + PhaseRows(blocks[i], w, Warmup, warm);
      rows := rows + PhaseRows(blocks[i], w, Measured, measured);
      assert blocks[..i + 1][..i] == blocks[..i];
    }
    assert blocks[..|blocks|] == blocks;
  }

  /** Adding identities to the expected set; a repetition is an error. */
  method Expect(expected: set<Identity>, ids: seq<Identity>, ghost before: seq<Identity>)
    returns (ok: bool, expected': set<Identity>)
    requires expected == Elements(before) && Distinct(before)
    ensures ok <==> Distinct(before + ids)
    ensures ok ==> expected' == Elements(before + ids)
  {
    expected' := expected;
    for i := 0 to |ids|
      invariant Distinct(before + ids[..i]) && expected' == Elements(before + ids[..i])
    {
      var now, later := before + ids[..i], before + ids[..i + 1];
      assert later == now + [ids[i]];
      if ids[i] in expected' {
        RepeatsLater(before, ids, i);
        return false, expected';
      }
      expected' := expected' + {ids[i]};
    }
    assert ids[..|ids|] == ids;
    ok := true;
  }

  lemma RepeatsLater(before: seq<Identity>, ids: seq<Identity>, i: nat)
    requires i < |ids| && ids[i] in before + ids[..i]
    ensures !Distinct(before + ids)
  {
    var all, now := before + ids, before + ids[..i];
    var j :| 0 <= j < |now| && now[j] == ids[i];
    assert all[j] == now[j] && all[|before| + i] == ids[i];
  }

  lemma DistinctPrefix(a: seq<Identity>, b: seq<Identity>)
    requires Distinct(a + b)
    ensures Distinct(a)
  {
    forall i, j | 0 <= i < j < |a| ensures a[i] != a[j] {
      assert (a + b)[i] == a[i] && (a + b)[j] == a[j];
    }
  }

  lemma {:induction false} PlannedPrefix(blocks: seq<Block>, i: nat, w: Workload)
    requires i <= |blocks| && Distinct(Planned(blocks, w))
    ensures Distinct(Planned(blocks[..i], w))
    decreases |blocks|
  {
    if i < |blocks| {
      var init := blocks[..|blocks| - 1];
      DistinctPrefix(Planned(init, w), BlockRows(blocks[|blocks| - 1], w));
      PlannedPrefix(init, i, w);
      assert init[..i] == blocks[..i];
    } else {
      assert blocks[..i] == blocks;
    }
  }

  lemma SameElements(rows: seq<Identity>, blocks: seq<Block>, w: Workload)
    ensures Elements(rows) == Elements(Planned(blocks, w)) <==> forall x :: x in rows <==> Requested(x, blocks, w)
  {
    forall x ensures x in Elements(Planned(blocks, w)) <==> Requested(x, blocks, w) { PlannedMembers(blocks, w, x); }
    assert forall x :: x in rows <==> x in Elements(rows);
    hide Planned, Requested;
    if forall x :: x in rows <==> Requested(x, blocks, w) {
      assert Elements(rows) == Elements(Planned(blocks, w));
    }
  }

  /** The first half of the loader's check: the plan must not repeat an identity. */
  method ExpectPlan(blocks: seq<Block>, w: Workload) returns (ok: bool, expected: set<Identity>)
    ensures ok <==> Distinct(Planned(blocks, w))
    ensures ok ==> expected == Elements(Planned(blocks, w))
  {
    expected := {};
    for i := 0 to |blocks|
      invariant Distinct(Planned(blocks[..i], w))
      invariant expected == Elements(Planned(blocks[..i], w))
    {
      assert blocks[..i + 1][..i] == blocks[..i];
      ok, expected := Expect(expected, BlockRows(blocks[i], w), Planned(blocks[..i], w));
      if !ok {
        NotDistinctLater(blocks, i + 1, w);
        return;
      }
    }
    assert blocks[..|blocks|] == blocks;
    ok := true;
  }

  lemma NotDistinctLater(blocks: seq<Block>, i: nat, w: Workload)
    requires i <= |blocks| && !Distinct(Planned(blocks[..i], w))
    ensures !Distinct(Planned(blocks, w))
  {
    if Distinct(Planned(blocks, w)) { PlannedPrefix(blocks, i, w); }
  }

  lemma RejectedRow(rows: seq<Identity>, i: nat, planned: set<Identity>)
    requires i < |rows| && (rows[i] in rows[..i] || rows[i] !in planned)
    ensures !(Distinct(rows) && Elements(rows) == planned)
  {
    if rows[i] in rows[..i] {
      assert [] + rows[..i] == rows[..i] && [] + rows == rows;
      RepeatsLater([], rows, i);
    } else {
      assert rows[i] in Elements(rows);
    }
  }

  /** The second half: every row takes its own identity off the expected ones and none is left. */
  method ConsumeRows(planned: set<Identity>, rows: seq<Identity>) returns (ok: bool)
    ensures ok <==> Distinct(rows) && Elements(rows) == planned
  {
    var expected := planned;
    for i := 0 to |rows|
      invariant Distinct(rows[..i]) && Elements(rows[..i]) <= planned
      invariant expected == planned - Elements(rows[..i])
    {
      var now, later := rows[..i], rows[..i + 1];
      assert later == now + [rows[i]];
      if rows[i] !in expected {
        RejectedRow(rows, i, planned);
        return false;
      }
      expected := expected - {rows[i]};
    }
    assert rows[..|rows|] == rows;
    ok := expected == {};
    assert planned == Elements(rows) + expected;
  }

  /** The loader's check accepts exactly the permutations of the planned identities, and none when the plan
      repeats one: the rows are without repetition, they are the requests of the blocks, and no two blocks share
      trial and mode unless nothing is requested. */
  method LoadObservations(blocks: seq<Block>, w: Workload, rows: seq<Identity>) returns (ok: bool)
    ensures ok <==>
            && Distinct(Planned(blocks, w))
            && multiset(rows) == multiset(Planned(blocks, w))
    ensures ok <==>
            && (DistinctBlocks(blocks) || w.warmup + w.requests == 0)
            && Distinct(rows)
            && forall x :: x in rows <==>
                 && (exists b :: 0 <= b < |blocks| && blocks[b].trial == x.trial && blocks[b].mode == x.mode)
                 && x.condition == w.condition
                 && 1 <= x.request <= if x.phase == Warmup then w.warmup else w.requests
  {
    PlannedDistinctIff(blocks, w);
    SameElements(rows, blocks, w);
    var expected: set<Identity>;
    ok, expected := ExpectPlan(blocks, w);
    if ok {
      PermutationOfDistinct(rows, Planned(blocks, w));
      ok := ConsumeRows(expected, rows);
    }
  }

  // ---- A scheduled study is accepted ----

  lemma {:induction false} PlannedFrom(blocks: seq<Block>, w: Workload, x: Identity)
    requires x in Planned(blocks, w)
    ensures exists b | 0 <= b < |blocks| :: blocks[b].trial == x.trial && blocks[b].mode == x.mode
  {
    var last := |blocks| - 1;
    if x in BlockRows(blocks[last], w) {
      assert blocks[last].trial == x.trial && blocks[last].mode == x.mode;
    } else {
      PlannedFrom(blocks[..last], w, x);
      var b :| 0 <= b < last && blocks[..last][b].trial == x.trial && blocks[..last][b].mode == x.mode;
      assert blocks[b] == blocks[..last][b];
    }
  }

  ghost predicate DistinctBlocks(blocks: seq<Block>) {
    forall i, j | 0 <= i < j < |blocks| :: blocks[i].trial != blocks[j].trial || blocks[i].mode != blocks[j].mode
  }

  lemma BlockRowsDistinct(block: Block, w: Workload)
    ensures Distinct(BlockRows(block, w))
  {
  }

  /** A plan whose blocks differ in trial or mode repeats no identity. */
  lemma {:induction false} PlannedDistinct(blocks: seq<Block>, w: Workload)
    requires DistinctBlocks(blocks)
    ensures Distinct(Planned(blocks, w))
    decreases |blocks|
  {
    if blocks != [] {
      var init, last := blocks[..|blocks| - 1], blocks[|blocks| - 1];
      PlannedDistinct(init, w);
      var a, b := Planned(init, w), BlockRows(last, w);
      BlockRowsDistinct(last, w);
      forall i, j | 0 <= i < j < |a + b| ensures (a + b)[i] != (a + b)[j] {
        if i < |a| <= j {
          PlannedFrom(init, w, a[i]);
          var k :| 0 <= k < |init| && init[k].trial == a[i].trial && init[k].mode == a[i].mode;
          assert init[k] == blocks[k];
        }
      }
    }
  }

  lemma {:induction false} ScheduleDistinct(trials: nat, initial: seq<string>)
    requires initial != [] && Distinct(initial)
    ensures DistinctBlocks(Schedule(trials, initial))
    ensures forall i | 0 <= i < |Schedule(trials, initial)| :: Schedule(trials, initial)[i].trial <= trials
  {
    if trials > 0 {
      ScheduleDistinct(trials - 1, initial);
      RotatedDistinct(initial, trials - 1);
    }
  }

  lemma RotatedDistinct(initial: seq<string>, k: nat)
    requires initial != [] && Distinct(initial)
    ensures Distinct(Rotated(initial, k)) && |Rotated(initial, k)| == |initial|
  {
    var m, r := |initial|, k % |initial|;
    assert forall p | 0 <= p < m ::
        Rotated(initial, k)[p] == if r + p < m then initial[r + p] else initial[r + p - m];
  }

  /** Whatever the sizes, the seed and the interleavings, what the collector writes for a schedule of distinct
      modes passes the loader's check. */
  method CollectThenLoad(trials: nat, initial: seq<string>, w: Workload, concurrency: nat,
                         pick: nat -> nat, sort: seq<nat> -> seq<nat>) returns (ok: bool)
    requires concurrency > 0 && initial != [] && Distinct(initial)
    requires forall s: seq<nat> :: multiset(sort(s)) == multiset(s) && Ascending(sort(s))
    ensures ok
  {
    var blocks := Schedule(trials, initial);
    var rows := Collect(blocks, w, concurrency, pick, sort);
    ScheduleDistinct(trials, initial);
    PlannedDistinct(blocks, w);
    ok := LoadObservations(blocks, w, rows);
  }
}
