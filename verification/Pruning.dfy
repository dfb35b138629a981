/** The reference meaning of field stripping and of array truncation, independent of the order in
    which an implementation visits fields, and the laws of the two operations. */
module Pruning {
  import opened Json
  import opened Options

  type Paths = set<seq<string>>

  /** What is left of each path of `paths` below the key `k`. */
  function Tails(paths: Paths, k: string): (r: Paths)
    ensures [] !in r
  {
    set q | q in paths && |q| > 1 && q[0] == k :: q[1..]
  }

  /** Remove, at once, every object member whose key labels from the root spell a path of `paths`.
      Arrays are transparent: their items are pruned with the same paths. */
  function Prune(doc: Json, paths: Paths): Json
    decreases doc
  {
    match doc
    case Arr(items) => Arr(seq(|items|, i requires 0 <= i < |items| => Prune(items[i], paths)))
    case Obj(m) => Obj(map k | k in m && [k] !in paths :: Prune(m[k], Tails(paths, k)))
    case _ => doc
  }

  /** Keep only the first `bound` items of every array. */
  function Truncate(doc: Json, bound: nat): Json
    decreases doc
  {
    match doc
    case Arr(items) =>
      Arr(seq(if |items| < bound then |items| else bound, i requires 0 <= i < |items| => Truncate(items[i], bound)))
    case Obj(m) => Obj(map k | k in m :: Truncate(m[k], bound))
    case _ => doc
  }

  // ---- Which access paths survive ----

  /** Some configured path is a prefix of the key labels. */
  ghost predicate Cut(paths: Paths, labels: seq<string>) {
    exists q :: q in paths && q <= labels
  }

  lemma CutBelowKey(paths: Paths, k: string, labels: seq<string>)
    requires [] !in paths && [k] !in paths
    ensures Cut(paths, [k] + labels) <==> Cut(Tails(paths, k), labels)
  {
    if Cut(paths, [k] + labels) {
      var q :| q in paths && q <= [k] + labels;
      assert q == [q[0]] + q[1..];
      assert |q| == 1 ==> q == [k];
      assert q[1..] in Tails(paths, k) && q[1..] <= labels;
    }
    if Cut(Tails(paths, k), labels) {
      var t :| t in Tails(paths, k) && t <= labels;
      var q :| q in paths && |q| > 1 && q[0] == k && q[1..] == t;
      assert q == [k] + t;
      assert q <= [k] + labels;
    }
  }

  /** Exact meaning of pruning: a path resolves in the output iff it resolves in the input and no
      configured path is a prefix of its key labels.  What it then leads to is the pruned original,
      so every surviving scalar is unchanged. */
  lemma {:induction false} PruneAccess(doc: Json, paths: Paths, path: seq<Access>)
    requires [] !in paths
    ensures Resolve(Prune(doc, paths), path).Some? <==>
            Resolve(doc, path).Some? && !Cut(paths, Labels(path))
    ensures Resolve(Prune(doc, paths), path).Some? && Resolve(doc, path).value.Scalar() ==>
            Resolve(Prune(doc, paths), path) == Resolve(doc, path)
    decreases path
  {
    if path == [] {
    } else if path[0].Index? {
      if doc.Arr? && path[0].index < |doc.items| {
        PruneAccess(doc.items[path[0].index], paths, path[1..]);
      }
    } else {
      var k := path[0].key;
      if doc.Obj? && k in doc.fields {
        if [k] in paths {
          assert [k] <= Labels(path);
        } else {
          PruneAccess(doc.fields[k], Tails(paths, k), path[1..]);
          CutBelowKey(paths, k, Labels(path[1..]));
        }
      }
    }
  }

  /** Exact meaning of truncation. */
  lemma {:induction false} TruncateAccess(doc: Json, bound: nat, path: seq<Access>)
    ensures Resolve(Truncate(doc, bound), path).Some? <==>
            Resolve(doc, path).Some? && IndicesBelow(path, bound)
    ensures Resolve(Truncate(doc, bound), path).Some? ==>
            Resolve(Truncate(doc, bound), path).value == Truncate(Resolve(doc, path).value, bound)
    decreases path
  {
    if path != [] {
      var rest := path[1..];
      assert forall i | 0 <= i < |rest| :: rest[i] == path[i + 1];
      assert IndicesBelow(path, bound) <==>
             (path[0].Index? ==> path[0].index < bound) && IndicesBelow(rest, bound) by {
        if IndicesBelow(rest, bound) && (path[0].Index? ==> path[0].index < bound) {
          forall i | 0 <= i < |path| ensures path[i].Index? ==> path[i].index < bound {
            if i > 0 { assert path[i] == rest[i - 1]; }
          }
        }
      }
      match path[0]
      case Index(i) =>
        if doc.Arr? && i < |doc.items| { TruncateAccess(doc.items[i], bound, rest); }
      case Key(k) =>
        if doc.Obj? && k in doc.fields { TruncateAccess(doc.fields[k], bound, rest); }
    }
  }

  // ---- Algebraic laws ----

  /** Pruning twice is pruning once by the union: hence order, duplicates and repetition are
      irrelevant. */
  lemma {:induction false} PruneCompose(doc: Json, first: Paths, second: Paths)
    ensures Prune(Prune(doc, first), second) == Prune(doc, first + second)
    decreases doc
  {
    match doc
    case Arr(items) =>
      forall i | 0 <= i < |items|
        ensures Prune(Prune(items[i], first), second) == Prune(items[i], first + second)
      {
        PruneCompose(items[i], first, second);
      }
    case Obj(m) =>
      forall k | k in m
        ensures Prune(Prune(m[k], Tails(first, k)), Tails(second, k)) == Prune(m[k], Tails(first + second, k))
      {
        assert Tails(first + second, k) == Tails(first, k) + Tails(second, k);
        PruneCompose(m[k], Tails(first, k), Tails(second, k));
      }
      assert Prune(Prune(doc, first), second).fields == Prune(doc, first + second).fields;
    case _ =>
  }

  lemma {:induction false} TruncateIdempotent(doc: Json, bound: nat)
    ensures Truncate(Truncate(doc, bound), bound) == Truncate(doc, bound)
    decreases doc
  {
    match doc
    case Arr(items) =>
      forall i | 0 <= i < |items| ensures Truncate(Truncate(items[i], bound), bound) == Truncate(items[i], bound) {
        TruncateIdempotent(items[i], bound);
      }
    case Obj(m) =>
      forall k | k in m ensures Truncate(Truncate(m[k], bound), bound) == Truncate(m[k], bound) {
        TruncateIdempotent(m[k], bound);
      }
      assert Truncate(Truncate(doc, bound), bound).fields == Truncate(doc, bound).fields;
    case _ =>
  }

  /** Stripping and truncation commute. */
  lemma {:induction false} PruneTruncateCommute(doc: Json, paths: Paths, bound: nat)
    ensures Truncate(Prune(doc, paths), bound) == Prune(Truncate(doc, bound), paths)
    decreases doc
  {
    match doc
    case Arr(items) =>
      forall i | 0 <= i < |items|
        ensures Truncate(Prune(items[i], paths), bound) == Prune(Truncate(items[i], bound), paths)
      {
        PruneTruncateCommute(items[i], paths, bound);
      }
    case Obj(m) =>
      forall k | k in m
        ensures Truncate(Prune(m[k], Tails(paths, k)), bound) == Prune(Truncate(m[k], bound), Tails(paths, k))
      {
        PruneTruncateCommute(m[k], Tails(paths, k), bound);
      }
      assert Truncate(Prune(doc, paths), bound).fields == Prune(Truncate(doc, bound), paths).fields;
    case _ =>
  }

  lemma SkeletonIdempotent(doc: Json, paths: Paths, bound: nat)
    ensures var s := Truncate(Prune(doc, paths), bound); Truncate(Prune(s, paths), bound) == s
  {
    var p := Prune(doc, paths);
    PruneTruncateCommute(p, paths, bound);
    PruneCompose(doc, paths, paths);
    assert paths + paths == paths;
    TruncateIdempotent(p, bound);
  }

  // ---- When nothing is removed ----

  /** The document has a member that `paths` names. */
  ghost predicate Hits(doc: Json, paths: Paths) {
    exists path :: Resolve(doc, path).Some? && Labels(path) in paths
  }

  /** The document has an array item at `bound` or beyond. */
  ghost predicate TooLong(doc: Json, bound: nat) {
    exists path :: Resolve(doc, path).Some? && !IndicesBelow(path, bound)
  }

  lemma HitsBelowIndex(items: seq<Json>, i: nat, paths: Paths)
    requires i < |items| && Hits(items[i], paths)
    ensures Hits(Arr(items), paths)
  {
    var path :| Resolve(items[i], path).Some? && Labels(path) in paths;
    var longer := [Index(i)] + path;
    assert longer[1..] == path;
    assert Resolve(Arr(items), longer).Some? && Labels(longer) in paths;
  }

  lemma HitsBelowKey(m: map<string, Json>, k: string, paths: Paths)
    requires k in m && ([k] in paths || Hits(m[k], Tails(paths, k)))
    ensures Hits(Obj(m), paths)
  {
    if [k] in paths {
      var longer := [Key(k)];
      assert Resolve(Obj(m), longer) == Some(m[k]);
      assert Labels(longer) == [k];
    } else {
      var path :| Resolve(m[k], path).Some? && Labels(path) in Tails(paths, k);
      var q :| q in paths && |q| > 1 && q[0] == k && q[1..] == Labels(path);
      assert q == [k] + Labels(path);
      var longer := [Key(k)] + path;
      assert longer[1..] == path;
      assert Resolve(Obj(m), longer).Some? && Labels(longer) == q;
    }
  }

  lemma {:induction false} UntouchedIfNoHit(doc: Json, paths: Paths)
    requires !Hits(doc, paths)
    ensures Prune(doc, paths) == doc
    decreases doc
  {
    match doc
    case Arr(items) =>
      forall i | 0 <= i < |items| ensures Prune(items[i], paths) == items[i] {
        if Hits(items[i], paths) { HitsBelowIndex(items, i, paths); }
        UntouchedIfNoHit(items[i], paths);
      }
    case Obj(m) =>
      forall k | k in m ensures [k] !in paths && Prune(m[k], Tails(paths, k)) == m[k] {
        if [k] in paths || Hits(m[k], Tails(paths, k)) { HitsBelowKey(m, k, paths); }
        UntouchedIfNoHit(m[k], Tails(paths, k));
      }
      assert Prune(doc, paths).fields == m;
    case _ =>
  }

  lemma {:induction false} UntouchedIfShort(doc: Json, bound: nat)
    requires !TooLong(doc, bound)
    ensures Truncate(doc, bound) == doc
    decreases doc
  {
    match doc
    case Arr(items) =>
      if |items| > bound { LongArrayIsTooLong(items, bound); }
      forall i | 0 <= i < |items| ensures Truncate(items[i], bound) == items[i] {
        if TooLong(items[i], bound) {
          var path :| Resolve(items[i], path).Some? && !IndicesBelow(path, bound);
          LongerIsTooLong(doc, Index(i), path, bound);
        }
        UntouchedIfShort(items[i], bound);
      }
    case Obj(m) =>
      forall k | k in m ensures Truncate(m[k], bound) == m[k] {
        if TooLong(m[k], bound) {
          var path :| Resolve(m[k], path).Some? && !IndicesBelow(path, bound);
          LongerIsTooLong(doc, Key(k), path, bound);
        }
        UntouchedIfShort(m[k], bound);
      }
      assert Truncate(doc, bound).fields == m;
    case _ =>
  }

  lemma LongArrayIsTooLong(items: seq<Json>, bound: nat)
    requires |items| > bound
    ensures TooLong(Arr(items), bound)
  {
    var path := [Index(bound)];
    assert path[0].Index? && Resolve(Arr(items), path) == Some(items[bound]);
    assert !IndicesBelow(path, bound);
  }

  lemma LongerIsTooLong(doc: Json, step: Access, path: seq<Access>, bound: nat)
    requires !IndicesBelow(path, bound) && Resolve(doc, [step] + path).Some?
    ensures TooLong(doc, bound)
  {
    var longer := [step] + path;
    var i :| 0 <= i < |path| && path[i].Index? && path[i].index >= bound;
    assert longer[i + 1] == path[i];
  }

  /** Pruning changes the document exactly when the document holds a member it names. */
  lemma PruneFixpoint(doc: Json, paths: Paths)
    requires [] !in paths
    ensures Prune(doc, paths) == doc <==> !Hits(doc, paths)
  {
    if Hits(doc, paths) {
      var path :| Resolve(doc, path).Some? && Labels(path) in paths;
      PruneAccess(doc, paths, path);
      assert Labels(path) <= Labels(path);
    } else {
      UntouchedIfNoHit(doc, paths);
    }
  }

  /** A skeleton equals its document exactly when no named member and no long array is there. */
  lemma SkeletonFixpoint(doc: Json, paths: Paths, bound: nat)
    requires [] !in paths
    ensures Truncate(Prune(doc, paths), bound) == doc <==> !Hits(doc, paths) && !TooLong(doc, bound)
  {
    if Hits(doc, paths) {
      var path :| Resolve(doc, path).Some? && Labels(path) in paths;
      assert Labels(path) <= Labels(path);
      PruneAccess(doc, paths, path);
      TruncateAccess(Prune(doc, paths), bound, path);
    } else if TooLong(doc, bound) {
      var path :| Resolve(doc, path).Some? && !IndicesBelow(path, bound);
      TruncateAccess(Prune(doc, paths), bound, path);
    } else {
      UntouchedIfNoHit(doc, paths);
      UntouchedIfShort(doc, bound);
    }
  }
}
