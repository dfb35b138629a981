/** Facts about sequences that the components share. */
module Collections {
  function Min(a: int, b: int): int { if a < b then a else b }

  ghost predicate Distinct<T>(s: seq<T>) {
    forall i, j | 0 <= i < j < |s| :: s[i] != s[j]
  }

  function Elements<T>(s: seq<T>): set<T> { set x | x in s }

  lemma {:induction false} CountInDistinct<T>(s: seq<T>, x: T)
    ensures Distinct(s) ==> multiset(s)[x] == if x in s then 1 else 0
  {
    if s != [] {
      var init, last := s[..|s| - 1], s[|s| - 1];
      assert s == init + [last];
      CountInDistinct(init, x);
    }
  }

  lemma DistinctByCount<T>(s: seq<T>, i: int, j: int)
    requires 0 <= i < j < |s| && s[i] == s[j]
    ensures multiset(s)[s[i]] >= 2
  {
    assert s == s[..j] + [s[j]] + s[j + 1..];
    assert s[i] in s[..j];
  }

  /** Against a sequence without repetition, a permutation is a sequence without repetition of the same
      elements. */
  lemma PermutationOfDistinct<T>(rows: seq<T>, planned: seq<T>)
    requires Distinct(planned)
    ensures multiset(rows) == multiset(planned) <==> Distinct(rows) && Elements(rows) == Elements(planned)
  {
    forall x ensures multiset(planned)[x] == if x in planned then 1 else 0 { CountInDistinct(planned, x); }
    if Distinct(rows) && Elements(rows) == Elements(planned) {
      forall x ensures multiset(rows)[x] == multiset(planned)[x] {
        CountInDistinct(rows, x);
        assert x in rows <==> x in Elements(rows);
        assert x in planned <==> x in Elements(planned);
      }
    } else if multiset(rows) == multiset(planned) {
      assert Elements(rows) == Elements(planned) by {
        forall x ensures x in rows <==> x in planned {
          assert x in multiset(rows) <==> x in rows;
          assert x in multiset(planned) <==> x in planned;
        }
      }
      var i, j :| 0 <= i < j < |rows| && rows[i] == rows[j];
      DistinctByCount(rows, i, j);
    }
  }

  /** A sequence has as many elements as positions exactly when it repeats none. */
  lemma {:induction false} DistinctBySize<T>(s: seq<T>)
    ensures |Elements(s)| <= |s|
    ensures |Elements(s)| == |s| <==> Distinct(s)
  {
    if s != [] {
      var init, last := s[..|s| - 1], s[|s| - 1];
      DistinctBySize(init);
      assert s == init + [last];
      assert Elements(s) == Elements(init) + {last};
      if last in init {
        assert Elements(s) == Elements(init);
      } else {
        assert |Elements(s)| == |Elements(init)| + 1;
      }
    }
  }

  /** Where an element stands. */
  ghost function Places<T>(s: seq<T>, x: T): set<nat> { set i: nat | i < |s| && s[i] == x }

  /** A multiset counts the places of an element. */
  lemma {:induction false} CountPlaces<T>(s: seq<T>, x: T)
    ensures multiset(s)[x] == |Places(s, x)|
  {
    var at := Places(s, x);
    if s == [] {
      assert at == {};
    } else {
      var n: nat := |s| - 1;
      CountPlaces(s[..n], x);
      assert s == s[..n] + [s[n]];
      assert at == Places(s[..n], x) + if s[n] == x then {n} else {};
    }
  }
}
