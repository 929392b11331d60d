/**
 * `Collections.sort(list, comparator)` as a stable insertion sort on
 * sequences. A stable sort by a comparator that is a total preorder has
 * exactly one possible result, so this function yields the same list as the
 * library's merge sort.
 */
module StableSort {
  import opened Ordering

  /** `cmp` obeys the `Comparator` contract on the elements of `u`: sign-antisymmetric and transitive. */
  ghost predicate ComparatorOn<T>(cmp: (T, T) -> int, u: seq<T>)
  {
    && (forall a, b | a in u && b in u :: Sign(cmp(a, b)) == -Sign(cmp(b, a)))
    && (forall a, b, c {:trigger cmp(a, b), cmp(b, c), cmp(a, c)} | a in u && b in u && c in u ::
          cmp(a, b) <= 0 && cmp(b, c) <= 0 ==> cmp(a, c) <= 0)
  }

  ghost predicate Within<T>(s: seq<T>, u: seq<T>)
  {
    forall e | e in s :: e in u
  }

  /** Every element is ranked no later than every element after it. */
  ghost predicate Sorted<T>(s: seq<T>, cmp: (T, T) -> int)
  {
    forall i, j :: 0 <= i < j < |s| ==> cmp(s[i], s[j]) <= 0
  }

  /** `key` takes different values on different positions of `s`. */
  ghost predicate DistinctBy<T, K>(s: seq<T>, key: T -> K)
  {
    forall i, j :: 0 <= i < j < |s| ==> key(s[i]) != key(s[j])
  }

  /** The elements of `s` that `cmp` ranks equal to `x`, in their order in `s`. */
  function Ties<T>(s: seq<T>, x: T, cmp: (T, T) -> int): seq<T>
  {
    if s == [] then [] else (if cmp(s[0], x) == 0 then [s[0]] else []) + Ties(s[1..], x, cmp)
  }

  /** Inserts `x` after every element that is not ranked strictly after it. */
  function Insert<T>(x: T, s: seq<T>, cmp: (T, T) -> int): (r: seq<T>)
    ensures |r| == |s| + 1
  {
    if s == [] then [x]
    else if cmp(x, s[0]) < 0 then [x] + s
    else [s[0]] + Insert(x, s[1..], cmp)
  }

  /** `Collections.sort(s, cmp)`: a stable sort, specified here as insertion of each element in turn. */
  function SortBy<T>(s: seq<T>, cmp: (T, T) -> int): (r: seq<T>)
    ensures |r| == |s|
  {
    if s == [] then [] else Insert(s[|s| - 1], SortBy(s[..|s| - 1], cmp), cmp)
  }

  lemma {:induction false} InsertElements<T>(x: T, s: seq<T>, cmp: (T, T) -> int)
    ensures multiset(Insert(x, s, cmp)) == multiset(s) + multiset{x}
  {
    if s != [] && cmp(x, s[0]) >= 0 {
      InsertElements(x, s[1..], cmp);
      assert s == [s[0]] + s[1..];
    }
  }

  /** The sorted sequence is a permutation of the input. */
  lemma {:induction false} SortByPermutes<T>(s: seq<T>, cmp: (T, T) -> int)
    ensures multiset(SortBy(s, cmp)) == multiset(s)
    ensures |SortBy(s, cmp)| == |s|
  {
    if s != [] {
      var p, y := s[..|s| - 1], s[|s| - 1];
      SortByPermutes(p, cmp);
      InsertElements(y, SortBy(p, cmp), cmp);
      assert s == p + [y];
    }
  }

  lemma MemberOfInsert<T>(x: T, s: seq<T>, cmp: (T, T) -> int, e: T)
    requires e in Insert(x, s, cmp)
    ensures e == x || e in s
  {
    InsertElements(x, s, cmp);
    assert e in multiset(Insert(x, s, cmp));
  }

  lemma MemberOfSortBy<T>(s: seq<T>, cmp: (T, T) -> int, e: T)
    requires e in SortBy(s, cmp)
    ensures e in s
  {
    SortByPermutes(s, cmp);
    assert e in multiset(SortBy(s, cmp));
  }

  lemma {:induction false} InsertSorted<T>(x: T, s: seq<T>, cmp: (T, T) -> int, u: seq<T>)
    requires ComparatorOn(cmp, u) && x in u && Within(s, u)
    requires Sorted(s, cmp)
    ensures Sorted(Insert(x, s, cmp), cmp)
  {
    if s == [] {
    } else if cmp(x, s[0]) < 0 {
      var r := [x] + s;
      forall i, j | 0 <= i < j < |r| ensures cmp(r[i], r[j]) <= 0 {
        if i == 0 && j > 1 {
          assert s[0] in u && s[j - 1] in u && cmp(s[0], s[j - 1]) <= 0;
        }
      }
    } else {
      var t := s[1..];
      assert Within(t, u) && Sorted(t, cmp);
      InsertSorted(x, t, cmp, u);
      var r := [s[0]] + Insert(x, t, cmp);
      forall i, j | 0 <= i < j < |r| ensures cmp(r[i], r[j]) <= 0 {
        if i == 0 {
          var e := r[j];
          assert e in Insert(x, t, cmp);
          MemberOfInsert(x, t, cmp, e);
          if e == x {
            assert s[0] in u && Sign(cmp(x, s[0])) == -Sign(cmp(s[0], x));
          } else {
            var k :| 0 <= k < |t| && t[k] == e;
            assert cmp(s[0], s[k + 1]) <= 0;
          }
        }
      }
    }
  }

  /** The result is ordered by `cmp`. */
  lemma {:induction false} SortBySorted<T>(s: seq<T>, cmp: (T, T) -> int, u: seq<T>)
    requires ComparatorOn(cmp, u) && Within(s, u)
    ensures Sorted(SortBy(s, cmp), cmp)
  {
    if s != [] {
      var p, y := s[..|s| - 1], s[|s| - 1];
      assert Within(p, u);
      SortBySorted(p, cmp, u);
      forall e | e in SortBy(p, cmp) ensures e in u {
        MemberOfSortBy(p, cmp, e);
      }
      InsertSorted(y, SortBy(p, cmp), cmp, u);
    }
  }

  lemma {:induction false} TiesAppend<T>(a: seq<T>, b: seq<T>, x: T, cmp: (T, T) -> int)
    ensures Ties(a + b, x, cmp) == Ties(a, x, cmp) + Ties(b, x, cmp)
  {
    if a != [] {
      assert (a + b)[0] == a[0] && (a + b)[1..] == a[1..] + b;
      TiesAppend(a[1..], b, x, cmp);
    } else {
      assert a + b == b;
    }
  }

  lemma {:induction false} TiesNone<T>(s: seq<T>, x: T, cmp: (T, T) -> int)
    requires forall e | e in s :: cmp(e, x) != 0
    ensures Ties(s, x, cmp) == []
  {
    if s != [] {
      assert s[0] in s;
      assert forall e | e in s[1..] :: e in s;
      TiesNone(s[1..], x, cmp);
    }
  }

  /** `Ties` unfolded once at the front. */
  lemma TiesCons<T>(e: T, s: seq<T>, x: T, cmp: (T, T) -> int)
    ensures Ties([e] + s, x, cmp) == (if cmp(e, x) == 0 then [e] else []) + Ties(s, x, cmp)
  {
    assert ([e] + s)[1..] == s;
  }

  /** `Ties` of a sequence with one more element at the end. */
  lemma TiesSnoc<T>(p: seq<T>, y: T, x: T, cmp: (T, T) -> int)
    ensures Ties(p + [y], x, cmp) == Ties(p, x, cmp) + (if cmp(y, x) == 0 then [y] else [])
  {
    TiesAppend(p, [y], x, cmp);
    TiesCons(y, [], x, cmp);
    assert [y] + [] == [y];
  }

  /**
   * An element ranked strictly before the head of a sorted sequence and
   * equal to `x` leaves no element of that sequence equal to `x`.
   */
  lemma NoTiesBehind<T>(y: T, s: seq<T>, x: T, cmp: (T, T) -> int, u: seq<T>)
    requires ComparatorOn(cmp, u) && x in u && y in u && Within(s, u)
    requires Sorted(s, cmp) && s != [] && cmp(y, s[0]) < 0 && cmp(y, x) == 0
    ensures Ties(s, x, cmp) == []
  {
    forall e | e in s ensures cmp(e, x) != 0 {
      var k :| 0 <= k < |s| && s[k] == e;
      assert s[0] in u && e in u;
      assert cmp(s[0], e) <= 0;
    }
    TiesNone(s, x, cmp);
  }

  lemma {:induction false} TiesInsert<T>(y: T, s: seq<T>, x: T, cmp: (T, T) -> int, u: seq<T>)
    requires ComparatorOn(cmp, u) && x in u && y in u && Within(s, u)
    requires Sorted(s, cmp)
    ensures Ties(Insert(y, s, cmp), x, cmp) == Ties(s, x, cmp) + (if cmp(y, x) == 0 then [y] else [])
  {
    if s == [] {
      TiesCons(y, [], x, cmp);
    } else if cmp(y, s[0]) < 0 {
      TiesInsertFront(y, s, x, cmp, u);
    } else {
      var t := s[1..];
      TailWithinSorted(s, cmp, u);
      TiesInsert(y, t, x, cmp, u);
      TiesInsertBehind(y, s, x, cmp);
    }
  }

  /** Inserting before the head: `y` is the only new tie, and if it is one, `s` holds none. */
  lemma TiesInsertFront<T>(y: T, s: seq<T>, x: T, cmp: (T, T) -> int, u: seq<T>)
    requires ComparatorOn(cmp, u) && x in u && y in u && Within(s, u)
    requires Sorted(s, cmp) && s != [] && cmp(y, s[0]) < 0
    ensures Ties(Insert(y, s, cmp), x, cmp) == Ties(s, x, cmp) + (if cmp(y, x) == 0 then [y] else [])
  {
    TiesCons(y, s, x, cmp);
    if cmp(y, x) == 0 {
      NoTiesBehind(y, s, x, cmp, u);
    }
  }

  /** Inserting behind the head: the head's tie status comes first, then the tail's insertion. */
  lemma TiesInsertBehind<T>(y: T, s: seq<T>, x: T, cmp: (T, T) -> int)
    requires s != [] && cmp(y, s[0]) >= 0
    requires Ties(Insert(y, s[1..], cmp), x, cmp) == Ties(s[1..], x, cmp) + (if cmp(y, x) == 0 then [y] else [])
    ensures Ties(Insert(y, s, cmp), x, cmp) == Ties(s, x, cmp) + (if cmp(y, x) == 0 then [y] else [])
  {
    var t := s[1..];
    var a := if cmp(s[0], x) == 0 then [s[0]] else [];
    var b := if cmp(y, x) == 0 then [y] else [];
    var inserted := Insert(y, t, cmp);
    assert Insert(y, s, cmp) == [s[0]] + inserted;
    TiesCons(s[0], inserted, x, cmp);
    assert Ties(s, x, cmp) == a + Ties(t, x, cmp);
    assert a + (Ties(t, x, cmp) + b) == (a + Ties(t, x, cmp)) + b;
  }

  lemma TailWithinSorted<T>(s: seq<T>, cmp: (T, T) -> int, u: seq<T>)
    requires Within(s, u) && Sorted(s, cmp) && s != []
    ensures Within(s[1..], u) && Sorted(s[1..], cmp)
  {
    assert forall e | e in s[1..] :: e in s;
  }

  lemma SortByWithin<T>(s: seq<T>, cmp: (T, T) -> int, u: seq<T>)
    requires Within(s, u)
    ensures Within(SortBy(s, cmp), u)
  {
    forall e | e in SortBy(s, cmp) ensures e in u {
      MemberOfSortBy(s, cmp, e);
    }
  }

  lemma {:induction false} SortByStableWithin<T>(s: seq<T>, x: T, cmp: (T, T) -> int, u: seq<T>)
    requires ComparatorOn(cmp, u) && x in u && Within(s, u)
    ensures Ties(SortBy(s, cmp), x, cmp) == Ties(s, x, cmp)
  {
    if s != [] {
      var p, y := s[..|s| - 1], s[|s| - 1];
      assert s == p + [y];
      var q := SortBy(p, cmp);
      assert SortBy(s, cmp) == Insert(y, q, cmp);
      assert Within(p, u);
      SortByStableWithin(p, x, cmp, u);
      SortBySorted(p, cmp, u);
      SortByWithin(p, cmp, u);
      TiesInsert(y, q, x, cmp, u);
      TiesSnoc(p, y, x, cmp);
    }
  }

  /**
   * Stability: the elements that `cmp` ranks equal to `x` keep their
   * relative order.
   */
  lemma SortByStable<T>(s: seq<T>, x: T, cmp: (T, T) -> int)
    requires ComparatorOn(cmp, s) && x in s
    ensures Ties(SortBy(s, cmp), x, cmp) == Ties(s, x, cmp)
  {
    SortByStableWithin(s, x, cmp, s);
  }

  lemma {:induction false} InsertDistinct<T, K>(x: T, s: seq<T>, cmp: (T, T) -> int, key: T -> K)
    requires DistinctBy(s, key)
    requires forall e | e in s :: key(e) != key(x)
    ensures DistinctBy(Insert(x, s, cmp), key)
  {
    if s != [] && cmp(x, s[0]) >= 0 {
      var t := s[1..];
      assert forall e | e in t :: e in s;
      InsertDistinct(x, t, cmp, key);
      var r := [s[0]] + Insert(x, t, cmp);
      forall i, j | 0 <= i < j < |r| ensures key(r[i]) != key(r[j]) {
        if i == 0 {
          var e := r[j];
          assert e in Insert(x, t, cmp);
          MemberOfInsert(x, t, cmp, e);
          if e == x {
            assert s[0] in s;
          } else {
            var k :| 0 <= k < |t| && t[k] == e;
            assert key(s[0]) != key(s[k + 1]);
          }
        }
      }
    } else if s != [] {
      var r := [x] + s;
      forall i, j | 0 <= i < j < |r| ensures key(r[i]) != key(r[j]) {
        if i == 0 { assert r[j] in s; }
      }
    }
  }

  /** Sorting keeps a key that is unique per element unique (the fleet's ids). */
  lemma {:induction false} SortByDistinct<T, K>(s: seq<T>, cmp: (T, T) -> int, key: T -> K)
    requires DistinctBy(s, key)
    ensures DistinctBy(SortBy(s, cmp), key)
  {
    if s != [] {
      var p, y := s[..|s| - 1], s[|s| - 1];
      assert DistinctBy(p, key);
      SortByDistinct(p, cmp, key);
      forall e | e in SortBy(p, cmp) ensures key(e) != key(y) {
        MemberOfSortBy(p, cmp, e);
        var k :| 0 <= k < |p| && p[k] == e;
        assert s[k] == e;
      }
      InsertDistinct(y, SortBy(p, cmp), cmp, key);
    }
  }
}
