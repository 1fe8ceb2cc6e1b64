/** `Array.prototype.sort(compare)` on a copy, as the pages use it. The
    engine's sort is stable, so it is modelled by a stable insertion sort:
    an element only moves ahead of an earlier one when the comparator says
    the later element is strictly smaller. Only the sign of the comparator's
    number matters. */
module Sorting {

  /** A comparator the engine can sort with: any two elements are ordered
      one way or the other, and "not after" is transitive. */
  ghost predicate Consistent<T(!new)>(cmp: (T, T) -> real)
  {
    && (forall a, b :: cmp(a, b) <= 0.0 || cmp(b, a) <= 0.0)
    && (forall a, b, c :: cmp(a, b) <= 0.0 && cmp(b, c) <= 0.0 ==> cmp(a, c) <= 0.0)
  }

  /** No element is followed by one the comparator puts strictly before it. */
  ghost predicate Sorted<T>(s: seq<T>, cmp: (T, T) -> real)
  {
    forall i, j :: 0 <= i < j < |s| ==> cmp(s[i], s[j]) <= 0.0
  }

  /** The comparator treats `a` and `b` as equal. */
  ghost predicate Tied<T>(cmp: (T, T) -> real, a: T, b: T)
  {
    cmp(a, b) <= 0.0 && cmp(b, a) <= 0.0
  }

  /** Place `x` in front of the first element that is not strictly smaller. */
  function Insert<T>(x: T, s: seq<T>, cmp: (T, T) -> real): (r: seq<T>)
    ensures |r| == |s| + 1
    ensures multiset(r) == multiset(s) + multiset{x}
  {
    if s == [] || cmp(x, s[0]) <= 0.0 then [x] + s
    else
      assert s == [s[0]] + s[1..];
      [s[0]] + Insert(x, s[1..], cmp)
  }

  /** `[...s].sort(cmp)`: a permutation of `s`. */
  function Sort<T>(s: seq<T>, cmp: (T, T) -> real): (r: seq<T>)
    ensures |r| == |s|
    ensures multiset(r) == multiset(s)
  {
    if s == [] then []
    else
      assert s == [s[0]] + s[1..];
      Insert(s[0], Sort(s[1..], cmp), cmp)
  }

  lemma InsertMembers<T>(x: T, s: seq<T>, cmp: (T, T) -> real, y: T)
    requires y in Insert(x, s, cmp)
    ensures y == x || y in s
  {
    assert y in multiset(Insert(x, s, cmp));
  }

  /** A sorted list stays sorted behind a head that precedes all of it. */
  lemma ConsSorted<T>(h: T, rest: seq<T>, cmp: (T, T) -> real)
    requires Sorted(rest, cmp)
    requires forall k :: 0 <= k < |rest| ==> cmp(h, rest[k]) <= 0.0
    ensures Sorted([h] + rest, cmp)
  {
    var r := [h] + rest;
    forall i, j | 0 <= i < j < |r| ensures cmp(r[i], r[j]) <= 0.0 {
      if i == 0 {
        assert r[j] == rest[j - 1];
      } else {
        assert r[i] == rest[i - 1] && r[j] == rest[j - 1];
      }
    }
  }

  lemma SortedTail<T>(s: seq<T>, cmp: (T, T) -> real)
    requires s != [] && Sorted(s, cmp)
    ensures Sorted(s[1..], cmp)
  {
    forall i, j | 0 <= i < j < |s[1..]| ensures cmp(s[1..][i], s[1..][j]) <= 0.0 {
      assert s[1..][i] == s[i + 1] && s[1..][j] == s[j + 1];
    }
  }

  lemma {:induction false} InsertSorted<T(!new)>(x: T, s: seq<T>, cmp: (T, T) -> real)
    requires Consistent(cmp) && Sorted(s, cmp)
    ensures Sorted(Insert(x, s, cmp), cmp)
  {
    if s == [] || cmp(x, s[0]) <= 0.0 {
      forall k | 0 <= k < |s| ensures cmp(x, s[k]) <= 0.0 {
        if k > 0 {
          assert cmp(x, s[0]) <= 0.0 && cmp(s[0], s[k]) <= 0.0 ==> cmp(x, s[k]) <= 0.0;
        }
      }
      ConsSorted(x, s, cmp);
    } else {
      var rest := Insert(x, s[1..], cmp);
      SortedTail(s, cmp);
      InsertSorted(x, s[1..], cmp);
      forall k | 0 <= k < |rest| ensures cmp(s[0], rest[k]) <= 0.0 {
        InsertMembers(x, s[1..], cmp, rest[k]);
        if rest[k] != x {
          var m :| 0 <= m < |s[1..]| && s[1..][m] == rest[k];
          assert s[m + 1] == rest[k];
        }
      }
      ConsSorted(s[0], rest, cmp);
    }
  }

  /** The sorted copy respects the comparator. */
  lemma {:induction false} SortSorted<T(!new)>(s: seq<T>, cmp: (T, T) -> real)
    requires Consistent(cmp)
    ensures Sorted(Sort(s, cmp), cmp)
  {
    if s != [] {
      SortSorted(s[1..], cmp);
      InsertSorted(s[0], Sort(s[1..], cmp), cmp);
    }
  }

  /** The elements of `s` tied with `x`, in their order in `s`. */
  function TiedWith<T>(s: seq<T>, x: T, cmp: (T, T) -> real): seq<T>
  {
    if s == [] then []
    else if cmp(s[0], x) <= 0.0 && cmp(x, s[0]) <= 0.0 then [s[0]] + TiedWith(s[1..], x, cmp)
    else TiedWith(s[1..], x, cmp)
  }

  lemma {:induction false} InsertTiedWith<T(!new)>(a: T, s: seq<T>, x: T, cmp: (T, T) -> real)
    requires Consistent(cmp)
    ensures TiedWith(Insert(a, s, cmp), x, cmp)
         == if Tied(cmp, a, x) then [a] + TiedWith(s, x, cmp) else TiedWith(s, x, cmp)
  {
    if s == [] || cmp(a, s[0]) <= 0.0 {
      assert ([a] + s)[1..] == s;
    } else {
      var r := Insert(a, s, cmp);
      assert r[1..] == Insert(a, s[1..], cmp);
      InsertTiedWith(a, s[1..], x, cmp);
      var first := s[0];
      assert !(Tied(cmp, a, x) && Tied(cmp, first, x));
    }
  }

  /** Stability: elements the comparator ties keep their relative order. */
  lemma {:induction false} SortStable<T(!new)>(s: seq<T>, x: T, cmp: (T, T) -> real)
    requires Consistent(cmp)
    ensures TiedWith(Sort(s, cmp), x, cmp) == TiedWith(s, x, cmp)
  {
    if s != [] {
      SortStable(s[1..], x, cmp);
      InsertTiedWith(s[0], Sort(s[1..], cmp), x, cmp);
    }
  }

  /** A comparator that ties every two elements leaves the order unchanged. */
  lemma {:induction false} SortAllTied<T>(s: seq<T>, cmp: (T, T) -> real)
    requires forall a, b :: cmp(a, b) == 0.0
    ensures Sort(s, cmp) == s
  {
    if s != [] {
      SortAllTied(s[1..], cmp);
      assert s == [s[0]] + s[1..];
    }
  }
}
