/**
  Python's stable `sorted`, as insertion from the right, with the two facts the
  components rest on: sorting commutes with filtering, and two permutations sorted
  by key agree key by key.
 */
module Sorting {
  import opened Sequences

  ghost predicate TotalPreorder<T(!new)>(leq: (T, T) -> bool) {
    && (forall x, y :: leq(x, y) || leq(y, x))
    && (forall x, y, z :: leq(x, y) && leq(y, z) ==> leq(x, z))
  }

  ghost predicate TotalOrder<T(!new)>(leq: (T, T) -> bool) {
    && TotalPreorder(leq)
    && (forall x, y :: leq(x, y) && leq(y, x) ==> x == y)
  }

  ghost predicate SortedBy<T>(leq: (T, T) -> bool, s: seq<T>) {
    forall i, j :: 0 <= i < j < |s| ==> leq(s[i], s[j])
  }

  /** Insert before the first element that is not smaller, so that earlier equal elements stay first. */
  function Insert<T>(leq: (T, T) -> bool, x: T, s: seq<T>): seq<T> {
    if s == [] then [x]
    else if leq(x, s[0]) then [x] + s
    else [s[0]] + Insert(leq, x, s[1..])
  }

  function Sort<T>(leq: (T, T) -> bool, s: seq<T>): seq<T> {
    if s == [] then [] else Insert(leq, s[0], Sort(leq, s[1..]))
  }

  lemma {:induction false} InsertPermutes<T(!new)>(leq: (T, T) -> bool, x: T, s: seq<T>)
    ensures multiset(Insert(leq, x, s)) == multiset([x] + s)
  {
    if s != [] && !leq(x, s[0]) {
      InsertPermutes(leq, x, s[1..]);
      assert [x] + s == [x] + ([s[0]] + s[1..]);
    }
  }

  lemma {:induction false} SortPermutes<T(!new)>(leq: (T, T) -> bool, s: seq<T>)
    ensures multiset(Sort(leq, s)) == multiset(s)
    ensures |Sort(leq, s)| == |s|
    ensures forall x :: x in Sort(leq, s) <==> x in s
  {
    if s != [] {
      SortPermutes(leq, s[1..]);
      InsertPermutes(leq, s[0], Sort(leq, s[1..]));
      assert s == [s[0]] + s[1..];
    }
    PermutationSameElements(Sort(leq, s), s);
  }

  lemma {:induction false} InsertSorted<T(!new)>(leq: (T, T) -> bool, x: T, s: seq<T>)
    requires TotalPreorder(leq)
    requires SortedBy(leq, s)
    ensures SortedBy(leq, Insert(leq, x, s))
  {
    if s != [] && !leq(x, s[0]) {
      InsertSorted(leq, x, s[1..]);
      InsertPermutes(leq, x, s[1..]);
      var r := Insert(leq, x, s[1..]);
      PermutationSameElements(r, [x] + s[1..]);
      forall i | 0 <= i < |r|
        ensures leq(s[0], r[i])
      {
        assert r[i] in [x] + s[1..];
      }
    }
  }

  lemma {:induction false} SortSorted<T(!new)>(leq: (T, T) -> bool, s: seq<T>)
    requires TotalPreorder(leq)
    ensures SortedBy(leq, Sort(leq, s))
  {
    if s != [] {
      SortSorted(leq, s[1..]);
      InsertSorted(leq, s[0], Sort(leq, s[1..]));
    }
  }

  lemma {:induction false} FilterSorted<T(!new)>(leq: (T, T) -> bool, p: T -> bool, s: seq<T>)
    requires SortedBy(leq, s)
    ensures SortedBy(leq, Filter(p, s))
  {
    if s != [] {
      FilterSorted(leq, p, s[1..]);
      forall x | x in Filter(p, s[1..])
        ensures leq(s[0], x)
      {
        var i :| 0 <= i < |s[1..]| && s[1..][i] == x;
        assert s[i + 1] == x;
      }
    }
  }

  lemma {:induction false} FilterInsert<T(!new)>(leq: (T, T) -> bool, p: T -> bool, x: T, s: seq<T>)
    requires TotalPreorder(leq)
    requires SortedBy(leq, s)
    ensures Filter(p, Insert(leq, x, s)) == if p(x) then Insert(leq, x, Filter(p, s)) else Filter(p, s)
  {
    if s != [] {
      if leq(x, s[0]) {
        assert Insert(leq, x, s)[1..] == s;
        var f := Filter(p, s);
        if f != [] {
          assert f[0] in s;
          var i :| 0 <= i < |s| && s[i] == f[0];
          assert leq(s[0], f[0]);
          assert leq(x, f[0]);
        }
      } else {
        FilterInsert(leq, p, x, s[1..]);
        assert Insert(leq, x, s)[1..] == Insert(leq, x, s[1..]);
        assert p(s[0]) ==> Filter(p, s)[1..] == Filter(p, s[1..]);
        assert p(s[0]) && p(x) ==> Insert(leq, x, Filter(p, s)) == [s[0]] + Insert(leq, x, Filter(p, s)[1..]);
        if !p(s[0]) && p(x) {
          assert Filter(p, s) == Filter(p, s[1..]);
        }
      }
    }
  }

  /** Dropping elements before sorting or after it gives the same sequence, ties included. */
  lemma {:induction false} FilterSort<T(!new)>(leq: (T, T) -> bool, p: T -> bool, s: seq<T>)
    requires TotalPreorder(leq)
    ensures Filter(p, Sort(leq, s)) == Sort(leq, Filter(p, s))
  {
    if s != [] {
      FilterSort(leq, p, s[1..]);
      SortSorted(leq, s[1..]);
      FilterInsert(leq, p, s[0], Sort(leq, s[1..]));
    }
  }

  lemma SameLeast<K(!new)>(leq: (K, K) -> bool, a: seq<K>, b: seq<K>)
    requires TotalOrder(leq)
    requires SortedBy(leq, a) && SortedBy(leq, b)
    requires a != [] && b != [] && a[0] in b && b[0] in a
    ensures a[0] == b[0]
  {
    var i :| 0 <= i < |b| && b[i] == a[0];
    var j :| 0 <= j < |a| && a[j] == b[0];
    assert i > 0 ==> leq(b[0], b[i]);
    assert j > 0 ==> leq(a[0], a[j]);
  }

  /** A multiset of keys has one sorted arrangement. */
  lemma {:induction false} SortedUnique<K(!new)>(leq: (K, K) -> bool, a: seq<K>, b: seq<K>)
    requires TotalOrder(leq)
    requires SortedBy(leq, a) && SortedBy(leq, b)
    requires multiset(a) == multiset(b)
    ensures a == b
  {
    PermutationSameElements(a, b);
    if a != [] {
      SameLeast(leq, a, b);
      MultisetWithout(a, 0);
      MultisetWithout(b, 0);
      assert Without(a, 0) == a[1..] && Without(b, 0) == b[1..];
      SortedUnique(leq, a[1..], b[1..]);
    }
  }

  /** Sorting by key two sequences that carry the same keys gives the same keys position by position. */
  lemma SortByKeyUnique<T(!new), K(!new)>(kleq: (K, K) -> bool, key: T -> K, leq: (T, T) -> bool, s: seq<T>, t: seq<T>)
    requires TotalOrder(kleq)
    requires forall x, y :: leq(x, y) == kleq(key(x), key(y))
    requires multiset(Map(key, s)) == multiset(Map(key, t))
    ensures Map(key, Sort(leq, s)) == Map(key, Sort(leq, t))
  {
    var ss, st := Sort(leq, s), Sort(leq, t);
    assert TotalPreorder(leq);
    SortPermutes(leq, s);
    SortPermutes(leq, t);
    SortSorted(leq, s);
    SortSorted(leq, t);
    MapPermutes(key, ss, s);
    MapPermutes(key, st, t);
    SortedUnique(kleq, Map(key, ss), Map(key, st));
  }

  /** A sorted sequence is left alone. */
  lemma {:induction false} SortIdentity<T(!new)>(leq: (T, T) -> bool, s: seq<T>)
    requires TotalPreorder(leq)
    requires SortedBy(leq, s)
    ensures Sort(leq, s) == s
  {
    if s != [] {
      SortIdentity(leq, s[1..]);
      assert |s| > 1 ==> leq(s[0], s[1]);
    }
  }
}
