/** Sequence functions shared by the components: mapping, filtering, and what permuting does to them. */
module Sequences {

  function Map<A, B>(f: A -> B, s: seq<A>): (r: seq<B>)
    ensures |r| == |s|
    ensures forall i :: 0 <= i < |s| ==> r[i] == f(s[i])
  {
    seq(|s|, i requires 0 <= i < |s| => f(s[i]))
  }

  lemma MapConcat<A, B>(f: A -> B, s: seq<A>, t: seq<A>)
    ensures Map(f, s + t) == Map(f, s) + Map(f, t)
  {
  }

  function Filter<A(!new)>(p: A -> bool, s: seq<A>): (r: seq<A>)
    ensures forall x :: x in r <==> x in s && p(x)
    ensures |r| <= |s|
  {
    if s == [] then []
    else if p(s[0]) then [s[0]] + Filter(p, s[1..])
    else Filter(p, s[1..])
  }

  function FlatMap<A, B>(f: A -> seq<B>, s: seq<A>): seq<B> {
    if s == [] then [] else FlatMap(f, s[..|s| - 1]) + f(s[|s| - 1])
  }

  lemma {:induction false} FlatMapMore<A, B>(f: A -> seq<B>, s: seq<A>, x: A)
    ensures FlatMap(f, s + [x]) == FlatMap(f, s) + f(x)
  {
    assert (s + [x])[..|s|] == s;
  }

  lemma {:induction false} FlatMapHas<A(!new), B>(f: A -> seq<B>, s: seq<A>, y: B)
    ensures y in FlatMap(f, s) <==> exists x :: x in s && y in f(x)
  {
    if s != [] {
      FlatMapHas(f, s[..|s| - 1], y);
      assert s == s[..|s| - 1] + [s[|s| - 1]];
    }
  }

  lemma {:induction false} FlatMapAgree<A, B>(f: A -> seq<B>, g: A -> seq<B>, s: seq<A>)
    requires forall x :: x in s ==> f(x) == g(x)
    ensures FlatMap(f, s) == FlatMap(g, s)
  {
    if s != [] {
      FlatMapAgree(f, g, s[..|s| - 1]);
      assert s[|s| - 1] in s;
    }
  }

  /** Elements that yield nothing can be dropped. */
  lemma {:induction false} FlatMapFilter<A(!new), B>(f: A -> seq<B>, p: A -> bool, s: seq<A>)
    requires forall x :: x in s && !p(x) ==> f(x) == []
    ensures FlatMap(f, Filter(p, s)) == FlatMap(f, s)
  {
    if s != [] {
      var before, x := s[..|s| - 1], s[|s| - 1];
      assert s == before + [x];
      assert x in s && forall y :: y in before ==> y in s;
      FlatMapFilter(f, p, before);
      calc {
        FlatMap(f, Filter(p, s));
        { FilterMore(p, before, x); }
        FlatMap(f, if p(x) then Filter(p, before) + [x] else Filter(p, before));
        { FlatMapMore(f, Filter(p, before), x); }
        FlatMap(f, before) + f(x);
        { FlatMapMore(f, before, x); }
        FlatMap(f, s);
      }
    }
  }

  /** Filtering the images of a flattened sequence filters them piece by piece. */
  lemma {:induction false} FilterFlatMap<A, B, C(!new)>(keep: C -> bool, g: B -> C, f: A -> seq<B>, h: A -> seq<C>,
                                                        s: seq<A>)
    requires forall x :: x in s ==> h(x) == Filter(keep, Map(g, f(x)))
    ensures Filter(keep, Map(g, FlatMap(f, s))) == FlatMap(h, s)
  {
    if s != [] {
      var before, x := s[..|s| - 1], s[|s| - 1];
      FilterFlatMap(keep, g, f, h, before);
      assert x in s;
      MapConcat(g, FlatMap(f, before), f(x));
      FilterConcat(keep, Map(g, FlatMap(f, before)), Map(g, f(x)));
    }
  }

  /** Two maps that agree wherever the filter keeps either leave the same images. */
  lemma {:induction false} FilterMapAgree<A, B(!new)>(keep: B -> bool, f: A -> B, g: A -> B, s: seq<A>)
    requires forall x :: x in s ==> keep(f(x)) == keep(g(x)) && (keep(f(x)) ==> f(x) == g(x))
    ensures Filter(keep, Map(f, s)) == Filter(keep, Map(g, s))
  {
    if s != [] {
      assert s[0] in s;
      FilterMapAgree(keep, f, g, s[1..]);
      assert Map(f, s)[1..] == Map(f, s[1..]);
      assert Map(g, s)[1..] == Map(g, s[1..]);
    }
  }

  /** Filtering after a map that does not change what the filter sees is filtering before it. */
  lemma {:induction false} FilterMapCommute<A(!new), B(!new)>(after: B -> bool, before: A -> bool, f: A -> B, s: seq<A>)
    requires forall x :: x in s ==> after(f(x)) == before(x)
    ensures Filter(after, Map(f, s)) == Map(f, Filter(before, s))
  {
    if s != [] {
      assert s[0] in s;
      FilterMapCommute(after, before, f, s[1..]);
      assert Map(f, s)[1..] == Map(f, s[1..]);
    }
  }

  lemma FilterMapDrop<A, B(!new)>(keep: B -> bool, f: A -> B, a: seq<A>, b: seq<A>)
    requires forall x :: x in b ==> !keep(f(x))
    ensures Filter(keep, Map(f, a + b)) == Filter(keep, Map(f, a))
  {
    MapConcat(f, a, b);
    FilterConcat(keep, Map(f, a), Map(f, b));
    forall y | y in Map(f, b)
      ensures !keep(y)
    {
      var i :| 0 <= i < |b| && Map(f, b)[i] == y;
      assert b[i] in b;
    }
    FilterNone(keep, Map(f, b));
  }

  ghost predicate Distinct<A>(s: seq<A>) {
    forall i, j :: 0 <= i < j < |s| ==> s[i] != s[j]
  }

  lemma {:induction false} FilterConcat<A(!new)>(p: A -> bool, s: seq<A>, t: seq<A>)
    ensures Filter(p, s + t) == Filter(p, s) + Filter(p, t)
  {
    if s == [] {
      assert s + t == t;
    } else {
      var first, rest := if p(s[0]) then [s[0]] else [], s[1..];
      assert (s + t)[1..] == rest + t;
      calc {
        Filter(p, s + t);
        first + Filter(p, rest + t);
        { FilterConcat(p, rest, t); }
        first + (Filter(p, rest) + Filter(p, t));
        first + Filter(p, rest) + Filter(p, t);
        Filter(p, s) + Filter(p, t);
      }
    }
  }

  lemma FilterMore<A(!new)>(p: A -> bool, s: seq<A>, x: A)
    ensures Filter(p, s + [x]) == if p(x) then Filter(p, s) + [x] else Filter(p, s)
  {
    FilterConcat(p, s, [x]);
    assert Filter(p, [x]) == if p(x) then [x] else [];
  }

  lemma {:induction false} FilterAll<A(!new)>(p: A -> bool, s: seq<A>)
    requires forall x :: x in s ==> p(x)
    ensures Filter(p, s) == s
  {
    if s != [] {
      FilterAll(p, s[1..]);
    }
  }

  /** One element passes a filter exactly when it does at one place and nothing else does. */
  ghost predicate OnlyOne<A>(p: A -> bool, s: seq<A>, x: A) {
    exists i :: 0 <= i < |s| && s[i] == x && p(x) && forall j :: 0 <= j < |s| && j != i ==> !p(s[j])
  }

  lemma {:induction false} FilterNone<A(!new)>(p: A -> bool, s: seq<A>)
    requires forall x :: x in s ==> !p(x)
    ensures Filter(p, s) == []
  {
    if s != [] {
      FilterNone(p, s[1..]);
    }
  }

  lemma {:induction false} SinglePlace<A(!new)>(p: A -> bool, s: seq<A>) returns (i: nat)
    requires |Filter(p, s)| == 1
    ensures i < |s| && p(s[i]) && Filter(p, s) == [s[i]]
    ensures forall j :: 0 <= j < |s| && j != i ==> !p(s[j])
  {
    if p(s[0]) {
      i := 0;
      assert Filter(p, s[1..]) == [];
      forall j | 0 < j < |s|
        ensures !p(s[j])
      {
        assert s[j] == s[1..][j - 1] && s[j] in s[1..];
      }
    } else {
      var k := SinglePlace(p, s[1..]);
      i := k + 1;
      assert forall j :: 0 < j < |s| ==> s[j] == s[1..][j - 1];
    }
  }

  lemma OnlyPlace<A(!new)>(p: A -> bool, s: seq<A>, i: nat)
    requires i < |s| && p(s[i])
    requires forall j :: 0 <= j < |s| && j != i ==> !p(s[j])
    ensures Filter(p, s) == [s[i]]
  {
    var before, after := s[..i], s[i + 1..];
    assert s == before + [s[i]] + after;
    FilterNone(p, before);
    FilterNone(p, after);
    FilterMore(p, before, s[i]);
    FilterConcat(p, before + [s[i]], after);
  }

  lemma FilterSingle<A(!new)>(p: A -> bool, s: seq<A>, x: A)
    ensures Filter(p, s) == [x] <==> OnlyOne(p, s, x)
  {
    if Filter(p, s) == [x] {
      var i := SinglePlace(p, s);
    }
    if OnlyOne(p, s, x) {
      var i :| 0 <= i < |s| && s[i] == x && p(x) && forall j :: 0 <= j < |s| && j != i ==> !p(s[j]);
      OnlyPlace(p, s, i);
    }
  }

  lemma {:induction false} FilterTwice<A(!new)>(p: A -> bool, q: A -> bool, s: seq<A>)
    requires forall x :: x in s && p(x) ==> q(x)
    ensures Filter(p, Filter(q, s)) == Filter(p, s)
  {
    if s != [] {
      FilterTwice(p, q, s[1..]);
    }
  }

  /** Filtering by two conditions in turn is filtering by both. */
  lemma {:induction false} FilterBoth<A(!new)>(p: A -> bool, q: A -> bool, both: A -> bool, s: seq<A>)
    requires forall x :: x in s ==> both(x) == (p(x) && q(x))
    ensures Filter(p, Filter(q, s)) == Filter(both, s)
  {
    if s != [] {
      assert s[0] in s;
      FilterBoth(p, q, both, s[1..]);
    }
  }

  lemma {:induction false} FilterKeepsDistinct<A(!new)>(p: A -> bool, s: seq<A>)
    requires Distinct(s)
    ensures Distinct(Filter(p, s))
  {
    if s != [] {
      FilterKeepsDistinct(p, s[1..]);
      assert s[0] !in s[1..];
    }
  }

  lemma {:induction false} FiltersCommute<A(!new)>(p: A -> bool, q: A -> bool, s: seq<A>)
    ensures Filter(p, Filter(q, s)) == Filter(q, Filter(p, s))
  {
    if s != [] {
      FiltersCommute(p, q, s[1..]);
    }
  }

  lemma {:induction false} DistinctCounts<A(!new)>(s: seq<A>)
    ensures Distinct(s) <==> forall x :: multiset(s)[x] <= 1
  {
    if s != [] {
      var n := |s| - 1;
      var before := s[..n];
      DistinctCounts(before);
      assert s == before + [s[n]];
      assert forall x :: multiset(s)[x] == multiset(before)[x] + if x == s[n] then 1 else 0;
      assert s[n] in before <==> multiset(before)[s[n]] > 0;
      if Distinct(s) {
        assert Distinct(before) && s[n] !in before;
      } else if Distinct(before) {
        assert s[n] in before;
        assert multiset(s)[s[n]] > 1;
      } else {
        var x :| multiset(before)[x] > 1;
        assert multiset(s)[x] > 1;
      }
    }
  }

  /** Two sequences without repetition that hold the same elements are permutations of each other. */
  lemma DistinctPermutes<A(!new)>(s: seq<A>, t: seq<A>)
    requires Distinct(s) && Distinct(t)
    requires forall x :: x in s <==> x in t
    ensures multiset(s) == multiset(t)
  {
    DistinctCounts(s);
    DistinctCounts(t);
    forall x
      ensures multiset(s)[x] == multiset(t)[x]
    {
      assert x in s <==> x in multiset(s);
      assert x in t <==> x in multiset(t);
    }
  }

  /** Each element at its first place only. */
  function Dedup<A(==)>(s: seq<A>): seq<A> {
    if s == [] then []
    else
      var before, last := Dedup(s[..|s| - 1]), s[|s| - 1];
      if last in before then before else before + [last]
  }

  lemma {:induction false} DedupDistinct<A(!new)>(s: seq<A>)
    ensures Distinct(Dedup(s))
    ensures forall x :: x in Dedup(s) <==> x in s
  {
    if s != [] {
      var n := |s| - 1;
      DedupDistinct(s[..n]);
      assert s == s[..n] + [s[n]];
    }
  }

  lemma {:induction false} DedupIdentity<A(!new)>(s: seq<A>)
    requires Distinct(s)
    ensures Dedup(s) == s
  {
    if s != [] {
      var n := |s| - 1;
      DedupIdentity(s[..n]);
      assert s[n] !in s[..n];
      assert s == s[..n] + [s[n]];
    }
  }

  lemma {:induction false} DedupShorter<A(!new)>(s: seq<A>)
    ensures |Dedup(s)| <= |s|
    ensures |Dedup(s)| == |s| ==> Distinct(s)
  {
    if s != [] {
      var n := |s| - 1;
      DedupShorter(s[..n]);
      DedupDistinct(s[..n]);
      assert s == s[..n] + [s[n]];
    }
  }

  function Without<A>(s: seq<A>, j: nat): seq<A>
    requires j < |s|
  {
    s[..j] + s[j + 1..]
  }

  lemma MapWithout<A, B>(f: A -> B, s: seq<A>, j: nat)
    requires j < |s|
    ensures Map(f, Without(s, j)) == Without(Map(f, s), j)
  {
  }

  lemma MultisetWithout<A>(s: seq<A>, j: nat)
    requires j < |s|
    ensures multiset(Without(s, j)) == multiset(s) - multiset{s[j]}
    ensures multiset(s) == multiset(Without(s, j)) + multiset{s[j]}
  {
    assert s == s[..j] + [s[j]] + s[j + 1..];
  }

  /** Two sequences with the same elements stay permutations of each other under a map. */
  lemma {:induction false} MapPermutes<A, B>(f: A -> B, s: seq<A>, t: seq<A>)
    requires multiset(s) == multiset(t)
    ensures multiset(Map(f, s)) == multiset(Map(f, t))
  {
    if s == [] {
      assert |multiset(t)| == 0;
      assert Map(f, s) == Map(f, t) == [];
    } else {
      assert s[0] in multiset(t);
      var j :| 0 <= j < |t| && t[j] == s[0];
      MultisetWithout(s, 0);
      MultisetWithout(t, j);
      assert Without(s, 0) == s[1..];
      MapPermutes(f, s[1..], Without(t, j));
      MapWithout(f, s, 0);
      MapWithout(f, t, j);
      MultisetWithout(Map(f, s), 0);
      MultisetWithout(Map(f, t), j);
    }
  }

  lemma PermutationSameElements<A(!new)>(s: seq<A>, t: seq<A>)
    requires multiset(s) == multiset(t)
    ensures |s| == |t|
    ensures forall x :: x in s <==> x in t
  {
    assert |multiset(s)| == |s| && |multiset(t)| == |t|;
    forall x
      ensures x in s <==> x in t
    {
      assert x in s <==> x in multiset(s);
      assert x in t <==> x in multiset(t);
    }
  }

  function Sum(s: seq<int>): int {
    if s == [] then 0 else s[0] + Sum(s[1..])
  }

  lemma {:induction false} SumWithout(s: seq<int>, j: nat)
    requires j < |s|
    ensures Sum(s) == s[j] + Sum(Without(s, j))
  {
    if j == 0 {
      assert Without(s, 0) == s[1..];
    } else {
      SumWithout(s[1..], j - 1);
      assert Without(s, j)[1..] == Without(s[1..], j - 1);
    }
  }

  lemma {:induction false} SumPermutes(s: seq<int>, t: seq<int>)
    requires multiset(s) == multiset(t)
    ensures Sum(s) == Sum(t)
  {
    if s == [] {
      assert |multiset(t)| == 0;
    } else {
      assert s[0] in multiset(t);
      var j :| 0 <= j < |t| && t[j] == s[0];
      MultisetWithout(s, 0);
      MultisetWithout(t, j);
      assert Without(s, 0) == s[1..];
      SumPermutes(s[1..], Without(t, j));
      SumWithout(t, j);
    }
  }
}
