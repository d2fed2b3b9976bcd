/** Snapshot-local contact aliases: A, B, ..., Z, AA, AB, ... */
module ContactAlias {
  import opened Common
  import opened Sequences
  import opened Sorting
  import opened Text

  predicate IsLetter(c: char) {
    'A' <= c <= 'Z'
  }

  function Letter(r: nat): (c: char)
    requires r < 26
    ensures IsLetter(c) && (c - 'A') as int == r
  {
    'A' + r as char
  }

  function LetterValue(c: char): (r: nat)
    requires IsLetter(c)
    ensures r < 26 && Letter(r) == c
  {
    (c - 'A') as nat
  }

  predicate IsAlias(s: string) {
    s != "" && forall i :: 0 <= i < |s| ==> IsLetter(s[i])
  }

  /** The letters of an index: the last one counts to twenty-six, the ones before it count the rest from zero again. */
  function Letters(n: nat): (s: string)
    ensures IsAlias(s)
  {
    (if n < 26 then "" else Letters(n / 26 - 1)) + [Letter(n % 26)]
  }

  function Index(s: string): nat
    requires IsAlias(s)
  {
    var n := |s| - 1;
    var r := LetterValue(s[n]);
    if n == 0 then r else 26 * (Index(s[..n]) + 1) + r
  }

  function Reversed(s: string): string {
    if s == "" then "" else Reversed(s[1..]) + [s[0]]
  }

  lemma {:induction false} ReversedMore(s: string, c: char)
    ensures Reversed(s + [c]) == [c] + Reversed(s)
  {
    if s == "" {
      assert s + [c] == [c];
    } else {
      assert (s + [c])[1..] == s[1..] + [c];
      ReversedMore(s[1..], c);
    }
  }

  lemma OneMoreLetter(current: nat, letters: string)
    ensures Letters(current) + Reversed(letters)
         == (if current < 26 then "" else Letters(current / 26 - 1)) + Reversed(letters + [Letter(current % 26)])
  {
    var before := if current < 26 then "" else Letters(current / 26 - 1);
    var c := Letter(current % 26);
    ReversedMore(letters, c);
    assert before + [c] + Reversed(letters) == before + ([c] + Reversed(letters));
  }

  method Alias(index: nat) returns (alias: string)
    ensures alias == "Contact " + Letters(index)
  {
    var letters: string := "";
    var current := index;
    while true
      invariant Letters(current) + Reversed(letters) == Letters(index)
      decreases current
    {
      var remainder := current % 26;
      var quotient := current / 26;
      OneMoreLetter(current, letters);
      letters := letters + [Letter(remainder)];
      if quotient == 0 {
        break;
      }
      current := quotient - 1;
    }
    alias := "Contact " + Reversed(letters);
  }

  // ----- Bijection -----

  lemma {:induction false} IndexUndoesLetters(n: nat)
    ensures Index(Letters(n)) == n
  {
    var s := Letters(n);
    assert LetterValue(s[|s| - 1]) == n % 26;
    if n >= 26 {
      assert s[..|s| - 1] == Letters(n / 26 - 1);
      IndexUndoesLetters(n / 26 - 1);
    }
  }

  lemma {:induction false} LettersUndoIndex(s: string)
    requires IsAlias(s)
    ensures Letters(Index(s)) == s
    decreases |s|
  {
    var n := |s| - 1;
    var r := LetterValue(s[n]);
    if n > 0 {
      LettersUndoIndex(s[..n]);
      var before := Index(s[..n]);
      assert (26 * (before + 1) + r) / 26 == before + 1 && (26 * (before + 1) + r) % 26 == r;
      assert s == s[..n] + [s[n]];
    }
  }

  // ----- Order -----

  /** Shorter first, then alphabetically. */
  predicate AliasBefore(s: string, t: string) {
    |s| < |t| || (|s| == |t| && s != t && StringLe(s, t))
  }

  lemma {:induction false} SameLengthOrder(s: string, t: string, c: char, d: char)
    requires |s| == |t|
    ensures StringLe(s + [c], t + [d]) <==> if s == t then c <= d else StringLe(s, t)
  {
    if s == [] {
      assert s + [c] == [c] && t + [d] == [d];
      assert LexLe(CharLe, [c], [d]) == if c == d then LexLe(CharLe, [c][1..], [d][1..]) else CharLe(c, d);
    } else {
      assert (s + [c])[1..] == s[1..] + [c] && (t + [d])[1..] == t[1..] + [d];
      SameLengthOrder(s[1..], t[1..], c, d);
      assert s == t <==> s[0] == t[0] && s[1..] == t[1..];
    }
  }

  lemma {:induction false} SmallerIndexIsBefore(n: nat, m: nat)
    requires n < m
    ensures AliasBefore(Letters(n), Letters(m))
  {
    if n >= 26 {
      var s, t := Letters(n / 26 - 1), Letters(m / 26 - 1);
      SameLengthOrderOf(s, t, Letter(n % 26), Letter(m % 26));
      if n / 26 < m / 26 {
        SmallerIndexIsBefore(n / 26 - 1, m / 26 - 1);
      }
    } else if m < 26 {
      SameLengthOrder("", "", Letter(n), Letter(m));
    } else {
      assert |Letters(n)| == 1 && |Letters(m)| > 1;
    }
  }

  lemma SameLengthOrderOf(s: string, t: string, c: char, d: char)
    ensures AliasBefore(s + [c], t + [d]) <==> AliasBefore(s, t) || (s == t && c < d)
  {
    if |s| == |t| {
      SameLengthOrder(s, t, c, d);
      assert s + [c] == t + [d] <==> s == t && c == d by {
        assert (s + [c])[..|s|] == s && (t + [d])[..|t|] == t;
        assert (s + [c])[|s|] == c && (t + [d])[|t|] == d;
      }
    }
  }

  /** Counting upward is walking the aliases by length and then by alphabet. */
  lemma AliasesAreInOrder(n: nat, m: nat)
    ensures n < m <==> AliasBefore(Letters(n), Letters(m))
  {
    if n < m {
      SmallerIndexIsBefore(n, m);
    } else if m < n {
      SmallerIndexIsBefore(m, n);
      StringOrder();
    }
  }

  // ----- Aliases of a snapshot -----

  /** The distinct identities in order, as `sorted` of a set gives them. */
  function DistinctSorted(ids: seq<string>): seq<string> {
    Sort(StringLe, Dedup(ids))
  }

  function Position(ids: seq<string>, id: string): (i: nat)
    requires id in ids
    ensures i < |ids| && ids[i] == id
  {
    if ids[0] == id then 0 else 1 + Position(ids[1..], id)
  }

  /** The alias of a related person among the relationships of one snapshot. */
  function AliasOf(ids: seq<string>, id: string): string
    requires id in ids
  {
    SortPermutes(StringLe, Dedup(ids));
    DedupDistinct(ids);
    "Contact " + Letters(Position(DistinctSorted(ids), id))
  }

  /** The persons that come before. */
  ghost function Predecessors(ids: seq<string>, id: string): set<string> {
    set x | x in ids && x != id && StringLe(x, id)
  }

  /** The alias is numbered by the distinct persons that come before. */
  lemma AliasCountsPredecessors(ids: seq<string>, id: string)
    requires id in ids
    ensures AliasOf(ids, id) == "Contact " + Letters(|Predecessors(ids, id)|)
  {
    var sorted := DistinctSorted(ids);
    StringOrder();
    SortPermutes(StringLe, Dedup(ids));
    DedupDistinct(ids);
    SortSorted(StringLe, Dedup(ids));
    PermutationSameElements(sorted, Dedup(ids));
    DistinctCounts(Dedup(ids));
    DistinctCounts(sorted);
    PositionCounts(sorted, id);
    assert Predecessors(sorted, id) == Predecessors(ids, id);
  }

  ghost function ElementsOf(s: seq<string>): set<string> {
    set x | x in s
  }

  /** In a sorted list without repetitions the position is the number of elements before. */
  lemma PositionCounts(sorted: seq<string>, id: string)
    requires id in sorted && Distinct(sorted) && SortedBy(StringLe, sorted)
    ensures |Predecessors(sorted, id)| == Position(sorted, id)
  {
    var n := Position(sorted, id);
    StringOrder();
    PrefixElements(sorted, n);
    forall x
      ensures x in Predecessors(sorted, id) <==> x in ElementsOf(sorted[..n])
    {
      if x in Predecessors(sorted, id) {
        var i :| 0 <= i < |sorted| && sorted[i] == x;
        PlacedBefore(sorted, i, n);
        assert sorted[..n][i] == x;
      }
      if x in sorted[..n] {
        var i :| 0 <= i < n && sorted[..n][i] == x;
        assert sorted[i] == x && StringLe(sorted[i], sorted[n]) && sorted[i] != sorted[n];
      }
    }
    assert Predecessors(sorted, id) == ElementsOf(sorted[..n]);
  }

  lemma PlacedBefore(sorted: seq<string>, i: nat, n: nat)
    requires i < |sorted| && n < |sorted| && SortedBy(StringLe, sorted)
    requires StringLe(sorted[i], sorted[n]) && sorted[i] != sorted[n]
    ensures i < n
  {
    StringOrder();
  }

  lemma {:induction false} PrefixElements(s: seq<string>, n: nat)
    requires n <= |s| && Distinct(s)
    ensures |ElementsOf(s[..n])| == n
  {
    if n == 0 {
      assert ElementsOf(s[..n]) == {};
    } else {
      PrefixElements(s, n - 1);
      OneMoreElement(s[..n - 1], s[n - 1]);
      assert s[..n] == s[..n - 1] + [s[n - 1]];
    }
  }

  lemma OneMoreElement(s: seq<string>, x: string)
    requires x !in s
    ensures |ElementsOf(s + [x])| == |ElementsOf(s)| + 1
  {
    assert ElementsOf(s + [x]) == ElementsOf(s) + {x};
  }

  /** Two relationships of a snapshot share an alias exactly when they share the related person. */
  lemma AliasesTellPeopleApart(ids: seq<string>, a: string, b: string)
    requires a in ids && b in ids
    ensures AliasOf(ids, a) == AliasOf(ids, b) <==> a == b
  {
    SortPermutes(StringLe, Dedup(ids));
    DedupDistinct(ids);
    var i, j := Position(DistinctSorted(ids), a), Position(DistinctSorted(ids), b);
    if AliasOf(ids, a) == AliasOf(ids, b) {
      var text := "Contact ";
      assert (text + Letters(i))[|text|..] == Letters(i) && (text + Letters(j))[|text|..] == Letters(j);
      IndexUndoesLetters(i);
      IndexUndoesLetters(j);
    }
  }

  /** What `sorted` of a set gives, the alias table's order of people among it, ignores repetition and order. */
  lemma SortedSetDependsOnElements(a: seq<string>, b: seq<string>)
    requires forall id :: id in a <==> id in b
    ensures DistinctSorted(a) == DistinctSorted(b)
  {
    StringOrder();
    DedupDistinct(a);
    DedupDistinct(b);
    DistinctPermutes(Dedup(a), Dedup(b));
    SortPermutes(StringLe, Dedup(a));
    SortPermutes(StringLe, Dedup(b));
    SortSorted(StringLe, Dedup(a));
    SortSorted(StringLe, Dedup(b));
    SortedUnique(StringLe, DistinctSorted(a), DistinctSorted(b));
  }
}
