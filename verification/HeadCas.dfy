/**
  The forward-only head of a source record: one compare-and-set decision, the same for
  description heads and membership heads, and what it keeps over any run of proposals.
 */
module HeadCas {
  import opened Common
  import opened Sequences
  import opened Sorting
  import opened Text

  /** Instants are integers. */
  datatype OrderKey = OrderKey(availableAt: int, version: nat, recordPk: string)

  /** Heads are equal only if everything they carry is. */
  datatype Head = Head(orderKey: OrderKey, content: string)

  datatype Decision = Advance | Idempotent | StaleOrConflict

  datatype CompareAndSet = CompareAndSet(expected: Option<Head>, proposed: Head)

  // ----- The order -----

  /** By instant, then version, then record key. */
  predicate Before(a: OrderKey, b: OrderKey) {
    if a.availableAt != b.availableAt then a.availableAt < b.availableAt
    else if a.version != b.version then a.version < b.version
    else a.recordPk != b.recordPk && StringLe(a.recordPk, b.recordPk)
  }

  lemma BeforeIsStrict(a: OrderKey, b: OrderKey)
    ensures Before(a, b) ==> a != b && !Before(b, a)
    ensures a != b ==> Before(a, b) || Before(b, a)
  {
    StringOrder();
  }

  lemma BeforeIsTransitive(a: OrderKey, b: OrderKey, c: OrderKey)
    requires Before(a, b) && Before(b, c)
    ensures Before(a, c)
  {
    StringOrder();
  }

  /** Later by the first of instant, version and record key that differs. */
  lemma BeforeReadsFields(a: OrderKey, b: OrderKey)
    ensures Before(a, b) <==>
            || a.availableAt < b.availableAt
            || (a.availableAt == b.availableAt && a.version < b.version)
            || (a.availableAt == b.availableAt && a.version == b.version
                && a.recordPk != b.recordPk && TextBefore(a.recordPk, b.recordPk))
  {
    TextBeforeExactly(a.recordPk, b.recordPk);
  }

  // ----- The decision -----

  function DecisionFor(cas: CompareAndSet, current: Option<Head>): Decision {
    if current == Some(cas.proposed) then
      if cas.expected.None? || Before(cas.expected.value.orderKey, cas.proposed.orderKey) then Idempotent
      else StaleOrConflict
    else if current != cas.expected then StaleOrConflict
    else if current.None? || Before(current.value.orderKey, cas.proposed.orderKey) then Advance
    else StaleOrConflict
  }

  /** The mutation constructors accept a proposal exactly when it lies after the head it expects. */
  lemma MutationIsAcceptedExactlyWhenItAdvances(cas: CompareAndSet)
    ensures DecisionFor(cas, cas.expected) == Advance <==>
            cas.expected.None? || Before(cas.expected.value.orderKey, cas.proposed.orderKey)
  {
    if cas.expected.Some? {
      BeforeIsStrict(cas.expected.value.orderKey, cas.proposed.orderKey);
    }
  }

  /** An advance means the expected head is current; repeating an accepted proposal is idempotent. */
  lemma AdvanceMeansExpectedIsCurrent(cas: CompareAndSet, current: Option<Head>)
    ensures DecisionFor(cas, current) == Advance <==>
            current == cas.expected && (current.None? || Before(current.value.orderKey, cas.proposed.orderKey))
    ensures DecisionFor(cas, current) == Advance ==> DecisionFor(cas, Some(cas.proposed)) == Idempotent
  {
    if current.Some? {
      BeforeIsStrict(current.value.orderKey, cas.proposed.orderKey);
    }
  }

  /** What is no advance: idempotent exactly if the proposal is current and lay after what it expected, else stale. */
  lemma DecisionSaysExactly(cas: CompareAndSet, current: Option<Head>)
    ensures DecisionFor(cas, current) == Idempotent <==>
            && current == Some(cas.proposed)
            && (cas.expected.None? || Before(cas.expected.value.orderKey, cas.proposed.orderKey))
    ensures DecisionFor(cas, current) == StaleOrConflict <==>
            || (current != cas.expected && current != Some(cas.proposed))
            || (cas.expected.Some? && !Before(cas.expected.value.orderKey, cas.proposed.orderKey))
  {
    BeforeIsStrict(cas.proposed.orderKey, cas.proposed.orderKey);
  }

  // ----- Runs -----

  function After(cas: CompareAndSet, current: Option<Head>): Option<Head> {
    if DecisionFor(cas, current) == Advance then Some(cas.proposed) else current
  }

  function Final(current: Option<Head>, run: seq<CompareAndSet>): Option<Head> {
    if run == [] then current else After(run[|run| - 1], Final(current, run[..|run| - 1]))
  }

  /** The heads the run installs, the starting head first. */
  function Installed(current: Option<Head>, run: seq<CompareAndSet>): seq<Head> {
    if run == [] then if current.Some? then [current.value] else []
    else
      var cas, before := run[|run| - 1], run[..|run| - 1];
      Installed(current, before)
      + if DecisionFor(cas, Final(current, before)) == Advance then [cas.proposed] else []
  }

  ghost predicate Ascending(heads: seq<Head>) {
    forall i, j :: 0 <= i < j < |heads| ==> Before(heads[i].orderKey, heads[j].orderKey)
  }

  /** Every advance strictly raises the order, and the current head is the last one installed. */
  lemma {:induction false} RunOnlyAdvances(current: Option<Head>, run: seq<CompareAndSet>)
    ensures Ascending(Installed(current, run))
    ensures var heads := Installed(current, run);
            Final(current, run) == if heads == [] then None else Some(heads[|heads| - 1])
  {
    if run != [] {
      var cas, before := run[|run| - 1], run[..|run| - 1];
      RunOnlyAdvances(current, before);
      var heads, head := Installed(current, before), Final(current, before);
      AdvanceMeansExpectedIsCurrent(cas, head);
      if DecisionFor(cas, head) == Advance && heads != [] {
        forall i | 0 <= i < |heads|
          ensures Before(heads[i].orderKey, cas.proposed.orderKey)
        {
          if i < |heads| - 1 {
            BeforeIsTransitive(heads[i].orderKey, heads[|heads| - 1].orderKey, cas.proposed.orderKey);
          }
        }
      }
    }
  }

  /** A replaced head never comes back. */
  lemma NoHeadIsReinstalled(current: Option<Head>, run: seq<CompareAndSet>)
    ensures Distinct(Installed(current, run))
  {
    RunOnlyAdvances(current, run);
    var heads := Installed(current, run);
    forall i, j | 0 <= i < j < |heads|
      ensures heads[i] != heads[j]
    {
      BeforeIsStrict(heads[i].orderKey, heads[j].orderKey);
    }
  }

  /** A proposal built on a replaced head, or on no head once there is one, does not advance. */
  lemma StaleProposalsDoNotAdvance(current: Option<Head>, run: seq<CompareAndSet>, cas: CompareAndSet)
    requires var heads := Installed(current, run);
             if cas.expected.Some? then cas.expected.value in heads && Final(current, run) != cas.expected
             else heads != []
    ensures DecisionFor(cas, Final(current, run)) != Advance
  {
    RunOnlyAdvances(current, run);
    AdvanceMeansExpectedIsCurrent(cas, Final(current, run));
  }

  lemma {:induction false} InstalledGrows(current: Option<Head>, run: seq<CompareAndSet>, n: nat)
    requires n <= |run|
    ensures Installed(current, run[..n]) <= Installed(current, run)
  {
    if n == |run| {
      assert run[..n] == run;
    } else {
      var before := run[..|run| - 1];
      InstalledGrows(current, before, n);
      assert before[..n] == run[..n];
    }
  }

  /** Of the proposals against one expected head, at most one advances in any run. */
  lemma OneProposalWins(current: Option<Head>, run: seq<CompareAndSet>, i: nat, j: nat)
    requires i < j < |run| && run[i].expected == run[j].expected
    requires DecisionFor(run[i], Final(current, run[..i])) == Advance
    ensures DecisionFor(run[j], Final(current, run[..j])) != Advance
  {
    var early, late := run[..i + 1], run[..j];
    assert early[..i] == run[..i] && late[..i + 1] == early;
    RunOnlyAdvances(current, run[..i]);
    RunOnlyAdvances(current, early);
    RunOnlyAdvances(current, late);
    InstalledGrows(current, late, i + 1);
    InstalledGrows(current, early, i);
    AdvanceMeansExpectedIsCurrent(run[i], Final(current, run[..i]));
    AdvanceMeansExpectedIsCurrent(run[j], Final(current, late));
    NoHeadIsReinstalled(current, late);
    var heads, before := Installed(current, late), Installed(current, run[..i]);
    assert Installed(current, early) == before + [run[i].proposed];
    assert heads[..|before| + 1] == before + [run[i].proposed];
    if before != [] {
      assert heads[|before| - 1] == before[|before| - 1];
      assert heads[|heads| - 1] != heads[|before| - 1];
    }
  }

  /** A head that an atomic store keeps. */
  class HeadStore {
    var current: Option<Head>
    ghost var installed: seq<Head>

    ghost predicate Valid()
      reads this
    {
      && Ascending(installed)
      && current == (if installed == [] then None else Some(installed[|installed| - 1]))
    }

    constructor ()
      ensures Valid() && current == None && installed == []
    {
      current, installed := None, [];
    }

    method Apply(cas: CompareAndSet) returns (decision: Decision)
      requires Valid()
      modifies this
      ensures Valid()
      ensures decision == DecisionFor(cas, old(current)) && current == After(cas, old(current))
      ensures installed == old(installed) + if decision == Advance then [cas.proposed] else []
    {
      decision := DecisionFor(cas, current);
      if decision == Advance {
        AdvanceMeansExpectedIsCurrent(cas, current);
        forall i | 0 <= i < |installed|
          ensures Before(installed[i].orderKey, cas.proposed.orderKey)
        {
          if i < |installed| - 1 {
            BeforeIsTransitive(installed[i].orderKey, installed[|installed| - 1].orderKey, cas.proposed.orderKey);
          }
        }
        current := Some(cas.proposed);
        installed := installed + [cas.proposed];
      }
    }
  }
}
