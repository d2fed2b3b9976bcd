/**
  What the known-owner refresh persists: terminal coverage rows, the checkpoint with its
  cursor and counters, and the scope of each known deal. Each unit is one transaction.
 */
module RefreshRecords {
  import opened Common
  import opened Sequences

  datatype Deal = Deal(id: nat, category: Option<string>, payload: string)

  datatype Disposition =
    | Created
    | ExistingSameHash
    | UpdatedProjection
    | ScopeUnchanged
    | ExcludedOutOfScope
    | QuarantinedOwnerUnresolved
    | Conflict
    | FailedUnit

  datatype ScopeState = InScope | OutOfScope | Indeterminate

  datatype Phase = ScopedCensus | KnownOwnerRefresh

  /** Source identity and source boundary of a coverage row. */
  datatype CoverageKey = CoverageKey(phase: Phase, dealId: nat)

  /** The fields the outcome digest covers: equal rows are rows with equal digests. All rows are terminal. */
  datatype Row = Row(disposition: Disposition, observation: string, scope: ScopeState, entityKey: Option<string>,
                     category: Option<string>)

  datatype Counters = Counters(committed: nat, duplicate: nat, excluded: nat, retried: nat)

  datatype DealScope = DealScope(state: ScopeState, absenceStreak: nat)

  /** `visited` is a history variable: the deals whose units were committed in the refresh phase, in order. */
  datatype Store = Store(
    coverage: map<CoverageKey, Row>,
    cursor: Option<nat>,
    counters: Counters,
    scope: map<nat, DealScope>,
    visited: seq<nat>)

  datatype RefreshError =
    | RowCeiling
    | Deadline
    | SourceFailed
    | BatchUnaccounted
    | NeverKnown
    | Absent(dealId: nat, streak: nat)
    | UnconfirmedAbsence
    | NoCategory
    | NoEntityMapping
    | TransactionFailed
    | CoverageConflict

  datatype IngestResult = IngestResult(skippedDuplicate: bool, dropped: bool)

  function ResultDisposition(r: IngestResult): Disposition {
    if r.skippedDuplicate then ExistingSameHash else if r.dropped then Conflict else Created
  }

  function Advanced(c: Counters, d: Disposition): Counters {
    match d
    case Created | UpdatedProjection => c.(committed := c.committed + 1)
    case ExistingSameHash | ScopeUnchanged => c.(duplicate := c.duplicate + 1)
    case ExcludedOutOfScope | QuarantinedOwnerUnresolved | Conflict => c.(excluded := c.excluded + 1)
    case FailedUnit => c.(retried := c.retried + 1)
  }

  /** The coverage row, unless another outcome is stored under its key, and the checkpoint's advance. */
  function Recorded(s: Store, dealId: nat, row: Row): Result<Store, RefreshError> {
    var key := CoverageKey(KnownOwnerRefresh, dealId);
    if key in s.coverage && s.coverage[key] != row then Err(CoverageConflict)
    else Ok(s.(coverage := s.coverage[key := row], cursor := Some(dealId),
               counters := Advanced(s.counters, row.disposition), visited := s.visited + [dealId]))
  }

  /** A record seen at the source sets the scope and clears the absence streak. */
  function Seen(s: Store, dealId: nat, state: ScopeState): Store {
    s.(scope := s.scope[dealId := DealScope(state, 0)])
  }

  /** One unit's transaction; without a generation only the scope is written. */
  function UnitCommitted(s: Store, generation: bool, deal: Deal, row: Row): Result<Store, RefreshError> {
    var seen := Seen(s, deal.id, row.scope);
    if generation then Recorded(seen, deal.id, row) else Ok(seen)
  }

  function InScopeRow(deal: Deal, entityKey: string, result: IngestResult): Row {
    Row(ResultDisposition(result), deal.payload, InScope, Some(entityKey), deal.category)
  }

  function OutOfScopeRow(deal: Deal): Row {
    Row(ExcludedOutOfScope, deal.payload, OutOfScope, None, deal.category)
  }

  /** A healthy miss lengthens the streak; from the second on the deal is indeterminate. */
  function Missed(s: DealScope): DealScope {
    var streak := s.absenceStreak + 1;
    DealScope(if streak < 2 then s.state else Indeterminate, streak)
  }

  predicate AbsenceConfirmed(s: DealScope) {
    s.absenceStreak >= 2 || s.state == Indeterminate
  }

  /** From a deal last seen: one miss confirms nothing and keeps its state, a second makes it indeterminate. */
  lemma TwoMissesConfirm(s: DealScope)
    requires s.absenceStreak == 0
    ensures Missed(s) == DealScope(s.state, 1) && Missed(Missed(s)) == DealScope(Indeterminate, 2)
    ensures AbsenceConfirmed(s) <==> s.state == Indeterminate
    ensures AbsenceConfirmed(Missed(s)) <==> s.state == Indeterminate
    ensures AbsenceConfirmed(Missed(Missed(s)))
  {
  }

  /** Further misses lengthen the streak of a deal whose absence stays confirmed. */
  lemma MissesOnlyConfirm(s: DealScope)
    ensures Missed(s).absenceStreak == s.absenceStreak + 1
    ensures AbsenceConfirmed(s) ==> AbsenceConfirmed(Missed(s))
    ensures s.absenceStreak >= 1 ==> AbsenceConfirmed(Missed(s)) && Missed(s).state == Indeterminate
    ensures AbsenceConfirmed(s) && s.state != Indeterminate ==> s.absenceStreak >= 2
    ensures s.absenceStreak >= 2 ==> AbsenceConfirmed(s)
  {
  }

  // ----- Reconciliation -----

  function Rows(coverage: map<CoverageKey, Row>, d: Disposition): set<CoverageKey> {
    set k | k in coverage && coverage[k].disposition == d
  }

  function Count(coverage: map<CoverageKey, Row>, d: Disposition): nat {
    |Rows(coverage, d)|
  }

  datatype CoverageReconciliation = CoverageReconciliation(
    coverageCount: nat,
    terminalCount: nat,
    createdCount: nat,
    duplicateCount: nat,
    projectionCount: nat,
    unchangedCount: nat,
    excludedCount: nat,
    quarantineCount: nat,
    conflictCount: nat,
    failedCount: nat,
    checkpoint: Counters)
  {
    function Accounted(): nat {
      createdCount + duplicateCount + projectionCount + unchangedCount + excludedCount
      + quarantineCount + conflictCount + failedCount
    }

    predicate Complete() {
      && coverageCount == terminalCount == Accounted()
      && conflictCount == 0
      && failedCount == 0
      && checkpoint.committed == createdCount + projectionCount
      && checkpoint.duplicate == duplicateCount + unchangedCount
      && checkpoint.excluded == excludedCount + quarantineCount + conflictCount
      && checkpoint.retried == failedCount
    }
  }

  /** The query counts every coverage row of the stream, the census rows among them. */
  function Reconciliation(s: Store): CoverageReconciliation {
    CoverageReconciliation(
      |s.coverage|, |s.coverage|,
      Count(s.coverage, Created), Count(s.coverage, ExistingSameHash), Count(s.coverage, UpdatedProjection),
      Count(s.coverage, ScopeUnchanged), Count(s.coverage, ExcludedOutOfScope),
      Count(s.coverage, QuarantinedOwnerUnresolved), Count(s.coverage, Conflict), Count(s.coverage, FailedUnit),
      s.counters)
  }

  /** Each count of a reconciliation is the number of the rows that have its disposition. */
  lemma CountsAreOfTheirRows(s: Store, d: Disposition, rows: set<CoverageKey>)
    requires forall k :: k in rows <==> k in s.coverage && s.coverage[k].disposition == d
    ensures var r := Reconciliation(s);
            |rows| == match d
                      case Created => r.createdCount
                      case ExistingSameHash => r.duplicateCount
                      case UpdatedProjection => r.projectionCount
                      case ScopeUnchanged => r.unchangedCount
                      case ExcludedOutOfScope => r.excludedCount
                      case QuarantinedOwnerUnresolved => r.quarantineCount
                      case Conflict => r.conflictCount
                      case FailedUnit => r.failedCount
  {
    assert rows == Rows(s.coverage, d);
  }

  /** How far each checkpoint counter is from the coverage rows it should equal. */
  datatype Drift = Drift(committed: int, duplicate: int, excluded: int, retried: int)

  function DriftOf(s: Store): Drift {
    DriftIn(Reconciliation(s))
  }

  function DriftIn(r: CoverageReconciliation): Drift {
    Drift(r.checkpoint.committed - r.createdCount - r.projectionCount,
          r.checkpoint.duplicate - r.duplicateCount - r.unchangedCount,
          r.checkpoint.excluded - r.excludedCount - r.quarantineCount - r.conflictCount,
          r.checkpoint.retried - r.failedCount)
  }

  lemma IsCounted(coverage: map<CoverageKey, Row>, key: CoverageKey, row: Row, d: Disposition, k: CoverageKey)
    requires key !in coverage
    ensures k in Rows(coverage[key := row], d) <==> k in Rows(coverage, d) || (k == key && row.disposition == d)
  {
  }

  lemma CountAfterNewRow(coverage: map<CoverageKey, Row>, key: CoverageKey, row: Row, d: Disposition)
    requires key !in coverage
    ensures Count(coverage[key := row], d) == Count(coverage, d) + if row.disposition == d then 1 else 0
  {
    forall k
      ensures k in Rows(coverage[key := row], d) <==> k in Rows(coverage, d) || (k == key && row.disposition == d)
    {
      IsCounted(coverage, key, row, d, k);
    }
    OneMore(Rows(coverage, d), Rows(coverage[key := row], d), key, row.disposition == d);
  }

  lemma OneMore<T>(before: set<T>, after: set<T>, x: T, added: bool)
    requires x !in before
    requires forall k :: k in after <==> k in before || (k == x && added)
    ensures |after| == |before| + if added then 1 else 0
  {
    assert after == before + if added then {x} else {};
  }

  /** The eight dispositions account for every row. */
  lemma {:induction false} EveryRowIsAccounted(coverage: map<CoverageKey, Row>)
    ensures |coverage| == Count(coverage, Created) + Count(coverage, ExistingSameHash)
                          + Count(coverage, UpdatedProjection)
                          + Count(coverage, ScopeUnchanged) + Count(coverage, ExcludedOutOfScope)
                          + Count(coverage, QuarantinedOwnerUnresolved) + Count(coverage, Conflict)
                          + Count(coverage, FailedUnit)
    decreases |coverage|
  {
    if coverage.Keys == {} {
      assert coverage == map[];
    } else {
      var key :| key in coverage;
      var row := coverage[key];
      var rest := coverage - {key};
      assert coverage == rest[key := row];
      assert rest.Keys == coverage.Keys - {key};
      EveryRowIsAccounted(rest);
      CountAfterNewRow(rest, key, row, Created);
      CountAfterNewRow(rest, key, row, ExistingSameHash);
      CountAfterNewRow(rest, key, row, UpdatedProjection);
      CountAfterNewRow(rest, key, row, ScopeUnchanged);
      CountAfterNewRow(rest, key, row, ExcludedOutOfScope);
      CountAfterNewRow(rest, key, row, QuarantinedOwnerUnresolved);
      CountAfterNewRow(rest, key, row, Conflict);
      CountAfterNewRow(rest, key, row, FailedUnit);
    }
  }

  /** Reconciliation is complete exactly when no counter has drifted and no row is a conflict or a failure. */
  lemma CompleteExactlyWhenBalanced(s: Store)
    ensures Reconciliation(s).Complete() <==>
            && DriftOf(s) == Drift(0, 0, 0, 0)
            && NoRow(s.coverage, Conflict) && NoRow(s.coverage, FailedUnit)
  {
    EveryRowIsAccounted(s.coverage);
    NoneCounted(s.coverage, Conflict);
    NoneCounted(s.coverage, FailedUnit);
    CompleteArithmetic(Reconciliation(s));
  }

  /** In a complete reconciliation the checkpoint's counters add up to the coverage rows, all of them terminal. */
  lemma CompleteAddsUp(r: CoverageReconciliation)
    requires r.Complete()
    ensures r.coverageCount == r.terminalCount == r.Accounted()
    ensures r.coverageCount ==
            r.checkpoint.committed + r.checkpoint.duplicate + r.checkpoint.excluded + r.checkpoint.retried
  {
  }

  lemma CompleteArithmetic(r: CoverageReconciliation)
    requires r.coverageCount == r.terminalCount == r.Accounted()
    ensures r.Complete() <==> DriftIn(r) == Drift(0, 0, 0, 0) && r.conflictCount == r.failedCount == 0
  {
  }

  ghost predicate NoRow(coverage: map<CoverageKey, Row>, d: Disposition) {
    forall k :: k in coverage ==> coverage[k].disposition != d
  }

  lemma NoneCounted(coverage: map<CoverageKey, Row>, d: Disposition)
    ensures Count(coverage, d) == 0 <==> NoRow(coverage, d)
  {
    var rows := Rows(coverage, d);
    if Count(coverage, d) == 0 {
      assert rows == {};
      forall k | k in coverage
        ensures coverage[k].disposition != d
      {
        assert k !in rows;
      }
    }
    if NoRow(coverage, d) {
      assert rows == {};
    }
  }

  // ----- The accounting invariant -----

  ghost predicate Ascending(membership: seq<nat>) {
    forall i, j :: 0 <= i < j < |membership| ==> membership[i] < membership[j]
  }

  /** The refresh rows, the cursor and the membership agree on what has been visited. */
  ghost predicate Accounted(membership: seq<nat>, s: Store) {
    && s.visited <= membership
    && s.cursor == (if s.visited == [] then None else Some(s.visited[|s.visited| - 1]))
    && (forall d :: CoverageKey(KnownOwnerRefresh, d) in s.coverage <==> d in s.visited)
  }

  /** The phase starts with an empty cursor and no refresh row, whatever the census left behind. */
  lemma PhaseStartsAccounted(membership: seq<nat>, coverage: map<CoverageKey, Row>, counters: Counters,
                             scope: map<nat, DealScope>)
    ensures Accounted(membership, Store(coverage, None, counters, scope, [])) <==>
            forall k :: k in coverage ==> k.phase != KnownOwnerRefresh
  {
    if k :| k in coverage && k.phase == KnownOwnerRefresh {
      assert CoverageKey(KnownOwnerRefresh, k.dealId) in coverage;
    }
  }

  predicate IsPending(cursor: Option<nat>, d: nat) {
    cursor.None? || d > cursor.value
  }

  /** `[d for d in membership if last_known is None or d > last_known]`. */
  function Pending(membership: seq<nat>, cursor: Option<nat>): seq<nat> {
    if membership == [] then []
    else (if IsPending(cursor, membership[0]) then [membership[0]] else []) + Pending(membership[1..], cursor)
  }

  lemma {:induction false} PendingSuffix(membership: seq<nat>, cursor: Option<nat>, n: nat)
    requires n <= |membership|
    requires forall i :: 0 <= i < |membership| ==> (IsPending(cursor, membership[i]) <==> n <= i)
    ensures Pending(membership, cursor) == membership[n..]
  {
    if membership != [] {
      assert IsPending(cursor, membership[0]) <==> n <= 0;
      PendingSuffix(membership[1..], cursor, if n > 0 then n - 1 else 0);
    }
  }

  /** Resuming after the stored cursor resumes exactly behind the visited deals. */
  lemma PendingIsTheRest(membership: seq<nat>, s: Store)
    requires Ascending(membership) && Accounted(membership, s)
    ensures Pending(membership, s.cursor) == membership[|s.visited|..]
  {
    var n := |s.visited|;
    assert n > 0 ==> s.visited[n - 1] == membership[n - 1];
    PendingSuffix(membership, s.cursor, n);
  }

  lemma NextIsNotCovered(membership: seq<nat>, s: Store)
    requires Ascending(membership) && Accounted(membership, s) && |s.visited| < |membership|
    ensures CoverageKey(KnownOwnerRefresh, membership[|s.visited|]) !in s.coverage
  {
    assert forall i :: 0 <= i < |s.visited| ==> s.visited[i] == membership[i];
  }

  /** The next unit adds one row, moves the cursor to it and counts it once. */
  lemma NextUnitIsAccounted(membership: seq<nat>, s: Store, deal: Deal, row: Row)
    requires Ascending(membership) && Accounted(membership, s) && |s.visited| < |membership|
    requires deal.id == membership[|s.visited|]
    ensures UnitCommitted(s, true, deal, row).Ok?
    ensures var after := UnitCommitted(s, true, deal, row).value;
            Accounted(membership, after) && DriftOf(after) == DriftOf(s) && |after.coverage| == |s.coverage| + 1
  {
    NextIsNotCovered(membership, s);
    var seen := Seen(s, deal.id, row.scope);
    assert Accounted(membership, seen) && DriftOf(seen) == DriftOf(s);
    NewRowKeepsDrift(seen, deal.id, row);
    NewRowIsAccounted(membership, seen, row);
  }

  lemma NewRowIsAccounted(membership: seq<nat>, s: Store, row: Row)
    requires Ascending(membership) && Accounted(membership, s) && |s.visited| < |membership|
    requires CoverageKey(KnownOwnerRefresh, membership[|s.visited|]) !in s.coverage
    ensures var after := Recorded(s, membership[|s.visited|], row).value;
            Accounted(membership, after) && |after.coverage| == |s.coverage| + 1
  {
    var next := membership[|s.visited|];
    var after := Recorded(s, next, row).value;
    assert membership[..|s.visited| + 1] == membership[..|s.visited|] + [next] == s.visited + [next];
    assert after.coverage.Keys == s.coverage.Keys + {CoverageKey(KnownOwnerRefresh, next)};
  }

  lemma NewRowKeepsDrift(s: Store, dealId: nat, row: Row)
    requires CoverageKey(KnownOwnerRefresh, dealId) !in s.coverage
    ensures Recorded(s, dealId, row).Ok? && DriftOf(Recorded(s, dealId, row).value) == DriftOf(s)
  {
    var key := CoverageKey(KnownOwnerRefresh, dealId);
    CountAfterNewRow(s.coverage, key, row, Created);
    CountAfterNewRow(s.coverage, key, row, ExistingSameHash);
    CountAfterNewRow(s.coverage, key, row, UpdatedProjection);
    CountAfterNewRow(s.coverage, key, row, ScopeUnchanged);
    CountAfterNewRow(s.coverage, key, row, ExcludedOutOfScope);
    CountAfterNewRow(s.coverage, key, row, QuarantinedOwnerUnresolved);
    CountAfterNewRow(s.coverage, key, row, Conflict);
    CountAfterNewRow(s.coverage, key, row, FailedUnit);
  }

  /** Replaying a row that is already stored counts it a second time. */
  lemma ReplayDrifts(s: Store, dealId: nat, row: Row)
    requires CoverageKey(KnownOwnerRefresh, dealId) in s.coverage
             && s.coverage[CoverageKey(KnownOwnerRefresh, dealId)] == row
    ensures Recorded(s, dealId, row).Ok? && DriftOf(Recorded(s, dealId, row).value) != DriftOf(s)
  {
    var key := CoverageKey(KnownOwnerRefresh, dealId);
    assert s.coverage[key := row] == s.coverage;
  }

  /**
    A committed unit keeps the books exactly when the recorded deal is the one that was asked for.
    The single-deal lookup does not compare the identity the source returns with the one requested.
   */
  lemma UnitKeepsBooksExactlyForItsDeal(membership: seq<nat>, s: Store, deal: Deal, row: Row)
    requires Ascending(membership) && Accounted(membership, s) && |s.visited| < |membership|
    requires UnitCommitted(s, true, deal, row).Ok?
    ensures var after := UnitCommitted(s, true, deal, row).value;
            Accounted(membership, after) && DriftOf(after) == DriftOf(s) <==> deal.id == membership[|s.visited|]
  {
    var after := UnitCommitted(s, true, deal, row).value;
    var n := |s.visited|;
    if deal.id == membership[n] {
      NextUnitIsAccounted(membership, s, deal, row);
    } else {
      assert after.visited == s.visited + [deal.id];
    }
  }

  /** Asked for deal 1 of two, the source returns deal 2: the unit commits, and its row is not the next one's. */
  lemma AnotherDealLosesTheBooks()
    ensures var s := Store(map[], None, Counters(0, 0, 0, 0), map[], []);
            var deal := Deal(2, None, "payload");
            var after := UnitCommitted(s, true, deal, OutOfScopeRow(deal));
            && Ascending([1, 2]) && Accounted([1, 2], s)
            && after.Ok? && !Accounted([1, 2], after.value)
  {
    var s := Store(map[], None, Counters(0, 0, 0, 0), map[], []);
    var deal := Deal(2, None, "payload");
    assert UnitCommitted(s, true, deal, OutOfScopeRow(deal)).value.visited[0] == 2;
  }
}
