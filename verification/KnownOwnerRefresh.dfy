/**
  The refresh of the frozen known-owner set: batches of at most fifty deals, one transaction
  a unit, resumed from the stored cursor. The source, the clock and every transaction can fail
  at any point; a worker that dies between two steps leaves what such a failure leaves.
 */
module KnownOwnerRefresher {
  import opened Common
  import opened RefreshRecords

  const BATCH_SIZE := 50

  /**
    What the outside does at the n-th interaction. `None` is an exception; an aborted
    transaction is a lost fence, a requested stop, a store failure or a crash before commit.
   */
  datatype World = World(
    expired: nat -> bool,
    batch: (nat, seq<nat>) -> Option<map<nat, Option<Deal>>>,
    single: (nat, nat) -> Option<Option<Deal>>,
    ingested: nat -> IngestResult,
    aborted: nat -> bool)
  {
    /** The client rejects a batch entry whose identity is not the requested one. */
    ghost predicate BatchKeyed() {
      forall n, ids, d :: batch(n, ids).Some? && d in batch(n, ids).value && batch(n, ids).value[d].Some?
        ==> batch(n, ids).value[d].value.id == d
    }

    /** Nothing checks this of the single lookup. */
    ghost predicate SingleKeyed() {
      forall n, d :: single(n, d).Some? && single(n, d).value.Some? ==> single(n, d).value.value.id == d
    }
  }

  datatype Context = Context(
    generation: bool,
    maxRows: Option<nat>,
    included: set<string>,
    entityByCategory: map<string, string>)

  datatype Summary = Summary(refreshed: nat, movedOutOfScope: nat)

  /**
    The deal's category decides: an included one needs an entity and is ingested, any other is
    recorded as out of scope.
   */
  function Settlement(context: Context, deal: Deal, result: IngestResult): Result<Row, RefreshError> {
    if deal.category.None? then Err(NoCategory)
    else if deal.category.value !in context.included then Ok(OutOfScopeRow(deal))
    else if deal.category.value !in context.entityByCategory then Err(NoEntityMapping)
    else Ok(InScopeRow(deal, context.entityByCategory[deal.category.value], result))
  }

  /** A settled deal as the source gave it, and the interaction at which it would be ingested. */
  datatype Unit = Unit(deal: Deal, at: nat)

  /** A batch or a single lookup answered with the deal where `asked` was asked for. */
  ghost predicate FromSource(world: World, asked: nat, deal: Deal) {
    || (exists n, ids :: world.batch(n, ids).Some? && asked in world.batch(n, ids).value
                         && world.batch(n, ids).value[asked] == Some(deal))
    || (exists n :: world.single(n, asked) == Some(Some(deal)))
  }

  predicate Included(context: Context, u: Unit) {
    u.deal.category.Some? && u.deal.category.value in context.included
  }

  /** An ingested deal's disposition tells a repeated record, a dropped one and a new one apart. */
  predicate DispositionSays(result: IngestResult, d: Disposition) {
    && (d == ExistingSameHash <==> result.skippedDuplicate)
    && (d == Conflict <==> result.dropped && !result.skippedDuplicate)
    && (d == Created <==> !result.dropped && !result.skippedDuplicate)
  }

  /** The row keeps what was observed, and its scope, entity and disposition are the ones the category calls for. */
  ghost predicate RowSays(world: World, context: Context, row: Row, u: Unit) {
    && u.deal.category.Some? && row.category == u.deal.category && row.observation == u.deal.payload
    && var category := u.deal.category.value;
    if category in context.included then
      && row.scope == InScope && category in context.entityByCategory
      && row.entityKey == Some(context.entityByCategory[category])
      && DispositionSays(world.ingested(u.at), row.disposition)
    else
      row.scope == OutOfScope && row.entityKey == None && row.disposition == ExcludedOutOfScope
  }

  /** A deal settles exactly with a category that is not included or has an entity; its row, or the error, says so. */
  lemma SettlementSays(world: World, context: Context, deal: Deal, at: nat)
    ensures Settlement(context, deal, world.ingested(at)).Ok? <==>
            deal.category.Some?
            && (deal.category.value in context.included ==> deal.category.value in context.entityByCategory)
    ensures Settlement(context, deal, world.ingested(at)).Ok? ==>
              RowSays(world, context, Settlement(context, deal, world.ingested(at)).value, Unit(deal, at))
    ensures Settlement(context, deal, world.ingested(at)).Err? ==>
              Settlement(context, deal, world.ingested(at)).error ==
              if deal.category.None? then NoCategory else NoEntityMapping
  {
  }

  /** Committed work is never undone: the books stay kept, rows stay, and visits only append. */
  ghost predicate Progressed(membership: seq<nat>, before: Store, after: Store) {
    && Accounted(membership, after)
    && DriftOf(after) == DriftOf(before)
    && before.visited <= after.visited
    && (forall k :: k in before.coverage ==> k in after.coverage && after.coverage[k] == before.coverage[k])
  }

  lemma ProgressComposes(membership: seq<nat>, a: Store, b: Store, c: Store)
    requires Progressed(membership, a, b) && Progressed(membership, b, c)
    ensures Progressed(membership, a, c)
  {
  }

  lemma CommitProgresses(membership: seq<nat>, s: Store, deal: Deal, row: Row)
    requires Ascending(membership) && Accounted(membership, s) && |s.visited| < |membership|
    requires deal.id == membership[|s.visited|]
    ensures UnitCommitted(s, true, deal, row).Ok?
    ensures Progressed(membership, s, UnitCommitted(s, true, deal, row).value)
  {
    NextUnitIsAccounted(membership, s, deal, row);
    NextIsNotCovered(membership, s);
  }

  /** The books, and the deals that were asked for where the books have the deals that were recorded. */
  datatype Trail = Trail(books: Store, requested: seq<nat>, units: seq<Unit>)

  ghost predicate Agreed(t: Trail) {
    t.books.visited == t.requested
  }

  /** The books are kept as long as every recorded deal is the one asked for, and no longer. */
  ghost predicate Tracked(membership: seq<nat>, t: Trail) {
    && |t.requested| == |t.books.visited|
    && (Agreed(t) ==> Accounted(membership, t.books))
    && (!Agreed(t) ==> !(t.books.visited <= membership))
  }

  ghost predicate Followed(membership: seq<nat>, before: Trail, after: Trail) {
    && Tracked(membership, after)
    && before.requested <= after.requested
    && (Agreed(after) ==> Agreed(before) && Progressed(membership, before.books, after.books))
  }

  ghost predicate OnlyScopeChanged(before: Trail, after: Trail) {
    after == before.(books := before.books.(scope := after.books.scope), units := after.units)
  }

  /** Nothing but the absence streak of the deal has changed. */
  ghost predicate OnlyStreakChanged(before: Trail, after: Trail, dealId: nat) {
    && OnlyScopeChanged(before, after) && after.units == before.units
    && (forall d :: d != dealId && d in before.books.scope ==>
          d in after.books.scope && after.books.scope[d] == before.books.scope[d])
  }

  lemma ScopeChangeFollows(membership: seq<nat>, before: Trail, after: Trail)
    requires Tracked(membership, before) && OnlyScopeChanged(before, after)
    ensures Followed(membership, before, after)
  {
  }

  lemma FollowingComposes(membership: seq<nat>, a: Trail, b: Trail, c: Trail)
    requires Followed(membership, a, b) && Followed(membership, b, c)
    ensures Followed(membership, a, c)
  {
    if Agreed(c) {
      ProgressComposes(membership, a.books, b.books, c.books);
    }
  }

  /** From kept books, later books are kept exactly when every recorded deal is the one that was asked for. */
  lemma KeptExactlyInAgreement(membership: seq<nat>, before: Trail, after: Trail)
    requires Agreed(before) && Followed(membership, before, after)
    ensures Agreed(after) <==> Progressed(membership, before.books, after.books)
  {
  }

  function Committed(t: Trail, asked: nat, unit: Unit, books: Store): Trail {
    Trail(books, t.requested + [asked], t.units + [unit])
  }

  /** The deal is committed, by its settlement under what ingestion said; without a generation no row is written. */
  ghost predicate Settled(world: World, context: Context, before: Trail, asked: nat, deal: Deal, state: ScopeState,
                          now: Trail) {
    exists at :: SettledAs(context, before, asked, Unit(deal, at), Settlement(context, deal, world.ingested(at)), state,
                           now)
  }

  ghost predicate SettledAs(context: Context, before: Trail, asked: nat, u: Unit, row: Result<Row, RefreshError>,
                            state: ScopeState, now: Trail) {
    && row.Ok? && row.value.scope == state
    && UnitCommitted(before.books, context.generation, u.deal, row.value) == Ok(now.books)
    && now.requested == before.requested + (if context.generation then [asked] else [])
    && now.units == before.units + [u]
  }

  /** A committed unit goes on agreeing exactly when the recorded deal is the one asked for. */
  lemma UnitFollows(membership: seq<nat>, t: Trail, asked: nat, deal: Deal, row: Row, u: Unit)
    requires Ascending(membership) && Tracked(membership, t) && UnitCommitted(t.books, true, deal, row).Ok?
    requires Agreed(t) ==> t.requested + [asked] <= membership
    ensures var after := Committed(t, asked, u, UnitCommitted(t.books, true, deal, row).value);
            && Followed(membership, t, after)
            && (Agreed(after) <==> Agreed(t) && deal.id == asked)
  {
    var after := Committed(t, asked, u, UnitCommitted(t.books, true, deal, row).value);
    assert after.books.visited == t.books.visited + [deal.id];
    BothAppended(t.books.visited, t.requested, deal.id, asked);
    if Agreed(t) {
      assert membership[|t.requested|] == asked by { assert (t.requested + [asked])[|t.requested|] == asked; }
      if deal.id == asked {
        CommitProgresses(membership, t.books, deal, row);
      } else {
        assert after.books.visited[|t.requested|] != membership[|t.requested|];
      }
    }
  }

  lemma BothAppended(s: seq<nat>, t: seq<nat>, x: nat, y: nat)
    requires |s| == |t|
    ensures s + [x] == t + [y] <==> s == t && x == y
  {
    if s + [x] == t + [y] {
      assert (s + [x])[..|s|] == s && (t + [y])[..|s|] == t;
      assert (s + [x])[|s|] == x && (t + [y])[|s|] == y;
    }
  }

  /** Refresh rows of the listed deals that keep them in scope. */
  ghost function InScopeRows(coverage: map<CoverageKey, Row>, deals: seq<nat>): nat {
    if deals == [] then 0
    else
      var key := CoverageKey(KnownOwnerRefresh, deals[|deals| - 1]);
      InScopeRows(coverage, deals[..|deals| - 1])
      + if key in coverage && coverage[key].scope == InScope then 1 else 0
  }

  lemma {:induction false} KeptRowsCountTheSame(before: map<CoverageKey, Row>, after: map<CoverageKey, Row>,
                                                deals: seq<nat>)
    requires forall k :: k in before ==> k in after && after[k] == before[k]
    requires forall d :: d in deals ==> CoverageKey(KnownOwnerRefresh, d) in before
    ensures InScopeRows(after, deals) == InScopeRows(before, deals)
  {
    if deals != [] {
      assert deals[|deals| - 1] in deals;
      KeptRowsCountTheSame(before, after, deals[..|deals| - 1]);
    }
  }

  function Counted(tally: Summary, state: ScopeState): Summary {
    if state == InScope then tally.(refreshed := tally.refreshed + 1)
    else tally.(movedOutOfScope := tally.movedOutOfScope + 1)
  }

  /** The attempt has visited as many deals as it has counted, and counted each by what its row says. */
  ghost predicate RunSoFar(membership: seq<nat>, generation: bool, before: Store, now: Store, tally: Summary) {
    && Progressed(membership, before, now)
    && (generation ==> VisitedSoFar(before, now, tally))
  }

  ghost predicate VisitedSoFar(before: Store, now: Store, tally: Summary) {
    && |now.visited| == |before.visited| + tally.refreshed + tally.movedOutOfScope
    && tally.refreshed == InScopeRows(now.coverage, now.visited) - InScopeRows(before.coverage, before.visited)
  }

  /** What the attempt has counted stands as long as the recorded deals are those asked for. */
  ghost predicate AttemptSoFar(membership: seq<nat>, world: World, context: Context, before: Trail, now: Trail,
                               tally: Summary) {
    && Followed(membership, before, now)
    && Right(world, context, now) && UnitsCounted(context, before, now, tally)
    && (Agreed(now) ==> RunSoFar(membership, context.generation, before.books, now.books, tally))
  }

  lemma UnitIsCounted(before: map<CoverageKey, Row>, after: map<CoverageKey, Row>, visited: seq<nat>, dealId: nat)
    requires forall k :: k in before ==> k in after && after[k] == before[k]
    requires forall d :: d in visited ==> CoverageKey(KnownOwnerRefresh, d) in before
    requires CoverageKey(KnownOwnerRefresh, dealId) in after
    ensures InScopeRows(after, visited + [dealId]) ==
            InScopeRows(before, visited)
            + if after[CoverageKey(KnownOwnerRefresh, dealId)].scope == InScope then 1 else 0
  {
    KeptRowsCountTheSame(before, after, visited);
    assert (visited + [dealId])[..|visited|] == visited;
  }

  /** A settled deal is recorded in its place, by what it became. */
  ghost predicate RecordedAs(previous: Store, now: Store, dealId: nat, state: ScopeState) {
    var key := CoverageKey(KnownOwnerRefresh, dealId);
    now.visited == previous.visited + [dealId] && key in now.coverage && now.coverage[key].scope == state
  }

  /** One more settled deal, with a generation or without. */
  lemma UnitExtendsAttempt(membership: seq<nat>, world: World, context: Context, before: Trail, previous: Trail,
                           now: Trail, tally: Summary, dealId: nat, state: ScopeState)
    requires AttemptSoFar(membership, world, context, before, previous, tally)
    requires Followed(membership, previous, now) && Right(world, context, now)
    requires |now.units| == |previous.units| + 1 && previous.units <= now.units
    requires state == if Included(context, now.units[|previous.units|]) then InScope else OutOfScope
    requires context.generation && Agreed(now) ==> RecordedAs(previous.books, now.books, dealId, state)
    ensures AttemptSoFar(membership, world, context, before, now, Counted(tally, state))
    ensures var c := Counted(tally, state);
            c.refreshed + c.movedOutOfScope == tally.refreshed + tally.movedOutOfScope + 1
  {
    FollowingComposes(membership, before, previous, now);
    UnitCountsOnce(context, before, previous, now, tally, state);
    if context.generation && Agreed(now) {
      UnitIsCounted(previous.books.coverage, now.books.coverage, previous.books.visited, dealId);
    }
  }

  /** The batch accounts for every requested deal. */
  ghost predicate Answers(deals: seq<nat>, batch: map<nat, Option<Deal>>) {
    forall i :: 0 <= i < |deals| ==> deals[i] in batch
  }

  ghost predicate Named(found: Option<Deal>, dealId: nat) {
    found.Some? ==> found.value.id == dealId
  }

  /** The deals continue the requested ones in the membership, where that is expected. */
  ghost predicate IsNext(membership: seq<nat>, expected: bool, requested: seq<nat>, deals: seq<nat>) {
    expected ==> requested + deals <= membership
  }

  lemma SettledFollows(membership: seq<nat>, world: World, context: Context, before: Trail, asked: nat, deal: Deal,
                       state: ScopeState, now: Trail)
    requires Ascending(membership) && Tracked(membership, before)
    requires IsNext(membership, context.generation && Agreed(before), before.requested, [asked])
    requires Settled(world, context, before, asked, deal, state, now)
    ensures Followed(membership, before, now)
    ensures Agreed(before) && deal.id == asked ==> Agreed(now)
    ensures context.generation && Agreed(now) ==> RecordedAs(before.books, now.books, asked, state)
  {
    var at :| SettledAs(context, before, asked, Unit(deal, at), Settlement(context, deal, world.ingested(at)), state,
                        now);
    if context.generation {
      UnitFollows(membership, before, asked, deal, Settlement(context, deal, world.ingested(at)).value, Unit(deal, at));
    } else {
      ScopeChangeFollows(membership, before, now);
    }
  }

  // ----- What the units say -----

  /** Under a generation every unit is a visited deal, came from the source as asked, and has the row it calls for. */
  ghost predicate UnitsAreRight(world: World, context: Context, t: Trail) {
    context.generation ==>
      && |t.units| == |t.requested| == |t.books.visited|
      && forall i :: 0 <= i < |t.units| ==> UnitIsRight(world, context, t, i)
  }

  ghost predicate UnitIsRight(world: World, context: Context, t: Trail, i: nat)
    requires i < |t.units| == |t.requested| == |t.books.visited|
  {
    var u, key := t.units[i], CoverageKey(KnownOwnerRefresh, t.units[i].deal.id);
    && t.books.visited[i] == u.deal.id && FromSource(world, t.requested[i], u.deal)
    && key in t.books.coverage && RowSays(world, context, t.books.coverage[key], u)
  }

  /** While asked and recorded deals agree, each visited deal's scope is the one its category calls for. */
  ghost predicate ScopesAreRight(context: Context, t: Trail) {
    context.generation && Agreed(t) && |t.units| == |t.books.visited| ==>
      forall i :: 0 <= i < |t.units| ==> ScopeIsRight(context, t.books.scope, t.units[i])
  }

  ghost predicate ScopeIsRight(context: Context, scope: map<nat, DealScope>, u: Unit) {
    u.deal.id in scope && scope[u.deal.id] == DealScope(if Included(context, u) then InScope else OutOfScope, 0)
  }

  ghost predicate Right(world: World, context: Context, t: Trail) {
    UnitsAreRight(world, context, t) && ScopesAreRight(context, t)
  }

  lemma SettledUnitIsRight(world: World, context: Context, before: Trail, asked: nat, deal: Deal, state: ScopeState,
                           now: Trail)
    requires UnitsAreRight(world, context, before) && FromSource(world, asked, deal)
    requires Settled(world, context, before, asked, deal, state, now)
    ensures UnitsAreRight(world, context, now)
    ensures |now.units| == |before.units| + 1 && before.units <= now.units && now.units[|before.units|].deal == deal
    ensures state == if Included(context, now.units[|before.units|]) then InScope else OutOfScope
    ensures ScopeIsRight(context, now.books.scope, now.units[|before.units|])
  {
    var at :| SettledAs(context, before, asked, Unit(deal, at), Settlement(context, deal, world.ingested(at)), state,
                        now);
    SettlementSays(world, context, deal, at);
    if context.generation {
      assert now.books.visited == before.books.visited + [deal.id];
      forall i | 0 <= i < |now.units|
        ensures UnitIsRight(world, context, now, i)
      {
        if i < |before.units| {
          assert UnitIsRight(world, context, before, i);
        }
      }
    }
  }

  lemma SettledScopesAreRight(membership: seq<nat>, world: World, context: Context, before: Trail, asked: nat,
                              deal: Deal, state: ScopeState, now: Trail)
    requires Ascending(membership) && Tracked(membership, before) && Tracked(membership, now)
    requires Right(world, context, before) && FromSource(world, asked, deal)
    requires Settled(world, context, before, asked, deal, state, now)
    ensures ScopesAreRight(context, now)
  {
    SettledUnitIsRight(world, context, before, asked, deal, state, now);
    if context.generation && Agreed(now) {
      var visited := now.books.visited;
      assert visited == before.books.visited + [deal.id];
      BothAppended(before.books.visited, before.requested, deal.id, asked);
      forall i | 0 <= i < |now.units|
        ensures ScopeIsRight(context, now.books.scope, now.units[i])
      {
        if i < |before.units| {
          assert UnitIsRight(world, context, before, i);
          assert ScopeIsRight(context, before.books.scope, before.units[i]);
          assert visited[i] == membership[i] && visited[|before.units|] == membership[|before.units|];
        }
      }
    }
  }

  lemma StreakKeepsRight(membership: seq<nat>, world: World, context: Context, before: Trail, now: Trail, dealId: nat)
    requires Ascending(membership) && Tracked(membership, before) && Right(world, context, before)
    requires OnlyStreakChanged(before, now, dealId)
    requires IsNext(membership, context.generation && Agreed(before), before.requested, [dealId])
    ensures Right(world, context, now)
  {
    if context.generation {
      forall i | 0 <= i < |now.units|
        ensures UnitIsRight(world, context, now, i)
      {
        assert UnitIsRight(world, context, before, i);
      }
      if Agreed(now) {
        forall i | 0 <= i < |now.units|
          ensures ScopeIsRight(context, now.books.scope, now.units[i])
        {
          assert UnitIsRight(world, context, before, i);
          assert ScopeIsRight(context, before.books.scope, before.units[i]);
          NextIsNotVisited(membership, before.requested, dealId, i);
        }
      }
    }
  }

  lemma NextIsNotVisited(membership: seq<nat>, requested: seq<nat>, dealId: nat, i: nat)
    requires Ascending(membership) && requested + [dealId] <= membership && i < |requested|
    ensures requested[i] != dealId
  {
    assert (requested + [dealId])[|requested|] == dealId && (requested + [dealId])[i] == requested[i];
  }

  /** The source gave this deal of the membership, and row and scope are the ones its category calls for. */
  ghost predicate MemberIsRight(world: World, context: Context, t: Trail, member: nat, u: Unit) {
    var key := CoverageKey(KnownOwnerRefresh, member);
    && u.deal.id == member && FromSource(world, member, u.deal)
    && key in t.books.coverage && RowSays(world, context, t.books.coverage[key], u)
    && ScopeIsRight(context, t.books.scope, u)
  }

  lemma EveryMemberIsRight(membership: seq<nat>, world: World, context: Context, t: Trail)
    requires context.generation && Right(world, context, t) && Agreed(t) && t.books.visited == membership
    ensures |t.units| == |membership|
    ensures forall i :: 0 <= i < |t.units| ==> MemberIsRight(world, context, t, membership[i], t.units[i])
  {
    forall i | 0 <= i < |t.units|
      ensures MemberIsRight(world, context, t, membership[i], t.units[i])
    {
      assert UnitIsRight(world, context, t, i);
      assert ScopeIsRight(context, t.books.scope, t.units[i]);
    }
  }

  /** How many of the units have an included category. */
  function CountIncluded(context: Context, units: seq<Unit>): nat {
    if units == [] then 0
    else CountIncluded(context, units[..|units| - 1]) + if Included(context, units[|units| - 1]) then 1 else 0
  }

  /** The attempt has counted every unit it settled, an included one as refreshed and any other as moved. */
  ghost predicate UnitsCounted(context: Context, before: Trail, now: Trail, tally: Summary) {
    && before.units <= now.units
    && |now.units| == |before.units| + tally.refreshed + tally.movedOutOfScope
    && tally.refreshed == CountIncluded(context, now.units[|before.units|..])
  }

  lemma UnitCountsOnce(context: Context, before: Trail, previous: Trail, now: Trail, tally: Summary, state: ScopeState)
    requires UnitsCounted(context, before, previous, tally)
    requires |now.units| == |previous.units| + 1 && previous.units <= now.units
    requires state == if Included(context, now.units[|previous.units|]) then InScope else OutOfScope
    ensures UnitsCounted(context, before, now, Counted(tally, state))
  {
    var n, added := |before.units|, now.units[|before.units|..];
    assert added[..|added| - 1] == previous.units[n..];
    assert added[|added| - 1] == now.units[|previous.units|];
  }

  lemma NextDeal(membership: seq<nat>, expected: bool, requested: seq<nat>, deals: seq<nat>, i: nat)
    requires IsNext(membership, expected, requested, deals) && i < |deals|
    ensures IsNext(membership, expected, requested + deals[..i], [deals[i]])
    ensures requested + deals[..i] + [deals[i]] == requested + deals[..i + 1]
  {
    assert deals == deals[..i] + [deals[i]] + deals[i + 1..];
    assert requested + deals == requested + deals[..i] + [deals[i]] + deals[i + 1..];
  }

  /** `pending_ids[offset:offset + 50]`. */
  function Batch(pending: seq<nat>, offset: nat): (deals: seq<nat>)
    requires offset < |pending|
    ensures 0 < |deals| <= BATCH_SIZE && offset + |deals| <= |pending|
    ensures |deals| < BATCH_SIZE ==> offset + |deals| == |pending|
    ensures forall i :: 0 <= i < |deals| ==> deals[i] == pending[offset + i]
  {
    pending[offset..if offset + BATCH_SIZE <= |pending| then offset + BATCH_SIZE else |pending|]
  }

  lemma BatchIsNext(membership: seq<nat>, expected: bool, requested: seq<nat>, pending: seq<nat>, offset: nat)
    requires offset < |pending| && IsNext(membership, expected, requested, pending[offset..])
    ensures var deals := Batch(pending, offset);
            && IsNext(membership, expected, requested, deals)
            && IsNext(membership, expected, requested + deals, pending[offset + |deals|..])
  {
    var deals := Batch(pending, offset);
    assert pending[offset..] == deals + pending[offset + |deals|..];
    assert requested + pending[offset..] == requested + deals + pending[offset + |deals|..];
  }

  // ----- What an exception tells -----

  /** A batch accounted for the deal as not found. */
  ghost predicate NotFound(world: World, dealId: nat) {
    exists n, ids :: world.batch(n, ids).Some? && dealId in world.batch(n, ids).value
                     && world.batch(n, ids).value[dealId] == None
  }

  ghost predicate SourceRaises(world: World, n: nat) {
    (exists ids :: world.batch(n, ids).None?) || (exists d :: world.single(n, d).None?)
  }

  ghost predicate BatchDiffers(world: World, n: nat) {
    exists ids :: world.batch(n, ids).Some? && world.batch(n, ids).value.Keys != set d | d in ids
  }

  ghost predicate NotMapped(context: Context, deal: Deal) {
    deal.category.Some? && deal.category.value in context.included
    && deal.category.value !in context.entityByCategory
  }

  /** What an exception tells of the interactions from `from` to before `to`, or of the deals the source gives. */
  ghost predicate CalledFor(world: World, context: Context, e: RefreshError, from: nat, to: nat) {
    match e
    case Deadline => exists n :: from <= n < to && world.expired(n)
    case TransactionFailed => exists n :: from <= n < to && world.aborted(n)
    case SourceFailed => exists n :: from <= n < to && SourceRaises(world, n)
    case BatchUnaccounted => exists n :: from <= n < to && BatchDiffers(world, n)
    case NeverKnown => exists d :: NotFound(world, d)
    case Absent(d, _) => NotFound(world, d)
    case NoCategory => exists asked, deal :: FromSource(world, asked, deal) && deal.category.None?
    case NoEntityMapping => exists asked, deal :: FromSource(world, asked, deal) && NotMapped(context, deal)
    case CoverageConflict => exists asked, deal :: FromSource(world, asked, deal) && deal.id != asked
    case RowCeiling | UnconfirmedAbsence => false
  }

  /** Every interaction is answered in time, and every deal is found as asked, with a category that settles. */
  ghost predicate Cooperative(world: World, context: Context) {
    && (forall n :: !world.expired(n) && !world.aborted(n) && !SourceRaises(world, n) && !BatchDiffers(world, n))
    && (forall d :: !NotFound(world, d))
    && (forall asked, deal :: FromSource(world, asked, deal) ==>
          deal.id == asked && deal.category.Some? && !NotMapped(context, deal))
  }

  ghost predicate AboveCeiling(context: Context, membership: seq<nat>) {
    context.maxRows.Some? && |membership| > context.maxRows.value
  }

  /** The row ceiling is exceeded, or the outside or the source's deals call for the exception. */
  ghost predicate EndedBy(world: World, context: Context, membership: seq<nat>, e: RefreshError, from: nat, to: nat) {
    if AboveCeiling(context, membership) then e == RowCeiling else CalledFor(world, context, e, from, to)
  }

  /** A run raises only what is called for; where everything cooperates it returns exactly below the ceiling. */
  ghost predicate EndsAsCalledFor(world: World, context: Context, membership: seq<nat>,
                                  r: Result<Summary, RefreshError>, from: nat, to: nat) {
    && (r.Err? ==> EndedBy(world, context, membership, r.error, from, to))
    && (Cooperative(world, context) ==> (r.Ok? <==> !AboveCeiling(context, membership)))
  }

  lemma CooperationCallsForNothing(world: World, context: Context, e: RefreshError, from: nat, to: nat)
    ensures Cooperative(world, context) ==> !CalledFor(world, context, e, from, to)
  {
  }

  /** A deal already covered was recorded for another one, or another one was given now. */
  lemma ConflictIsMisgiven(membership: seq<nat>, world: World, context: Context, t: Trail, asked: nat, deal: Deal)
    requires Ascending(membership) && Tracked(membership, t) && Right(world, context, t) && context.generation
    requires IsNext(membership, Agreed(t), t.requested, [asked]) && FromSource(world, asked, deal)
    requires CoverageKey(KnownOwnerRefresh, deal.id) in t.books.coverage
    ensures exists asked, deal :: FromSource(world, asked, deal) && deal.id != asked
  {
    if Agreed(t) {
      assert membership[|t.requested|] == asked by { assert (t.requested + [asked])[|t.requested|] == asked; }
      NextIsNotCovered(membership, t.books);
    } else {
      var i :| 0 <= i < |t.requested| && t.books.visited[i] != t.requested[i];
      assert UnitIsRight(world, context, t, i);
    }
  }

  /** The named deal was missed twice since it was last seen, or is indeterminate. */
  ghost predicate ConfirmedAbsent(scope: map<nat, DealScope>, error: RefreshError)
    requires error.Absent?
  {
    error.dealId in scope && AbsenceConfirmed(scope[error.dealId]) && scope[error.dealId].absenceStreak == error.streak
  }

  class Refresher {
    const world: World
    var coverage: map<CoverageKey, Row>
    var cursor: Option<nat>
    var counters: Counters
    var scope: map<nat, DealScope>
    ghost var visited: seq<nat>
    ghost var requested: seq<nat>
    ghost var units: seq<Unit>
    var interactions: nat

    ghost function Books(): Store
      reads this
    {
      Store(coverage, cursor, counters, scope, visited)
    }

    ghost function Run(): Trail
      reads this
    {
      Trail(Books(), requested, units)
    }

    constructor (world: World, coverage: map<CoverageKey, Row>, counters: Counters, scope: map<nat, DealScope>)
      ensures this.world == world && Run() == Trail(Store(coverage, None, counters, scope, []), [], [])
      ensures interactions == 0
    {
      this.world := world;
      this.coverage, this.counters, this.scope := coverage, counters, scope;
      cursor, visited, requested, units, interactions := None, [], [], [], 0;
    }

    /** The transaction of one unit: scope, coverage row and checkpoint together, or nothing. */
    method CommitUnit(generation: bool, ghost asked: nat, ghost at: nat, deal: Deal, row: Row)
      returns (error: Option<RefreshError>)
      modifies this
      ensures error.None? ==> UnitCommitted(old(Books()), generation, deal, row) == Ok(Books())
      ensures error.None? ==> requested == old(requested) + (if generation then [asked] else [])
      ensures error.None? ==> units == old(units) + [Unit(deal, at)]
      ensures error.Some? ==> Run() == old(Run()) && error.value in {TransactionFailed, CoverageConflict}
      ensures error == Some(TransactionFailed) <==> world.aborted(old(interactions))
      ensures error == Some(CoverageConflict) ==>
                UnitCommitted(old(Books()), generation, deal, row) == Err(CoverageConflict)
      ensures interactions == old(interactions) + 1
    {
      var n := interactions;
      interactions := interactions + 1;
      if world.aborted(n) {
        return Some(TransactionFailed);
      }
      var key := CoverageKey(KnownOwnerRefresh, deal.id);
      if generation {
        if key in coverage && coverage[key] != row {
          return Some(CoverageConflict);
        }
        coverage := coverage[key := row];
        cursor := Some(deal.id);
        counters := Advanced(counters, row.disposition);
        visited, requested := visited + [deal.id], requested + [asked];
      }
      scope := scope[deal.id := DealScope(row.scope, 0)];
      units := units + [Unit(deal, at)];
      return None;
    }

    /** Records one healthy miss in a transaction of its own. */
    method RecordHealthyNotFound(dealId: nat) returns (r: Result<DealScope, RefreshError>)
      modifies this
      ensures r.Ok? ==> dealId in old(scope) && r.value == Missed(old(scope)[dealId])
      ensures r.Ok? ==> Books() == old(Books()).(scope := old(scope)[dealId := r.value])
      ensures r.Err? ==> Books() == old(Books()) && r.error in {TransactionFailed, NeverKnown}
      ensures r == Err(TransactionFailed) <==> world.aborted(old(interactions))
      ensures r == Err(NeverKnown) ==> dealId !in scope
      ensures requested == old(requested) && units == old(units) && interactions == old(interactions) + 1
    {
      var n := interactions;
      interactions := interactions + 1;
      if world.aborted(n) {
        return Err(TransactionFailed);
      }
      if dealId !in scope {
        return Err(NeverKnown);
      }
      scope := scope[dealId := Missed(scope[dealId])];
      return Ok(scope[dealId]);
    }

    method RuntimeExpired() returns (expired: bool)
      modifies this
      ensures Run() == old(Run()) && interactions == old(interactions) + 1
      ensures expired == world.expired(old(interactions))
    {
      expired := world.expired(interactions);
      interactions := interactions + 1;
    }

    method LookUp(dealId: nat) returns (reply: Option<Option<Deal>>)
      modifies this
      ensures Run() == old(Run())
      ensures world.SingleKeyed() && reply.Some? ==> Named(reply.value, dealId)
      ensures reply == world.single(old(interactions), dealId) && interactions == old(interactions) + 1
    {
      reply := world.single(interactions, dealId);
      interactions := interactions + 1;
    }

    /** A miss in the batch is looked up once more; two recorded misses, or an indeterminate deal, confirm it. */
    method ConfirmMissing(ghost context: Context, dealId: nat) returns (r: Result<Option<Deal>, RefreshError>)
      modifies this
      ensures OnlyStreakChanged(old(Run()), Run(), dealId)
      ensures world.expired(old(interactions)) ==> r == Err(Deadline) && Run() == old(Run())
      ensures r.Ok? ==> dealId in old(scope)
      ensures r == Ok(None) ==> dealId in scope && AbsenceConfirmed(scope[dealId])
      ensures r == Ok(None) ==>
                var once := Missed(old(scope)[dealId]);
                if AbsenceConfirmed(once) then scope[dealId] == once
                else scope[dealId] == Missed(once) && exists n :: world.single(n, dealId) == Some(None)
      ensures r.Ok? && r.value.Some? ==> scope == old(scope)[dealId := Missed(old(scope)[dealId])]
      ensures r.Ok? && r.value.Some? ==> !AbsenceConfirmed(scope[dealId])
      ensures r.Ok? && world.SingleKeyed() ==> Named(r.value, dealId)
      ensures r.Ok? && r.value.Some? ==> FromSource(world, dealId, r.value.value)
      ensures r.Err? ==> r.error in {Deadline, SourceFailed, TransactionFailed, NeverKnown}
      ensures r.Err? && r.error != NeverKnown ==>
                CalledFor(world, context, r.error, old(interactions), interactions)
      ensures r == Err(NeverKnown) ==> dealId !in scope
      ensures interactions > old(interactions)
    {
      var expired := RuntimeExpired();
      if expired {
        return Err(Deadline);
      }
      var miss := RecordHealthyNotFound(dealId);
      if miss.Err? {
        return Err(miss.error);
      }
      if AbsenceConfirmed(miss.value) {
        return Ok(None);
      }
      ghost var n := interactions;
      var reply := LookUp(dealId);
      if reply.None? {
        assert SourceRaises(world, n);
        return Err(SourceFailed);
      }
      if reply.value.Some? {
        return Ok(reply.value);
      }
      expired := RuntimeExpired();
      if expired {
        return Err(Deadline);
      }
      miss := RecordHealthyNotFound(dealId);
      if miss.Err? {
        return Err(miss.error);
      }
      if !AbsenceConfirmed(miss.value) {
        return Err(UnconfirmedAbsence);
      }
      return Ok(None);
    }

    /** Ingests an included deal, or records that it left the scope; tells which. */
    method SettleDeal(context: Context, ghost asked: nat, deal: Deal) returns (r: Result<ScopeState, RefreshError>)
      modifies this
      ensures r == Err(NoCategory) <==> deal.category.None?
      ensures r == Err(NoEntityMapping) <==>
              && deal.category.Some? && deal.category.value in context.included
              && deal.category.value !in context.entityByCategory
      ensures r.Err? ==> Run() == old(Run())
      ensures r.Err? ==> r.error in {NoCategory, NoEntityMapping, TransactionFailed, CoverageConflict}
      ensures r == Err(TransactionFailed) <==>
              deal.category.Some? && !NotMapped(context, deal) && world.aborted(old(interactions))
      ensures r == Err(CoverageConflict) ==> context.generation && CoverageKey(KnownOwnerRefresh, deal.id) in coverage
      ensures interactions == old(interactions) + if deal.category.None? || NotMapped(context, deal) then 0 else 1
      ensures r.Ok? ==> deal.category.Some?
      ensures r.Ok? ==> r.value == if deal.category.value in context.included then InScope else OutOfScope
      ensures r.Ok? ==> deal.id in scope && scope[deal.id] == DealScope(r.value, 0)
      ensures r.Ok? ==> units == old(units) + [Unit(deal, old(interactions))]
      ensures r.Ok? && context.generation ==>
                var key := CoverageKey(KnownOwnerRefresh, deal.id);
                key in coverage && RowSays(world, context, coverage[key], Unit(deal, old(interactions)))
      ensures r.Ok? ==> Settled(world, context, old(Run()), asked, deal, r.value, Run())
    {
      ghost var at := interactions;
      SettlementSays(world, context, deal, at);
      if deal.category.None? {
        return Err(NoCategory);
      }
      var category := deal.category.value;
      if category in context.included {
        if category !in context.entityByCategory {
          return Err(NoEntityMapping);
        }
        var result := world.ingested(interactions);
        var row := InScopeRow(deal, context.entityByCategory[category], result);
        var error := CommitUnit(context.generation, asked, at, deal, row);
        assert error.None? ==>
            SettledAs(context, old(Run()), asked, Unit(deal, at), Settlement(context, deal, world.ingested(at)),
                      InScope, Run());
        return if error.Some? then Err(error.value) else Ok(InScope);
      }
      var error := CommitUnit(context.generation, asked, at, deal, OutOfScopeRow(deal));
      assert error.None? ==>
          SettledAs(context, old(Run()), asked, Unit(deal, at), Settlement(context, deal, world.ingested(at)),
                    OutOfScope, Run());
      return if error.Some? then Err(error.value) else Ok(OutOfScope);
    }

    /** Settles a deal the source gave where the next of the membership was asked for. */
    method SettleNext(ghost membership: seq<nat>, context: Context, ghost dealId: nat, deal: Deal)
      returns (r: Result<ScopeState, RefreshError>)
      requires Ascending(membership) && Tracked(membership, Run())
      requires IsNext(membership, context.generation && Agreed(Run()), requested, [dealId])
      requires Right(world, context, Run()) && FromSource(world, dealId, deal)
      modifies this
      ensures Followed(membership, old(Run()), Run()) && Right(world, context, Run())
      ensures Agreed(old(Run())) && deal.id == dealId ==> Agreed(Run())
      ensures r.Err? ==> Run() == old(Run())
      ensures r.Err? ==> CalledFor(world, context, r.error, old(interactions), interactions)
      ensures r.Err? ==> r.error in {NoCategory, NoEntityMapping, TransactionFailed, CoverageConflict}
      ensures interactions >= old(interactions)
      ensures r.Ok? ==> |units| == |old(units)| + 1 && old(units) <= units && units[|old(units)|].deal == deal
      ensures r.Ok? ==> r.value == if Included(context, units[|old(units)|]) then InScope else OutOfScope
      ensures r.Ok? && context.generation ==> requested == old(requested) + [dealId]
      ensures r.Ok? && context.generation && Agreed(Run()) ==> RecordedAs(old(Books()), Books(), dealId, r.value)
    {
      ghost var before := Run();
      r := SettleDeal(context, dealId, deal);
      if r.Ok? {
        SettledFollows(membership, world, context, before, dealId, deal, r.value, Run());
        SettledUnitIsRight(world, context, before, dealId, deal, r.value, Run());
        SettledScopesAreRight(membership, world, context, before, dealId, deal, r.value, Run());
      } else if r.error == CoverageConflict {
        ConflictIsMisgiven(membership, world, context, before, dealId, deal);
      }
    }

    /** The deal the batch or the single lookup gave, unless its absence is confirmed. */
    method Find(ghost membership: seq<nat>, context: Context, dealId: nat, found: Option<Deal>)
      returns (r: Result<Deal, RefreshError>)
      requires Ascending(membership) && Tracked(membership, Run()) && Right(world, context, Run())
      requires IsNext(membership, context.generation && Agreed(Run()), requested, [dealId])
      requires if found.Some? then FromSource(world, dealId, found.value) else NotFound(world, dealId)
      modifies this
      ensures OnlyStreakChanged(old(Run()), Run(), dealId)
      ensures Followed(membership, old(Run()), Run()) && Right(world, context, Run())
      ensures world.expired(old(interactions)) ==> r == Err(Deadline) && Run() == old(Run())
      ensures r.Err? ==> CalledFor(world, context, r.error, old(interactions), interactions)
      ensures r.Err? && r.error.Absent? ==> ConfirmedAbsent(scope, r.error)
      ensures r.Ok? ==> FromSource(world, dealId, r.value) && (found.Some? ==> r.value == found.value)
      ensures r.Ok? && Named(found, dealId) && world.SingleKeyed() ==> r.value.id == dealId
      ensures interactions > old(interactions)
    {
      var expired := RuntimeExpired();
      if expired {
        return Err(Deadline);
      }
      if found.Some? {
        return Ok(found.value);
      }
      var confirmed := ConfirmMissing(context, dealId);
      ScopeChangeFollows(membership, old(Run()), Run());
      StreakKeepsRight(membership, world, context, old(Run()), Run(), dealId);
      if confirmed.Err? {
        return Err(confirmed.error);
      }
      if confirmed.value.None? {
        return Err(Absent(dealId, scope[dealId].absenceStreak));
      }
      return Ok(confirmed.value.value);
    }

    /** One deal of the membership, given what the batch said about it. */
    method RefreshUnit(ghost membership: seq<nat>, context: Context, dealId: nat, found: Option<Deal>)
      returns (r: Result<ScopeState, RefreshError>)
      requires Ascending(membership) && Tracked(membership, Run())
      requires IsNext(membership, context.generation && Agreed(Run()), requested, [dealId])
      requires Right(world, context, Run())
      requires if found.Some? then FromSource(world, dealId, found.value) else NotFound(world, dealId)
      modifies this
      ensures Followed(membership, old(Run()), Run()) && Right(world, context, Run())
      ensures Agreed(old(Run())) && Named(found, dealId) && world.SingleKeyed() ==> Agreed(Run())
      ensures world.expired(old(interactions)) ==> r == Err(Deadline) && Run() == old(Run())
      ensures r.Err? ==> CalledFor(world, context, r.error, old(interactions), interactions)
      ensures interactions > old(interactions)
      ensures r.Err? ==> visited == old(visited) && requested == old(requested) && units == old(units)
      ensures r.Ok? ==> |units| == |old(units)| + 1 && old(units) <= units
      ensures r.Ok? && found.Some? ==> units[|old(units)|].deal == found.value
      ensures r.Ok? ==> r.value == if Included(context, units[|old(units)|]) then InScope else OutOfScope
      ensures r.Ok? && context.generation ==> requested == old(requested) + [dealId]
      ensures r.Ok? && context.generation && Agreed(Run()) ==> RecordedAs(old(Books()), Books(), dealId, r.value)
      ensures r.Ok? ==> r.value in {InScope, OutOfScope}
      ensures r.Err? && r.error.Absent? ==> ConfirmedAbsent(scope, r.error)
    {
      var deal := Find(membership, context, dealId, found);
      if deal.Err? {
        return Err(deal.error);
      }
      ghost var before, n := Run(), interactions;
      r := SettleNext(membership, context, dealId, deal.value);
      FollowingComposes(membership, old(Run()), before, Run());
    }

    method RequestBatch(ghost context: Context, deals: seq<nat>)
      returns (r: Result<map<nat, Option<Deal>>, RefreshError>)
      modifies this
      ensures Run() == old(Run())
      ensures r.Ok? ==> Answers(deals, r.value)
      ensures r.Ok? ==> forall d :: d in r.value && r.value[d].Some? ==> FromSource(world, d, r.value[d].value)
      ensures r.Ok? && world.BatchKeyed() ==> forall d :: d in r.value ==> Named(r.value[d], d)
      ensures r == Err(Deadline) <==> world.expired(old(interactions))
      ensures r == Err(SourceFailed) <==>
              !world.expired(old(interactions)) && world.batch(old(interactions) + 1, deals).None?
      ensures r.Ok? ==> r.value.Keys == set d | d in deals
      ensures r.Err? ==> r.error in {Deadline, SourceFailed, BatchUnaccounted}
      ensures r.Err? ==> CalledFor(world, context, r.error, old(interactions), interactions)
      ensures r == Err(BatchUnaccounted) ==>
                var reply := world.batch(old(interactions) + 1, deals);
                reply.Some? && reply.value.Keys != set d | d in deals
      ensures r.Ok? ==> forall d :: d in r.value && r.value[d].None? ==> NotFound(world, d)
      ensures interactions == old(interactions) + if r == Err(Deadline) then 1 else 2
    {
      var expired := RuntimeExpired();
      if expired {
        return Err(Deadline);
      }
      ghost var n := interactions;
      var reply := world.batch(interactions, deals);
      interactions := interactions + 1;
      if reply.None? {
        assert SourceRaises(world, n);
        return Err(SourceFailed);
      }
      if reply.value.Keys != set d | d in deals {
        assert BatchDiffers(world, n);
        return Err(BatchUnaccounted);
      }
      assert forall i :: 0 <= i < |deals| ==> deals[i] in reply.value.Keys;
      return Ok(reply.value);
    }

    /** One deal of a batch, counted by what it becomes. */
    method RefreshNext(ghost membership: seq<nat>, context: Context, ghost before: Trail,
                       dealId: nat, found: Option<Deal>, tally: Summary)
      returns (r: Result<Summary, RefreshError>)
      requires Ascending(membership) && AttemptSoFar(membership, world, context, before, Run(), tally)
      requires IsNext(membership, context.generation && Agreed(Run()), requested, [dealId])
      requires if found.Some? then FromSource(world, dealId, found.value) else NotFound(world, dealId)
      modifies this
      ensures Followed(membership, before, Run()) && Right(world, context, Run())
      ensures before.units <= units
      ensures Agreed(old(Run())) && Named(found, dealId) && world.SingleKeyed() ==> Agreed(Run())
      ensures Agreed(Run()) ==> Agreed(old(Run()))
      ensures r.Err? && r.error.Absent? ==> ConfirmedAbsent(scope, r.error)
      ensures r.Err? ==> CalledFor(world, context, r.error, old(interactions), interactions)
      ensures interactions >= old(interactions)
      ensures r.Ok? ==> AttemptSoFar(membership, world, context, before, Run(), r.value)
      ensures r.Ok? ==> r.value.refreshed + r.value.movedOutOfScope == tally.refreshed + tally.movedOutOfScope + 1
      ensures r.Ok? && context.generation ==> requested == old(requested) + [dealId]
    {
      ghost var previous := Run();
      var settled := RefreshUnit(membership, context, dealId, found);
      if settled.Err? {
        FollowingComposes(membership, before, previous, Run());
        return Err(settled.error);
      }
      UnitExtendsAttempt(membership, world, context, before, previous, Run(), tally, dealId, settled.value);
      return Ok(Counted(tally, settled.value));
    }

    /** The deals of one batch. */
    method RefreshBatch(ghost membership: seq<nat>, context: Context, ghost before: Trail,
                        deals: seq<nat>, tally: Summary)
      returns (r: Result<Summary, RefreshError>)
      requires Ascending(membership) && AttemptSoFar(membership, world, context, before, Run(), tally)
      requires IsNext(membership, context.generation && Agreed(Run()), requested, deals)
      modifies this
      ensures Followed(membership, before, Run()) && Right(world, context, Run())
      ensures before.units <= units
      ensures Agreed(old(Run())) && world.BatchKeyed() && world.SingleKeyed() ==> Agreed(Run())
      ensures Agreed(Run()) ==> Agreed(old(Run()))
      ensures r.Err? && r.error.Absent? ==> ConfirmedAbsent(scope, r.error)
      ensures r.Err? ==> CalledFor(world, context, r.error, old(interactions), interactions)
      ensures interactions >= old(interactions)
      ensures r.Ok? ==> AttemptSoFar(membership, world, context, before, Run(), r.value)
      ensures r.Ok? ==> r.value.refreshed + r.value.movedOutOfScope == tally.refreshed + tally.movedOutOfScope + |deals|
      ensures r.Ok? && context.generation ==> requested == old(requested) + deals
    {
      ghost var expected := context.generation && Agreed(Run());
      var batch := RequestBatch(context, deals);
      if batch.Err? {
        return Err(batch.error);
      }
      r := Ok(tally);
      for i := 0 to |deals|
        invariant r.Ok? && AttemptSoFar(membership, world, context, before, Run(), r.value)
        invariant interactions >= old(interactions)
        invariant r.value.refreshed + r.value.movedOutOfScope == tally.refreshed + tally.movedOutOfScope + i
        invariant context.generation ==> requested == old(requested) + deals[..i]
        invariant Agreed(old(Run())) && world.BatchKeyed() && world.SingleKeyed() ==> Agreed(Run())
        invariant Agreed(Run()) ==> Agreed(old(Run()))
      {
        NextDeal(membership, expected, old(requested), deals, i);
        r := RefreshNext(membership, context, before, deals[i], batch.value[deals[i]], r.value);
        if r.Err? {
          return;
        }
      }
    }

    /** The pending deals, batch by batch. */
    method RefreshPending(ghost membership: seq<nat>, context: Context, ghost before: Trail,
                          pending: seq<nat>, tally: Summary)
      returns (r: Result<Summary, RefreshError>)
      requires Ascending(membership) && AttemptSoFar(membership, world, context, before, Run(), tally)
      requires IsNext(membership, context.generation && Agreed(Run()), requested, pending)
      modifies this
      ensures Followed(membership, before, Run()) && Right(world, context, Run())
      ensures before.units <= units
      ensures Agreed(old(Run())) && world.BatchKeyed() && world.SingleKeyed() ==> Agreed(Run())
      ensures r.Err? && r.error.Absent? ==> ConfirmedAbsent(scope, r.error)
      ensures r.Err? ==> CalledFor(world, context, r.error, old(interactions), interactions)
      ensures interactions >= old(interactions)
      ensures r.Ok? ==> AttemptSoFar(membership, world, context, before, Run(), r.value)
      ensures r.Ok? ==>
                r.value.refreshed + r.value.movedOutOfScope == tally.refreshed + tally.movedOutOfScope + |pending|
    {
      r := Ok(tally);
      var offset := 0;
      while offset < |pending|
        invariant offset <= |pending|
        invariant r.Ok? && AttemptSoFar(membership, world, context, before, Run(), r.value)
        invariant interactions >= old(interactions)
        invariant r.value.refreshed + r.value.movedOutOfScope == tally.refreshed + tally.movedOutOfScope + offset
        invariant IsNext(membership, context.generation && Agreed(Run()), requested, pending[offset..])
        invariant Agreed(old(Run())) && world.BatchKeyed() && world.SingleKeyed() ==> Agreed(Run())
      {
        var deals := Batch(pending, offset);
        BatchIsNext(membership, context.generation && Agreed(Run()), requested, pending, offset);
        r := RefreshBatch(membership, context, before, deals, r.value);
        if r.Err? {
          return;
        }
        offset := offset + |deals|;
      }
    }

    /** One attempt, from the cursor it finds to the end of the membership or to the first exception. */
    method Refresh(membership: seq<nat>, context: Context) returns (r: Result<Summary, RefreshError>)
      requires Ascending(membership) && Tracked(membership, Run()) && Right(world, context, Run())
      modifies this
      ensures Followed(membership, old(Run()), Run()) && Right(world, context, Run())
      ensures old(units) <= units
      ensures r.Ok? ==> UnitsCounted(context, old(Run()), Run(), r.value)
      ensures r == Err(RowCeiling) <==> AboveCeiling(context, membership)
      ensures r == Err(RowCeiling) ==> Run() == old(Run())
      ensures r.Err? ==> EndedBy(world, context, membership, r.error, old(interactions), interactions)
      ensures interactions >= old(interactions)
      ensures Agreed(old(Run())) ==> (Agreed(Run()) <==> Progressed(membership, old(Books()), Books()))
      ensures Agreed(old(Run())) && world.BatchKeyed() && world.SingleKeyed() ==> Agreed(Run())
      ensures r.Err? && r.error.Absent? ==> ConfirmedAbsent(scope, r.error)
      ensures r.Ok? && Agreed(Run()) ==>
                RunSoFar(membership, context.generation, old(Books()), Books(), r.value)
      ensures r.Ok? && Agreed(old(Run())) ==>
                r.value.refreshed + r.value.movedOutOfScope == |membership| - |old(visited)|
    {
      if context.maxRows.Some? && |membership| > context.maxRows.value {
        return Err(RowCeiling);
      }
      var pending := Pending(membership, cursor);
      if Agreed(Run()) {
        PendingIsTheRest(membership, Books());
        assert requested + membership[|requested|..] == membership;
      }
      r := RefreshPending(membership, context, Run(), pending, Summary(0, 0));
    }

    /** Attempts after exceptions, each from the stored cursor, until one returns. */
    method Attempt(membership: seq<nat>, context: Context, attempts: nat) returns (r: Result<Summary, RefreshError>)
      requires Ascending(membership) && Tracked(membership, Run()) && Agreed(Run())
      requires context.generation && Right(world, context, Run())
      modifies this
      ensures Followed(membership, old(Run()), Run()) && Right(world, context, Run())
      ensures world.BatchKeyed() && world.SingleKeyed() ==> Agreed(Run())
      ensures r.Ok? && Agreed(Run()) ==> visited == membership
      ensures attempts == 0 ==> r == Err(TransactionFailed) && Run() == old(Run())
      ensures attempts > 0 ==> EndsAsCalledFor(world, context, membership, r, old(interactions), interactions)
    {
      r := Err(TransactionFailed);
      var n := 0;
      while n < attempts && r.Err?
        invariant n <= attempts
        invariant Followed(membership, old(Run()), Run())
        invariant world.BatchKeyed() && world.SingleKeyed() ==> Agreed(Run())
        invariant r.Ok? && Agreed(Run()) ==> visited == membership
        invariant Right(world, context, Run())
        invariant interactions >= old(interactions)
        invariant n == 0 ==> r == Err(TransactionFailed) && Run() == old(Run())
        invariant n > 0 ==> EndsAsCalledFor(world, context, membership, r, old(interactions), interactions)
      {
        ghost var before := Run();
        r := Refresh(membership, context);
        FollowingComposes(membership, old(Run()), before, Run());
        if r.Err? {
          CooperationCallsForNothing(world, context, r.error, old(interactions), interactions);
        }
        n := n + 1;
      }
    }

    /**
      The run as its driver resumes it: attempts after exceptions, each from the stored cursor. The
      books are kept exactly when every recorded deal is the one that was asked for.
     */
    method RefreshWithRestarts(membership: seq<nat>, context: Context, attempts: nat)
      returns (r: Result<Summary, RefreshError>)
      requires Ascending(membership) && Accounted(membership, Books()) && visited == requested
      requires context.generation && Right(world, context, Run())
      modifies this
      ensures visited == requested <==> Progressed(membership, old(Books()), Books())
      ensures world.BatchKeyed() && world.SingleKeyed() ==> visited == requested
      ensures attempts > 0 ==> EndsAsCalledFor(world, context, membership, r, old(interactions), interactions)
      ensures r.Ok? && visited == requested ==> visited == membership
      ensures r.Ok? && visited == requested ==> |units| == |membership|
      ensures r.Ok? && visited == requested ==>
                forall i :: 0 <= i < |units| ==> MemberIsRight(world, context, Run(), membership[i], units[i])
      ensures r.Ok? && visited == requested ==>
                forall d :: CoverageKey(KnownOwnerRefresh, d) in coverage <==> d in membership
      ensures r.Ok? && visited == requested ==>
                (Reconciliation(Books()).Complete() <==>
                  && DriftOf(old(Books())) == Drift(0, 0, 0, 0)
                  && NoRow(coverage, Conflict) && NoRow(coverage, FailedUnit))
    {
      r := Attempt(membership, context, attempts);
      KeptExactlyInAgreement(membership, old(Run()), Run());
      CompleteExactlyWhenBalanced(Books());
      if r.Ok? && visited == requested {
        EveryMemberIsRight(membership, world, context, Run());
      }
    }
  }
}
