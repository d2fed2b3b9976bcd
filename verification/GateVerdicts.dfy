/** When a label is positive, negative or unknown, said of the evidence instead of the branches that decide it. */
module GateVerdicts {
  import opened Common
  import opened Sequences
  import opened Sorting
  import opened StageTimeline
  import opened GateLabels
  import opened GateLocality
  import Text

  // ----- What the selections pick -----

  /** A version is selected exactly when it is the only one available at the snapshot. */
  lemma SelectsTheOnlyAvailableVersion(versions: seq<DealVersion>, snapshot: int, v: DealVersion)
    ensures SelectVersion(versions, snapshot) == Ok(v) <==>
            OnlyOne((x: DealVersion) => AvailableVersion(x, snapshot), versions, v)
  {
    var p := (x: DealVersion) => AvailableVersion(x, snapshot);
    FilterSingle(p, versions, v);
    var candidates := Filter(p, versions);
    if SelectVersion(versions, snapshot) == Ok(v) {
      assert candidates == [v];
    }
  }

  /** The state known at a snapshot is that of an event no known event comes after. */
  lemma {:induction false} LastKnownIsGreatest(known: seq<StageEvent>)
    requires known != []
    ensures LastKnown(known) in known
    ensures forall e :: e in known ==> EventLe(e, LastKnown(known))
  {
    EventOrder();
    if |known| > 1 {
      var before, last := known[..|known| - 1], known[|known| - 1];
      LastKnownIsGreatest(before);
      assert forall e :: e in known <==> e in before || e == last;
    }
  }

  /** A version carries the amount only if no other eligible one was observed later. */
  lemma {:induction false} LatestAmountIsGreatest(candidates: seq<DealVersion>)
    requires candidates != [] && forall c :: c in candidates ==> c.observedAt.Some?
    ensures forall c :: c in candidates ==> AmountLe(c, LatestAmount(candidates))
  {
    AmountOrder();
    if |candidates| > 1 {
      var before, last := candidates[..|candidates| - 1], candidates[|candidates| - 1];
      LatestAmountIsGreatest(before);
      assert forall c :: c in candidates <==> c in before || c == last;
    }
  }

  lemma AmountOrder()
    ensures forall a: DealVersion, b: DealVersion ::
              a.observedAt.Some? && b.observedAt.Some? ==> AmountLe(a, b) || AmountLe(b, a)
    ensures forall a: DealVersion, b: DealVersion, c: DealVersion ::
              a.observedAt.Some? && b.observedAt.Some? && c.observedAt.Some? && AmountLe(a, b) && AmountLe(b, c) ==>
                AmountLe(a, c)
  {
    Text.StringOrder();
  }


  // ----- The first win -----

  predicate WonBy(timeline: seq<StageEvent>, snapshot: int) {
    exists e :: e in timeline && e.state == Won && e.eventAt <= snapshot
  }

  predicate FirstWinInHorizon(timeline: seq<StageEvent>, snapshot: int) {
    var won := FirstWon(timeline);
    won.Some? && snapshot < won.value.eventAt <= snapshot + HORIZON
  }

  /** The first win falls in the horizon exactly when some win does and none came before. */
  lemma {:induction false} FirstWinIsTheOnlyChance(timeline: seq<StageEvent>, snapshot: int)
    requires SortedBy(EventLe, timeline)
    ensures FirstWinInHorizon(timeline, snapshot) <==> WonInHorizon(timeline, snapshot) && !WonBy(timeline, snapshot)
  {
    if timeline != [] {
      var first, rest := timeline[0], timeline[1..];
      assert forall e :: e in timeline <==> e == first || e in rest;
      forall e | e in rest
        ensures first.eventAt <= e.eventAt
      {
        var i :| 0 <= i < |rest| && rest[i] == e;
        assert EventLe(timeline[0], timeline[i + 1]);
      }
      if first.state == Won {
        assert first in timeline;
        assert WonBy(timeline, snapshot) <==> first.eventAt <= snapshot;
        assert WonWithin(first, snapshot) ==> WonInHorizon(timeline, snapshot);
      } else {
        FirstWinIsTheOnlyChance(rest, snapshot);
        assert WonBy(timeline, snapshot) == WonBy(rest, snapshot);
        assert WonInHorizon(timeline, snapshot) == WonInHorizon(rest, snapshot);
      }
    }
  }

  // ----- The operational selector -----

  /** What makes an entry eligible for an operational outcome. */
  ghost predicate OperationallyEligible(release: GateRelease, entry: Entry, versions: seq<DealVersion>,
                                        entityKeys: seq<string>, invalidEvent: bool)
  {
    var snapshot := OperationalSnapshot(entry.event);
    && SourceAuthorised(release) && !invalidEvent
    && (exists v :: && SelectVersion(versions, snapshot) == Ok(v)
                    && (if v.entityKey.Some? && v.entityKey.value != "" then v.entityKey.value
                        else "unassigned") in entityKeys
                    && v.currency != UnsupportedCurrency && v.currency != InvalidCurrency
                    && PersonLinked(Ok(v), snapshot))
    && !Disqualified(entry.timeline, snapshot)
    && StateAsKnown(entry.timeline, snapshot) == Some(Open)
  }

  lemma OperationalStatusesExactly(release: GateRelease, entry: Entry, versions: seq<DealVersion>,
                                   entityKeys: seq<string>, invalidEvent: bool)
    ensures var l := LabelOpenEntry(release, entry, versions, entityKeys, invalidEvent);
            var snapshot, cutoff := OperationalSnapshot(entry.event), release.evidenceCutoffAt;
            var eligible := OperationallyEligible(release, entry, versions, entityKeys, invalidEvent);
            var won := FirstWinInHorizon(entry.timeline, snapshot);
            && (l.status == Positive <==> eligible && won && FirstWon(entry.timeline).value.availableAt <= cutoff)
            && (l.status == Negative <==> eligible && !won && snapshot + HORIZON <= cutoff)
            && (l.status == Unknown <==> eligible && !won && snapshot + HORIZON > cutoff)
            && (l.reason == WonUnavailableByCutoff <==>
                  eligible && won && FirstWon(entry.timeline).value.availableAt > cutoff)
            && (l.mature <==> snapshot + HORIZON <= cutoff)
  {
    SelectionErrors(versions, OperationalSnapshot(entry.event));
  }

  lemma SelectionErrors(versions: seq<DealVersion>, snapshot: int)
    ensures SelectVersion(versions, snapshot).Err? ==>
              SelectVersion(versions, snapshot).error in
                {InvalidParentTimestamp, MissingParentAtSnapshot, SelectedParentAmbiguity}
  {
  }

  // ----- The retrospective selector -----

  ghost predicate RetrospectivelyEligible(release: GateRelease, entry: Entry, versions: seq<DealVersion>,
                                          entityKeys: seq<string>, invalidEvent: bool)
  {
    var snapshot := entry.event.eventAt;
    var amount := RetrospectiveAmountVersion(versions, snapshot);
    && SourceAuthorised(release) && !invalidEvent
    && (exists key :: key in entityKeys && LiveEntity(Filter(IsLive, versions)) == EntityState.Resolved(key))
    && StateAt(entry.timeline, snapshot) == Some(Open)
    && (amount.Some? ==> amount.value.currency != UnsupportedCurrency && amount.value.currency != InvalidCurrency)
  }

  lemma RetrospectiveStatusesExactly(release: GateRelease, entry: Entry, versions: seq<DealVersion>,
                                     entityKeys: seq<string>, invalidEvent: bool)
    ensures var l := LabelRetrospectiveEntry(release, entry, versions, entityKeys, invalidEvent);
            var snapshot, cutoff := entry.event.eventAt, release.evidenceCutoffAt;
            var eligible := RetrospectivelyEligible(release, entry, versions, entityKeys, invalidEvent);
            var won := WonInHorizon(entry.timeline, snapshot);
            && (l.status == Positive <==> eligible && won && snapshot + HORIZON <= cutoff)
            && (l.status == Negative <==> eligible && !won && snapshot + HORIZON <= cutoff)
            && (l.status == Unknown <==> eligible && snapshot + HORIZON > cutoff)
  {
  }

  // ----- The selectors compared -----

  /**
    Where both selectors label an entry available when it happened, at a cutoff past its horizon, they
    agree exactly when the deal had not been won before: the operational one looks at the first win of
    the timeline, the retrospective one at any win in the horizon.
   */
  lemma SelectorsAgreeUnlessWonBefore(release: GateRelease, entry: Entry, versions: seq<DealVersion>,
                                      entityKeys: seq<string>)
    requires SortedBy(EventLe, entry.timeline)
    requires entry.event.availableAt <= entry.event.eventAt
    requires OperationallyEligible(release, entry, versions, entityKeys, false)
    requires RetrospectivelyEligible(release, entry, versions, entityKeys, false)
    requires entry.event.eventAt + HORIZON <= release.evidenceCutoffAt
    requires forall e :: e in entry.timeline ==> e.availableAt <= release.evidenceCutoffAt
    ensures var operational := LabelOpenEntry(release, entry, versions, entityKeys, false).status;
            var retrospective := LabelRetrospectiveEntry(release, entry, versions, entityKeys, false).status;
            operational == retrospective <==>
            !(WonInHorizon(entry.timeline, entry.event.eventAt) && WonBy(entry.timeline, entry.event.eventAt))
  {
    OperationalStatusesExactly(release, entry, versions, entityKeys, false);
    RetrospectiveStatusesExactly(release, entry, versions, entityKeys, false);
    FirstWinIsTheOnlyChance(entry.timeline, entry.event.eventAt);
    FirstWonIsIn(entry.timeline);
  }

  const DEAL: ParentKey := ParentKey("bitrix_chat", "deal")

  function EventAt(identity: string, state: MappedState, at: int): StageEvent {
    StageEvent(identity, DEAL, state, at, at, 0)
  }

  function ActiveVersion(): DealVersion {
    DealVersion(DEAL, "v", 1, Some("e"), Some(0), Some(0), Some(0), None, None, None, 1, 1, Some(0), true,
                KnownAmount, SupportedCurrency, "active", ["p"], ["p"])
  }

  /** Won, reopened and won again: the operational label is negative, the retrospective one positive. */
  lemma SelectorsDifferForAReopenedDeal()
    ensures var release := GateRelease(true, 10 + HORIZON, true, true);
            var timeline := [EventAt("a", Won, 0), EventAt("b", Open, 10), EventAt("c", Won, 20)];
            var entry := Entry(DEAL, timeline[1], timeline);
            && SortedBy(EventLe, timeline) && timeline[1] in Entries(None, timeline)
            && LabelOpenEntry(release, entry, [ActiveVersion()], ["e"], false).status == Negative
            && LabelRetrospectiveEntry(release, entry, [ActiveVersion()], ["e"], false).status == Positive
  {
    var release := GateRelease(true, 10 + HORIZON, true, true);
    var timeline := [EventAt("a", Won, 0), EventAt("b", Open, 10), EventAt("c", Won, 20)];
    var entry := Entry(DEAL, timeline[1], timeline);
    ReopenedIsAnEntry(timeline);
    ReopenedStatuses(release, entry);
  }

  lemma ReopenedStatuses(release: GateRelease, entry: Entry)
    requires SourceAuthorised(release) && release.evidenceCutoffAt == 10 + HORIZON
    requires entry.timeline == [EventAt("a", Won, 0), EventAt("b", Open, 10), EventAt("c", Won, 20)]
    requires entry.event == entry.timeline[1]
    ensures LabelOpenEntry(release, entry, [ActiveVersion()], ["e"], false).status == Negative
    ensures LabelRetrospectiveEntry(release, entry, [ActiveVersion()], ["e"], false).status == Positive
  {
    ReopenedIsEligible(release, entry);
    OperationalStatusesExactly(release, entry, [ActiveVersion()], ["e"], false);
    RetrospectiveStatusesExactly(release, entry, [ActiveVersion()], ["e"], false);
    assert FirstWon(entry.timeline) == Some(entry.timeline[0]);
    assert entry.timeline[2] in entry.timeline && WonWithin(entry.timeline[2], 10);
  }

  lemma ReopenedIsAnEntry(timeline: seq<StageEvent>)
    requires timeline == [EventAt("a", Won, 0), EventAt("b", Open, 10), EventAt("c", Won, 20)]
    ensures timeline[1] in Entries(None, timeline)
  {
    assert EntersAt(timeline, 1);
    EntriesAreWhereEpisodesOpen(timeline, timeline[1]);
  }

  lemma ReopenedIsEligible(release: GateRelease, entry: Entry)
    requires SourceAuthorised(release)
    requires entry.timeline == [EventAt("a", Won, 0), EventAt("b", Open, 10), EventAt("c", Won, 20)]
    requires entry.event == entry.timeline[1]
    ensures OperationallyEligible(release, entry, [ActiveVersion()], ["e"], false)
    ensures RetrospectivelyEligible(release, entry, [ActiveVersion()], ["e"], false)
  {
    var v, t := ActiveVersion(), entry.timeline;
    assert AvailableVersion(v, 10) && CarriesAmount(v, 10);
    FilterAll((x: DealVersion) => AvailableVersion(x, 10), [v]);
    assert SelectVersion([v], 10) == Ok(v);
    FilterAll((x: DealVersion) => CarriesAmount(x, 10), [v]);
    FilterAll(IsLive, [v]);
    KnownPrefix((x: StageEvent) => x.eventAt <= 10 && x.availableAt <= 10, t);
    KnownPrefix((x: StageEvent) => x.eventAt <= 10, t);
    assert LastKnown([t[0], t[1]]) == t[1];
    assert "e" in ["e"];
  }

  lemma KnownPrefix(p: StageEvent -> bool, t: seq<StageEvent>)
    requires |t| == 3 && p(t[0]) && p(t[1]) && !p(t[2])
    ensures Filter(p, t) == [t[0], t[1]]
  {
    assert t == [t[0], t[1]] + [t[2]];
    FilterAll(p, [t[0], t[1]]);
    FilterMore(p, [t[0], t[1]], t[2]);
  }
}
