/**
  What a published label says, read off the evidence of its own parent: the versions in force or
  live, the events known, the release and its cutoff. Versions of other parents do not matter.
 */
module GateEvidence {
  import opened Common
  import opened Sequences
  import opened Sorting
  import opened StageTimeline
  import opened Text
  import opened GateLabels
  import opened GateVerdicts

  // ----- Versions of one parent -----

  ghost predicate IsVersionOf(inputs: Inputs, p: ParentKey, v: DealVersion) {
    v in inputs.versions && v.parent == p
  }

  /** Observed, ingested and activated by the snapshot, and not yet superseded, rejected or unlinked. */
  ghost predicate InForce(v: DealVersion, snapshot: int) {
    && v.timestampsValid
    && v.observedAt.Some? && v.observedAt.value <= snapshot
    && v.ingestedAt.Some? && v.ingestedAt.value <= snapshot
    && v.activatedAt.Some? && v.activatedAt.value <= snapshot
    && (v.supersededAt.Some? ==> v.supersededAt.value > snapshot)
    && (v.rejectedAt.Some? ==> v.rejectedAt.value > snapshot)
    && (v.linkFailedAt.Some? ==> v.linkFailedAt.value > snapshot)
  }

  /** Of all versions, whatever their parents, this is the only one of the parent in force at the snapshot. */
  ghost predicate SoleVersion(inputs: Inputs, p: ParentKey, snapshot: int, v: DealVersion) {
    OnlyOne((x: DealVersion) => x.parent == p && InForce(x, snapshot), inputs.versions, v)
  }

  /** Linked to one Person, who is the one active Person, by the snapshot. */
  ghost predicate LinkedBy(v: DealVersion, snapshot: int) {
    v.linkedPersonCount == 1 && v.activePersonCount == 1 && v.latestLinkedAt.Some? && v.latestLinkedAt.value <= snapshot
  }

  ghost predicate Live(v: DealVersion) {
    v.timestampsValid && (v.lifecycleStatus == "active" || v.lifecycleStatus == "pending_review")
  }

  ghost predicate LiveVersion(inputs: Inputs, p: ParentKey, v: DealVersion) {
    IsVersionOf(inputs, p, v) && Live(v)
  }

  /** Every live version of the parent, and there is one, carries the key. */
  ghost predicate LiveKey(inputs: Inputs, p: ParentKey, key: string) {
    && (exists v :: LiveVersion(inputs, p, v))
    && (forall v :: LiveVersion(inputs, p, v) ==> v.entityKey == Some(key))
  }

  /** The live versions of the parent link one person, who is active. */
  ghost predicate LivePerson(inputs: Inputs, p: ParentKey, person: string) {
    && (exists v :: LiveVersion(inputs, p, v) && person in v.linkedPersonIds)
    && (exists v :: LiveVersion(inputs, p, v) && person in v.activePersonIds)
    && (forall v, x :: LiveVersion(inputs, p, v) && (x in v.linkedPersonIds || x in v.activePersonIds) ==> x == person)
  }

  ghost predicate Observed(inputs: Inputs, p: ParentKey, snapshot: int, v: DealVersion) {
    && IsVersionOf(inputs, p, v) && v.timestampsValid && v.lifecycleStatus != "rejected"
    && v.observedAt.Some? && v.observedAt.value <= snapshot
  }

  /** By observation, versions observed together by source version, those of one source version by key. */
  ghost predicate ObservedEarlier(a: DealVersion, b: DealVersion)
    requires a.observedAt.Some? && b.observedAt.Some?
  {
    && a.observedAt.value <= b.observedAt.value
    && (a.observedAt == b.observedAt ==>
          && a.sourceRecordVersion <= b.sourceRecordVersion
          && (a.sourceRecordVersion == b.sourceRecordVersion ==> StringLe(a.versionKey, b.versionKey)))
  }

  /** No version observed by the snapshot was observed later, or has a later source version, or a later key. */
  ghost predicate LastObserved(inputs: Inputs, p: ParentKey, snapshot: int, v: DealVersion) {
    && Observed(inputs, p, snapshot, v)
    && (forall x :: Observed(inputs, p, snapshot, x) ==> ObservedEarlier(x, v))
  }

  // ----- Statuses -----

  /** The status a reason is published with. */
  ghost predicate StatusSays(status: LabelStatus, reason: Reason) {
    && (status == Positive <==> reason == FirstWonInHorizon)
    && (status == Negative <==> reason == MatureNoFirstWon)
    && (status == Unknown <==> reason == ImmatureHorizon)
    && (status == Ineligible <==>
          reason in {UnsupportedEntity, CurrencyUnsupported, NotOpenAsKnown, NotOpenRetrospective})
  }

  ghost predicate Authority(inputs: Inputs) {
    inputs.release.enabled && inputs.release.sourceAccountingComplete
  }

  // ----- The operational selector -----

  /** The snapshot is the instant by which the opening event had happened and was available. */
  ghost predicate KnownFrom(e: StageEvent, snapshot: int) {
    e.eventAt <= snapshot && e.availableAt <= snapshot && (snapshot == e.eventAt || snapshot == e.availableAt)
  }

  ghost predicate OperationalVersionSays(v: DealVersion, l: Label) {
    && l.entityKey == (if v.entityKey.Some? && v.entityKey.value != "" then v.entityKey.value else "unassigned")
    && l.amount == v.amount && l.currency == v.currency && l.amountReconstructable
    && (l.personLinked <==> LinkedBy(v, l.snapshotAt))
  }

  ghost predicate NoVersionSays(inputs: Inputs, p: ParentKey, l: Label) {
    && l.entityKey == "unassigned" && l.amount == UnavailableAmount && l.currency == UnavailableCurrency
    && !l.amountReconstructable && !l.personLinked
  }

  /** Why there is no sole version in force. */
  ghost predicate SelectionSays(inputs: Inputs, p: ParentKey, snapshot: int, reason: Reason) {
    if exists v :: IsVersionOf(inputs, p, v) && InForce(v, snapshot) then reason == SelectedParentAmbiguity
    else if exists v :: IsVersionOf(inputs, p, v) && !v.timestampsValid then reason == InvalidParentTimestamp
    else reason == MissingParentAtSnapshot
  }

  /** Why an entry with a sole version has its label: the first objection, or the first win against the cutoff. */
  ghost predicate OperationalReasonSays(inputs: Inputs, v: DealVersion, timeline: seq<StageEvent>, l: Label) {
    var s, cutoff, won := l.snapshotAt, inputs.release.evidenceCutoffAt, FirstWon(timeline);
    if l.entityKey !in inputs.entityKeys then l.reason == UnsupportedEntity
    else if v.currency == UnsupportedCurrency then l.reason == CurrencyUnsupported
    else if v.currency == InvalidCurrency then l.reason == CurrencyInvalid
    else if !l.personLinked then l.reason == AmbiguousOrLatePersonLink
    else if exists e :: e in timeline && e.state != Open && e.eventAt <= s && e.availableAt > s then
      l.reason == RetrospectiveDisqualifier
    else if StateAsKnown(timeline, s) != Some(Open) then l.reason == NotOpenAsKnown
    else if won.Some? && s < won.value.eventAt && won.value.eventAt <= s + HORIZON then
      l.reason == if won.value.availableAt <= cutoff then FirstWonInHorizon else WonUnavailableByCutoff
    else l.reason == if s + HORIZON <= cutoff then MatureNoFirstWon else ImmatureHorizon
  }

  ghost predicate OperationalSays(inputs: Inputs, p: ParentKey, e: StageEvent, timeline: seq<StageEvent>, l: Label) {
    var s, invalid := l.snapshotAt, p in inputs.invalidParents;
    && l.parent == p && KnownFrom(e, s)
    && (l.mature <==> s + HORIZON <= inputs.release.evidenceCutoffAt)
    && (l.timestampValid <==> !invalid)
    && (l.historyDeterminate <==>
          && inputs.release.analyticalReleaseConsistent && !invalid
          && l.reason !in {InvalidParentTimestamp, MissingParentAtSnapshot, SelectedParentAmbiguity,
                           AmbiguousOrLatePersonLink})
    && StatusSays(l.status, l.reason)
    && (forall v :: SoleVersion(inputs, p, s, v) ==> OperationalVersionSays(v, l))
    && ((forall v :: !SoleVersion(inputs, p, s, v)) ==> NoVersionSays(inputs, p, l))
    && (if !Authority(inputs) then l.reason == SourceAuthorityIncomplete
        else if invalid then l.reason == InvalidStageTimestamp
        else
          && (forall v :: SoleVersion(inputs, p, s, v) ==> OperationalReasonSays(inputs, v, timeline, l))
          && ((forall v :: !SoleVersion(inputs, p, s, v)) ==> SelectionSays(inputs, p, s, l.reason)))
  }

  lemma InForceIsAvailable(v: DealVersion, snapshot: int)
    ensures InForce(v, snapshot) <==> AvailableVersion(v, snapshot)
  {
  }

  lemma SelectionIsSole(inputs: Inputs, p: ParentKey, snapshot: int, v: DealVersion)
    ensures SelectVersion(VersionsOf(p, inputs.versions), snapshot) == Ok(v) <==> SoleVersion(inputs, p, snapshot, v)
  {
    var available := (x: DealVersion) => AvailableVersion(x, snapshot);
    var ofParent := (x: DealVersion) => x.parent == p;
    var sole := (x: DealVersion) => x.parent == p && InForce(x, snapshot);
    SelectsTheOnlyAvailableVersion(VersionsOf(p, inputs.versions), snapshot, v);
    FilterSingle(available, VersionsOf(p, inputs.versions), v);
    FilterSingle(sole, inputs.versions, v);
    FilterBoth(available, ofParent, sole, inputs.versions);
  }

  lemma SelectionError(inputs: Inputs, p: ParentKey, snapshot: int)
    ensures var selected := SelectVersion(VersionsOf(p, inputs.versions), snapshot);
            selected.Err? ==> SelectionSays(inputs, p, snapshot, selected.error)
  {
    var versions := VersionsOf(p, inputs.versions);
    var candidates := Filter((v: DealVersion) => AvailableVersion(v, snapshot), versions);
    forall v
      ensures v in versions <==> IsVersionOf(inputs, p, v)
      ensures v in candidates <==> IsVersionOf(inputs, p, v) && InForce(v, snapshot)
    {
      InForceIsAvailable(v, snapshot);
    }
    if candidates != [] {
      assert candidates[0] in candidates;
    }
  }

  lemma OperationalVerdictSays(inputs: Inputs, e: StageEvent, timeline: seq<StageEvent>, v: DealVersion, l: Label)
    requires Authority(inputs) && OperationalVersionSays(v, l) && l.snapshotAt == OperationalSnapshot(e)
    requires var verdict := OperationalVerdict(inputs.release, Ok(v), l.personLinked, l.entityKey in inputs.entityKeys,
                                               TimelineAsKnown(timeline, l.snapshotAt), l.snapshotAt, false);
             l.status == verdict.status && l.reason == verdict.reason
    ensures OperationalReasonSays(inputs, v, timeline, l)
  {
    assert Disqualified(timeline, l.snapshotAt) <==>
        exists x :: x in timeline && x.state != Open && x.eventAt <= l.snapshotAt && x.availableAt > l.snapshotAt by {
      if Disqualified(timeline, l.snapshotAt) {
        var x :| x in timeline && LateDisqualifier(x, l.snapshotAt);
      }
    }
  }

  lemma VerdictStatusSays(release: GateRelease, selected: Result<DealVersion, Reason>, linked: bool, supported: bool,
                          known: KnownTimeline, snapshot: int, invalidEvent: bool)
    requires selected.Err? ==>
               selected.error in {InvalidParentTimestamp, MissingParentAtSnapshot, SelectedParentAmbiguity}
    ensures var v := OperationalVerdict(release, selected, linked, supported, known, snapshot, invalidEvent);
            && StatusSays(v.status, v.reason)
            && (v.clearsHistory <==>
                  v.reason in {InvalidParentTimestamp, MissingParentAtSnapshot, SelectedParentAmbiguity,
                               AmbiguousOrLatePersonLink})
  {
  }

  /** An operational label says what the evidence of its parent calls for. */
  lemma OperationalLabelSays(inputs: Inputs, p: ParentKey, e: StageEvent, timeline: seq<StageEvent>)
    requires inputs.selector == Operational
    ensures OperationalSays(inputs, p, e, timeline, LabelOf(inputs, Entry(p, e, timeline)))
  {
    var l := LabelOf(inputs, Entry(p, e, timeline));
    var s := OperationalSnapshot(e);
    var selected := SelectVersion(VersionsOf(p, inputs.versions), s);
    forall v
      ensures selected == Ok(v) <==> SoleVersion(inputs, p, s, v)
    {
      SelectionIsSole(inputs, p, s, v);
    }
    SelectionError(inputs, p, s);
    VerdictStatusSays(inputs.release, selected, PersonLinked(selected, s), l.entityKey in inputs.entityKeys,
                      TimelineAsKnown(timeline, s), s, p in inputs.invalidParents);
    if selected.Ok? {
      assert SoleVersion(inputs, p, s, selected.value);
      SoleIsInForce(inputs, p, s, selected.value);
      if Authority(inputs) && p !in inputs.invalidParents {
        OperationalVerdictSays(inputs, e, timeline, selected.value, l);
      }
    }
  }

  lemma SoleIsInForce(inputs: Inputs, p: ParentKey, snapshot: int, v: DealVersion)
    requires SoleVersion(inputs, p, snapshot, v)
    ensures v.parent == p && InForce(v, snapshot)
  {
  }

  // ----- The retrospective selector -----

  ghost predicate LivePopulationSays(inputs: Inputs, p: ParentKey, l: Label) {
    && (forall key :: LiveKey(inputs, p, key) ==> l.entityKey == key)
    && ((forall key :: !LiveKey(inputs, p, key)) ==> l.entityKey == "unresolved")
    && (l.personLinked <==> exists person :: LivePerson(inputs, p, person))
  }

  ghost predicate AmountSays(inputs: Inputs, p: ParentKey, l: Label) {
    && (l.amountReconstructable <==> exists v :: Observed(inputs, p, l.snapshotAt, v))
    && (l.amountReconstructable ==>
          exists v :: LastObserved(inputs, p, l.snapshotAt, v) && l.amount == v.amount && l.currency == v.currency)
    && (!l.amountReconstructable ==> l.amount == AmountNotReconstructable && l.currency == CurrencyNotReconstructable)
  }

  /** Why an entry of an authorised source has its label: the first objection, or the wins against the cutoff. */
  ghost predicate RetrospectiveReasonSays(inputs: Inputs, p: ParentKey, timeline: seq<StageEvent>, l: Label) {
    var s, cutoff := l.snapshotAt, inputs.release.evidenceCutoffAt;
    if forall v :: !LiveVersion(inputs, p, v) then l.reason == MissingParentAtSnapshot
    else if forall key :: !LiveKey(inputs, p, key) then l.reason == SelectedParentAmbiguity
    else if l.entityKey !in inputs.entityKeys then l.reason == UnsupportedEntity
    else if StateAt(timeline, s) != Some(Open) then l.reason == NotOpenRetrospective
    else if l.amountReconstructable && l.currency == UnsupportedCurrency then l.reason == CurrencyUnsupported
    else if l.amountReconstructable && l.currency == InvalidCurrency then l.reason == CurrencyInvalid
    else if s + HORIZON > cutoff then l.reason == ImmatureHorizon
    else if exists e :: e in timeline && e.state == Won && s < e.eventAt <= s + HORIZON then
      l.reason == FirstWonInHorizon
    else l.reason == MatureNoFirstWon
  }

  ghost predicate RetrospectiveSays(inputs: Inputs, p: ParentKey, e: StageEvent, timeline: seq<StageEvent>, l: Label) {
    var invalid := p in inputs.invalidParents;
    && l.parent == p && l.snapshotAt == e.eventAt
    && (l.mature <==> e.eventAt + HORIZON <= inputs.release.evidenceCutoffAt)
    && (l.timestampValid <==> !invalid)
    && (l.historyDeterminate <==>
          inputs.release.analyticalReleaseConsistent && !invalid && exists key :: LiveKey(inputs, p, key))
    && StatusSays(l.status, l.reason)
    && LivePopulationSays(inputs, p, l) && AmountSays(inputs, p, l)
    && FirstObjectionSays(inputs, p, timeline, l)
  }

  ghost predicate FirstObjectionSays(inputs: Inputs, p: ParentKey, timeline: seq<StageEvent>, l: Label) {
    if !Authority(inputs) then l.reason == SourceAuthorityIncomplete
    else if p in inputs.invalidParents then l.reason == InvalidStageTimestamp
    else RetrospectiveReasonSays(inputs, p, timeline, l)
  }

  lemma LiveOnes(inputs: Inputs, p: ParentKey)
    ensures forall v :: v in Filter(IsLive, VersionsOf(p, inputs.versions)) <==> LiveVersion(inputs, p, v)
  {
  }

  lemma LiveEntityIsKey(inputs: Inputs, p: ParentKey)
    ensures var entity := LiveEntity(Filter(IsLive, VersionsOf(p, inputs.versions)));
            && (entity.MissingEntity? <==> forall v :: !LiveVersion(inputs, p, v))
            && (forall key :: entity == EntityState.Resolved(key) <==> LiveKey(inputs, p, key))
  {
    var live := Filter(IsLive, VersionsOf(p, inputs.versions));
    LiveOnes(inputs, p);
    if live != [] {
      assert LiveVersion(inputs, p, live[0]);
    }
  }

  lemma OnePerson(linked: set<string>, active: set<string>)
    ensures |linked| == 1 && |active| == 1 && active <= linked <==> exists person :: linked == active == {person}
  {
    if |linked| == 1 && |active| == 1 && active <= linked {
      var x :| x in active;
      assert active - {x} == {} && linked - {x} == {} by {
        assert |active - {x}| == 0 && |linked - {x}| == 0;
      }
      assert linked == active == {x};
    }
  }

  lemma LiveLinkIsPerson(inputs: Inputs, p: ParentKey)
    ensures CurrentStateLinked(Filter(IsLive, VersionsOf(p, inputs.versions))) <==>
            exists person :: LivePerson(inputs, p, person)
  {
    var live := Filter(IsLive, VersionsOf(p, inputs.versions));
    var linked := set v, x | v in live && x in v.linkedPersonIds :: x;
    var active := set v, x | v in live && x in v.activePersonIds :: x;
    LiveOnes(inputs, p);
    OnePerson(linked, active);
    forall person
      ensures linked == active == {person} <==> LivePerson(inputs, p, person)
    {
      if linked == active == {person} {
        assert person in linked && person in active;
        forall v, x | LiveVersion(inputs, p, v) && (x in v.linkedPersonIds || x in v.activePersonIds)
          ensures x == person
        {
          assert x in linked || x in active;
        }
      }
      if LivePerson(inputs, p, person) {
        assert forall x :: x in linked <==> x == person;
        assert forall x :: x in active <==> x == person;
      }
    }
  }

  lemma AmountIsLastObserved(inputs: Inputs, p: ParentKey, snapshot: int)
    ensures var amount := RetrospectiveAmountVersion(VersionsOf(p, inputs.versions), snapshot);
            && (amount.Some? <==> exists v :: Observed(inputs, p, snapshot, v))
            && (amount.Some? ==> LastObserved(inputs, p, snapshot, amount.value))
  {
    var candidates := Filter((v: DealVersion) => CarriesAmount(v, snapshot), VersionsOf(p, inputs.versions));
    assert forall v :: v in candidates <==> Observed(inputs, p, snapshot, v);
    if candidates != [] {
      assert candidates[0] in candidates;
      LatestAmountIsGreatest(candidates);
    }
  }

  lemma RetrospectiveVerdictSays(release: GateRelease, entity: EntityState, supported: bool, open: bool,
                                 amount: Option<DealVersion>, wonWithin: bool, horizon: int, invalidEvent: bool)
    ensures var v := RetrospectiveVerdict(release, entity, supported, open, amount, wonWithin, horizon, invalidEvent);
            && StatusSays(v.status, v.reason)
            && (v.clearsHistory ==> !entity.Resolved?)
  {
  }

  lemma WinsWithin(timeline: seq<StageEvent>, snapshot: int)
    ensures WonInHorizon(timeline, snapshot) <==>
            exists e :: e in timeline && e.state == Won && snapshot < e.eventAt <= snapshot + HORIZON
  {
    if WonInHorizon(timeline, snapshot) {
      var e :| e in timeline && WonWithin(e, snapshot);
    }
    if e :| e in timeline && e.state == Won && snapshot < e.eventAt <= snapshot + HORIZON {
      assert WonWithin(e, snapshot);
    }
  }

  lemma RetrospectiveReasonFollows(inputs: Inputs, p: ParentKey, timeline: seq<StageEvent>, l: Label,
                                   entity: EntityState, amount: Option<DealVersion>)
    requires Authority(inputs)
    requires entity.MissingEntity? <==> forall v :: !LiveVersion(inputs, p, v)
    requires forall key :: entity == EntityState.Resolved(key) <==> LiveKey(inputs, p, key)
    requires entity.Resolved? ==> l.entityKey == entity.key
    requires l.amountReconstructable == amount.Some? && (amount.Some? ==> l.currency == amount.value.currency)
    requires l.reason == RetrospectiveVerdict(inputs.release, entity, l.entityKey in inputs.entityKeys,
                                              StateAt(timeline, l.snapshotAt) == Some(Open), amount,
                                              WonInHorizon(timeline, l.snapshotAt), l.snapshotAt + HORIZON,
                                              false).reason
    ensures RetrospectiveReasonSays(inputs, p, timeline, l)
  {
    WinsWithin(timeline, l.snapshotAt);
    assert entity.Resolved? ==> LiveKey(inputs, p, entity.key);
  }

  lemma RetrospectiveAmount(inputs: Inputs, p: ParentKey, e: StageEvent, timeline: seq<StageEvent>)
    requires inputs.selector == Retrospective
    ensures AmountSays(inputs, p, LabelOf(inputs, Entry(p, e, timeline)))
  {
    AmountIsLastObserved(inputs, p, e.eventAt);
  }

  lemma RetrospectivePopulation(inputs: Inputs, p: ParentKey, e: StageEvent, timeline: seq<StageEvent>)
    requires inputs.selector == Retrospective
    ensures LivePopulationSays(inputs, p, LabelOf(inputs, Entry(p, e, timeline)))
  {
    var entity := LiveEntity(Filter(IsLive, VersionsOf(p, inputs.versions)));
    LiveEntityIsKey(inputs, p);
    LiveLinkIsPerson(inputs, p);
    assert entity.Resolved? ==> LiveKey(inputs, p, entity.key);
  }

  lemma RetrospectiveFields(inputs: Inputs, p: ParentKey, e: StageEvent, timeline: seq<StageEvent>)
    requires inputs.selector == Retrospective
    ensures var l := LabelOf(inputs, Entry(p, e, timeline));
            && l.parent == p && l.snapshotAt == e.eventAt && StatusSays(l.status, l.reason)
            && (l.mature <==> e.eventAt + HORIZON <= inputs.release.evidenceCutoffAt)
            && (l.timestampValid <==> p !in inputs.invalidParents)
            && (l.historyDeterminate <==>
                  && inputs.release.analyticalReleaseConsistent && p !in inputs.invalidParents
                  && LiveEntity(Filter(IsLive, VersionsOf(p, inputs.versions))).Resolved?)
  {
    var l := LabelOf(inputs, Entry(p, e, timeline));
    var versions := VersionsOf(p, inputs.versions);
    RetrospectiveVerdictSays(inputs.release, LiveEntity(Filter(IsLive, versions)), l.entityKey in inputs.entityKeys,
                             StateAt(timeline, e.eventAt) == Some(Open),
                             RetrospectiveAmountVersion(versions, e.eventAt), WonInHorizon(timeline, e.eventAt),
                             e.eventAt + HORIZON, p in inputs.invalidParents);
  }

  lemma RetrospectiveReads(inputs: Inputs, p: ParentKey, e: StageEvent, timeline: seq<StageEvent>)
    requires inputs.selector == Retrospective && Authority(inputs) && p !in inputs.invalidParents
    ensures var l := LabelOf(inputs, Entry(p, e, timeline));
            var versions := VersionsOf(p, inputs.versions);
            var entity, amount := LiveEntity(Filter(IsLive, versions)), RetrospectiveAmountVersion(versions, e.eventAt);
            && l.snapshotAt == e.eventAt && (entity.Resolved? ==> l.entityKey == entity.key)
            && l.amountReconstructable == amount.Some? && (amount.Some? ==> l.currency == amount.value.currency)
            && l.reason == RetrospectiveVerdict(inputs.release, entity, l.entityKey in inputs.entityKeys,
                                                StateAt(timeline, l.snapshotAt) == Some(Open), amount,
                                                WonInHorizon(timeline, l.snapshotAt), l.snapshotAt + HORIZON,
                                                false).reason
  {
  }

  lemma RetrospectiveObjection(inputs: Inputs, p: ParentKey, e: StageEvent, timeline: seq<StageEvent>)
    requires inputs.selector == Retrospective
    ensures FirstObjectionSays(inputs, p, timeline, LabelOf(inputs, Entry(p, e, timeline)))
  {
    var l := LabelOf(inputs, Entry(p, e, timeline));
    if !Authority(inputs) || p in inputs.invalidParents {
      RetrospectiveUnread(inputs, p, e, timeline);
    } else {
      RetrospectiveReads(inputs, p, e, timeline);
      LiveEntityIsKey(inputs, p);
      RetrospectiveReasonFollows(inputs, p, timeline, l, LiveEntity(Filter(IsLive, VersionsOf(p, inputs.versions))),
                                 RetrospectiveAmountVersion(VersionsOf(p, inputs.versions), e.eventAt));
    }
  }

  lemma RetrospectiveUnread(inputs: Inputs, p: ParentKey, e: StageEvent, timeline: seq<StageEvent>)
    requires inputs.selector == Retrospective && (!Authority(inputs) || p in inputs.invalidParents)
    ensures LabelOf(inputs, Entry(p, e, timeline)).reason ==
            if !Authority(inputs) then SourceAuthorityIncomplete else InvalidStageTimestamp
  {
  }

  lemma ResolvedHasKey(inputs: Inputs, p: ParentKey)
    ensures LiveEntity(Filter(IsLive, VersionsOf(p, inputs.versions))).Resolved? <==>
            exists key :: LiveKey(inputs, p, key)
  {
    var entity := LiveEntity(Filter(IsLive, VersionsOf(p, inputs.versions)));
    LiveEntityIsKey(inputs, p);
    assert entity.Resolved? ==> LiveKey(inputs, p, entity.key);
  }

  /** A retrospective label says what the evidence of its parent calls for. */
  lemma RetrospectiveLabelSays(inputs: Inputs, p: ParentKey, e: StageEvent, timeline: seq<StageEvent>)
    requires inputs.selector == Retrospective
    ensures RetrospectiveSays(inputs, p, e, timeline, LabelOf(inputs, Entry(p, e, timeline)))
  {
    RetrospectiveFields(inputs, p, e, timeline);
    ResolvedHasKey(inputs, p);
    RetrospectivePopulation(inputs, p, e, timeline);
    RetrospectiveAmount(inputs, p, e, timeline);
    RetrospectiveObjection(inputs, p, e, timeline);
  }

  // ----- The states known -----

  ghost predicate DistinctEvents(timeline: seq<StageEvent>) {
    forall a, b :: a in timeline && b in timeline && a.identity == b.identity ==> a == b
  }

  /** The last event, by time, head version and identity, among those that had happened and were available. */
  ghost predicate IsLastKnown(timeline: seq<StageEvent>, snapshot: int, e: StageEvent) {
    && e in timeline && e.eventAt <= snapshot && e.availableAt <= snapshot
    && (forall x :: x in timeline && x.eventAt <= snapshot && x.availableAt <= snapshot ==> EventLe(x, e))
  }

  ghost predicate IsLastHappened(timeline: seq<StageEvent>, snapshot: int, e: StageEvent) {
    && e in timeline && e.eventAt <= snapshot
    && (forall x :: x in timeline && x.eventAt <= snapshot ==> EventLe(x, e))
  }

  lemma LastIsUnique(timeline: seq<StageEvent>, a: StageEvent, b: StageEvent)
    requires DistinctEvents(timeline) && a in timeline && b in timeline && EventLe(a, b) && EventLe(b, a)
    ensures a == b
  {
    Text.StringOrder();
  }

  /** The state known at a snapshot is the last known event's; event identities are unique. */
  lemma StateKnownExactly(timeline: seq<StageEvent>, snapshot: int, state: MappedState)
    requires DistinctEvents(timeline)
    ensures StateAsKnown(timeline, snapshot) == Some(state) <==>
            exists e :: IsLastKnown(timeline, snapshot, e) && e.state == state
  {
    var known := Filter((e: StageEvent) => e.eventAt <= snapshot && e.availableAt <= snapshot, timeline);
    if known != [] {
      LastKnownIsGreatest(known);
      assert IsLastKnown(timeline, snapshot, LastKnown(known));
      forall e | IsLastKnown(timeline, snapshot, e)
        ensures e == LastKnown(known)
      {
        LastIsUnique(timeline, e, LastKnown(known));
      }
    }
  }

  /** In hindsight it is the last event's that had happened by the snapshot. */
  lemma StateHappenedExactly(timeline: seq<StageEvent>, snapshot: int, state: MappedState)
    requires DistinctEvents(timeline) && SortedBy(EventLe, timeline)
    ensures StateAt(timeline, snapshot) == Some(state) <==>
            exists e :: IsLastHappened(timeline, snapshot, e) && e.state == state
  {
    var happened := (e: StageEvent) => e.eventAt <= snapshot;
    var known := Filter(happened, timeline);
    EventOrder();
    FilterSorted(EventLe, happened, timeline);
    if known != [] {
      var last := known[|known| - 1];
      assert last in known;
      forall x | x in known
        ensures EventLe(x, last)
      {
        var i :| 0 <= i < |known| && known[i] == x;
      }
      assert IsLastHappened(timeline, snapshot, last);
      forall e | IsLastHappened(timeline, snapshot, e)
        ensures e == last
      {
        LastIsUnique(timeline, e, last);
      }
    }
  }

  // ----- The published list -----

  ghost predicate Says(inputs: Inputs, p: ParentKey, e: StageEvent, timeline: seq<StageEvent>, l: Label) {
    match inputs.selector
    case Operational => OperationalSays(inputs, p, e, timeline, l)
    case Retrospective => RetrospectiveSays(inputs, p, e, timeline, l)
  }

  lemma LabelSays(inputs: Inputs, p: ParentKey, e: StageEvent, timeline: seq<StageEvent>)
    ensures Says(inputs, p, e, timeline, LabelOf(inputs, Entry(p, e, timeline)))
  {
    match inputs.selector
    case Operational => OperationalLabelSays(inputs, p, e, timeline);
    case Retrospective => RetrospectiveLabelSays(inputs, p, e, timeline);
  }

  /** The parent's timeline opens an episode with the event, and the label says what its evidence calls for. */
  ghost predicate LabelsEntry(inputs: Inputs, events: seq<StageEvent>, e: StageEvent, l: Label) {
    var timeline := Timeline(e.parent, events);
    e in Entries(None, timeline) && Says(inputs, e.parent, e, timeline, l)
  }

  lemma EntryIsOfItsParent(p: ParentKey, events: seq<StageEvent>, e: StageEvent)
    requires e in Entries(None, Timeline(p, events))
    ensures e.parent == p && e in events
  {
    EntriesAreEvents(None, Timeline(p, events));
    SortPermutes(EventLe, OfParent(p, events));
    PermutationSameElements(Timeline(p, events), OfParent(p, events));
  }

  lemma OpenEntryIs(events: seq<StageEvent>, entry: Entry)
    ensures entry in OpenEntries(events) <==>
            && entry.timeline == Timeline(entry.parent, events)
            && entry.event in Entries(None, entry.timeline)
  {
    var entriesOf := p => EntriesOf(p, Timeline(p, events));
    FlatMapHas(entriesOf, Parents(events), entry);
    if p :| p in Parents(events) && entry in entriesOf(p) {
      assert entry.parent == p && entry.timeline == Timeline(p, events);
    }
    if entry.timeline == Timeline(entry.parent, events) && entry.event in Entries(None, entry.timeline) {
      var p := entry.parent;
      EntryIsOfItsParent(p, events, entry.event);
      ParentIsListed(events, entry.event);
      var entries := Entries(None, entry.timeline);
      var i :| 0 <= i < |entries| && entries[i] == entry.event;
      assert entriesOf(p)[i] == entry;
    }
  }

  lemma ParentIsListed(events: seq<StageEvent>, e: StageEvent)
    requires e in events
    ensures e.parent in Parents(events)
  {
    SeenExactly(events, e.parent);
    assert e in OfParent(e.parent, events);
    SortPermutes(ParentLe, FirstSeen(events));
    PermutationSameElements(Parents(events), FirstSeen(events));
  }

  /** The published labels come by entity, those of one entity by snapshot, those of one snapshot by reason. */
  lemma LabelsAreInOrder(inputs: Inputs, events: seq<StageEvent>)
    ensures forall i, j :: 0 <= i < j < |Labels(inputs, events)| ==>
              var a, b := Labels(inputs, events)[i], Labels(inputs, events)[j];
              && StringLe(a.entityKey, b.entityKey)
              && (a.entityKey == b.entityKey ==>
                    && a.snapshotAt <= b.snapshotAt
                    && (a.snapshotAt == b.snapshotAt ==> StringLe(ReasonText(a.reason), ReasonText(b.reason))))
  {
    LabelOrder();
    StringOrder();
    SortSorted(LabelLe, LabelsOf(inputs, OpenEntries(events)));
  }

  /** Every published label is the label of an entry, and every entry has one that is published. */
  lemma PublishedLabelsSay(inputs: Inputs, events: seq<StageEvent>)
    ensures forall l :: l in Labels(inputs, events) ==> exists e :: LabelsEntry(inputs, events, e, l)
    ensures forall e: StageEvent :: e in Entries(None, Timeline(e.parent, events)) ==>
              exists l :: l in Labels(inputs, events) && LabelsEntry(inputs, events, e, l)
  {
    var entries := OpenEntries(events);
    var labels := LabelsOf(inputs, entries);
    SortPermutes(LabelLe, labels);
    PermutationSameElements(Labels(inputs, events), labels);
    forall l | l in Labels(inputs, events)
      ensures exists e :: LabelsEntry(inputs, events, e, l)
    {
      var i :| 0 <= i < |entries| && labels[i] == l;
      EntryIsLabelled(inputs, events, entries[i]);
    }
    forall e: StageEvent | e in Entries(None, Timeline(e.parent, events))
      ensures exists l :: l in Labels(inputs, events) && LabelsEntry(inputs, events, e, l)
    {
      var entry := Entry(e.parent, e, Timeline(e.parent, events));
      OpenEntryIs(events, entry);
      EntryIsLabelled(inputs, events, entry);
      var i :| 0 <= i < |entries| && entries[i] == entry;
      assert labels[i] in labels;
    }
  }

  lemma EntryIsLabelled(inputs: Inputs, events: seq<StageEvent>, entry: Entry)
    requires entry in OpenEntries(events)
    ensures LabelsEntry(inputs, events, entry.event, LabelOf(inputs, entry))
  {
    OpenEntryIs(events, entry);
    EntryIsOfItsParent(entry.parent, events, entry.event);
    LabelSays(inputs, entry.parent, entry.event, entry.timeline);
  }

  // ----- Other parents' versions -----

  /** The two lists have the same versions of the parent, in the same order. */
  ghost predicate SameVersionsOf(p: ParentKey, a: seq<DealVersion>, b: seq<DealVersion>) {
    Filter((v: DealVersion) => v.parent == p, a) == Filter((v: DealVersion) => v.parent == p, b)
  }

  function LabelsOfParent(inputs: Inputs, events: seq<StageEvent>, p: ParentKey): seq<Label> {
    Filter((l: Label) => l.parent == p, Labels(inputs, events))
  }

  /** Inputs that differ in versions of other parents publish the same labels for a parent. */
  lemma OtherVersionsDoNotMatter(a: Inputs, b: Inputs, events: seq<StageEvent>, p: ParentKey)
    requires b == a.(versions := b.versions) && SameVersionsOf(p, a.versions, b.versions)
    ensures LabelsOfParent(a, events, p) == LabelsOfParent(b, events, p)
  {
    var entries := OpenEntries(events);
    var ofParent := (l: Label) => l.parent == p;
    LabelOrder();
    FilterSort(LabelLe, ofParent, LabelsOf(a, entries));
    FilterSort(LabelLe, ofParent, LabelsOf(b, entries));
    forall entry
      ensures LabelOf(a, entry).parent == LabelOf(b, entry).parent == entry.parent
      ensures entry.parent == p ==> LabelOf(a, entry) == LabelOf(b, entry)
    {
      SameLabel(a, b, entry);
    }
    FilterMapAgree(ofParent, e => LabelOf(a, e), e => LabelOf(b, e), entries);
  }

  lemma SameLabel(a: Inputs, b: Inputs, entry: Entry)
    requires b == a.(versions := b.versions)
    ensures LabelOf(a, entry).parent == LabelOf(b, entry).parent == entry.parent
    ensures SameVersionsOf(entry.parent, a.versions, b.versions) ==> LabelOf(a, entry) == LabelOf(b, entry)
  {
  }
}
