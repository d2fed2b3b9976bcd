/** Thirty-day labels of open-episode entries: the operational selector and the retrospective one. */
module GateLabels {
  import opened Common
  import opened Sequences
  import opened Sorting
  import opened Text
  import opened StageTimeline

  /** Thirty days in microseconds. */
  const HORIZON: int := 30 * 24 * 60 * 60 * 1_000_000

  datatype AmountState =
    | KnownAmount
    | ZeroAmount
    | MissingAmount
    | InvalidAmount
    | UnavailableAmount
    | AmountNotReconstructable

  datatype CurrencyStatus =
    | SupportedCurrency | UnsupportedCurrency | InvalidCurrency | MissingCurrency
    | UnavailableCurrency | CurrencyNotReconstructable

  datatype DealVersion = DealVersion(
    parent: ParentKey,
    versionKey: string,
    sourceRecordVersion: int,
    entityKey: Option<string>,
    observedAt: Option<int>,
    ingestedAt: Option<int>,
    activatedAt: Option<int>,
    supersededAt: Option<int>,
    rejectedAt: Option<int>,
    linkFailedAt: Option<int>,
    linkedPersonCount: nat,
    activePersonCount: nat,
    latestLinkedAt: Option<int>,
    timestampsValid: bool,
    amount: AmountState,
    currency: CurrencyStatus,
    lifecycleStatus: string,
    linkedPersonIds: seq<string>,
    activePersonIds: seq<string>)

  datatype GateRelease = GateRelease(
    enabled: bool,
    evidenceCutoffAt: int,
    sourceAccountingComplete: bool,
    analyticalReleaseConsistent: bool)

  datatype LabelStatus = Positive | Negative | Unknown | Censored | Ineligible

  datatype Reason =
    | SourceAuthorityIncomplete | InvalidStageTimestamp | InvalidParentTimestamp | MissingParentAtSnapshot
    | SelectedParentAmbiguity | UnsupportedEntity | CurrencyUnsupported | CurrencyInvalid
    | AmbiguousOrLatePersonLink | RetrospectiveDisqualifier | NotOpenAsKnown | NotOpenRetrospective
    | WonUnavailableByCutoff | FirstWonInHorizon | ImmatureHorizon | MatureNoFirstWon

  /** The text a reason is published and ordered by. */
  function ReasonText(r: Reason): string {
    match r
    case SourceAuthorityIncomplete => "source_authority_incomplete"
    case InvalidStageTimestamp => "invalid_stage_timestamp"
    case InvalidParentTimestamp => "invalid_parent_timestamp"
    case MissingParentAtSnapshot => "missing_parent_at_snapshot"
    case SelectedParentAmbiguity => "selected_parent_ambiguity"
    case UnsupportedEntity => "unsupported_entity"
    case CurrencyUnsupported => "unsupported_currency"
    case CurrencyInvalid => "invalid_currency"
    case AmbiguousOrLatePersonLink => "ambiguous_or_late_person_link"
    case RetrospectiveDisqualifier => "censored_retrospective_disqualifier"
    case NotOpenAsKnown => "not_open_as_known"
    case NotOpenRetrospective => "not_open_retrospective"
    case WonUnavailableByCutoff => "won_unavailable_by_cutoff"
    case FirstWonInHorizon => "first_won_in_horizon"
    case ImmatureHorizon => "immature_horizon"
    case MatureNoFirstWon => "mature_no_first_won"
  }

  /** Status and reason of a label, and whether the branch taken clears the determinacy of the history. */
  datatype Verdict = Verdict(status: LabelStatus, reason: Reason, clearsHistory: bool)

  datatype Label = Label(
    parent: ParentKey,
    snapshotAt: int,
    entityKey: string,
    mature: bool,
    personLinked: bool,
    timestampValid: bool,
    historyDeterminate: bool,
    amount: AmountState,
    currency: CurrencyStatus,
    amountReconstructable: bool,
    status: LabelStatus,
    reason: Reason)

  /** The order of the published labels. */
  predicate LabelLe(a: Label, b: Label) {
    if a.entityKey != b.entityKey then StringLe(a.entityKey, b.entityKey)
    else if a.snapshotAt != b.snapshotAt then a.snapshotAt < b.snapshotAt
    else StringLe(ReasonText(a.reason), ReasonText(b.reason))
  }

  lemma LabelOrder()
    ensures TotalPreorder(LabelLe)
  {
    StringOrder();
  }

  // ----- What was known at the snapshot -----

  predicate ReachedBy(t: Option<int>, snapshot: int) {
    t.Some? && t.value <= snapshot
  }

  predicate AvailableVersion(v: DealVersion, snapshot: int) {
    && v.timestampsValid
    && ReachedBy(v.observedAt, snapshot) && ReachedBy(v.ingestedAt, snapshot) && ReachedBy(v.activatedAt, snapshot)
    && !ReachedBy(v.supersededAt, snapshot) && !ReachedBy(v.rejectedAt, snapshot)
    && !ReachedBy(v.linkFailedAt, snapshot)
  }

  function SelectVersion(versions: seq<DealVersion>, snapshot: int): Result<DealVersion, Reason> {
    var candidates := Filter((v: DealVersion) => AvailableVersion(v, snapshot), versions);
    if candidates == [] then
      if exists v :: v in versions && !v.timestampsValid then Err(InvalidParentTimestamp)
      else Err(MissingParentAtSnapshot)
    else if |candidates| != 1 then Err(SelectedParentAmbiguity)
    else Ok(candidates[0])
  }

  predicate PersonLinked(v: Result<DealVersion, Reason>, snapshot: int) {
    && v.Ok? && v.value.linkedPersonCount == 1 && v.value.activePersonCount == 1
    && ReachedBy(v.value.latestLinkedAt, snapshot)
  }

  /** Python's `max` by event order: the first of the greatest. */
  function LastKnown(known: seq<StageEvent>): StageEvent
    requires known != []
  {
    if |known| == 1 then known[0]
    else
      var best, e := LastKnown(known[..|known| - 1]), known[|known| - 1];
      if EventLe(e, best) then best else e
  }

  function StateAsKnown(timeline: seq<StageEvent>, snapshot: int): Option<MappedState> {
    var known := Filter((e: StageEvent) => e.eventAt <= snapshot && e.availableAt <= snapshot, timeline);
    if known == [] then None else Some(LastKnown(known).state)
  }

  /** An event of the past that leaves the open state but was not yet available. */
  predicate LateDisqualifier(e: StageEvent, snapshot: int) {
    e.eventAt <= snapshot < e.availableAt && e.state != Open
  }

  predicate Disqualified(timeline: seq<StageEvent>, snapshot: int) {
    exists e :: e in timeline && LateDisqualifier(e, snapshot)
  }

  function FirstWon(timeline: seq<StageEvent>): Option<StageEvent> {
    if timeline == [] then None
    else if timeline[0].state == Won then Some(timeline[0])
    else FirstWon(timeline[1..])
  }

  // ----- The operational selector -----

  function OperationalSnapshot(e: StageEvent): int {
    if e.eventAt >= e.availableAt then e.eventAt else e.availableAt
  }

  predicate SourceAuthorised(release: GateRelease) {
    release.enabled && release.sourceAccountingComplete
  }

  /** What the operational selector reads of the timeline. */
  datatype KnownTimeline = KnownTimeline(disqualified: bool, state: Option<MappedState>, won: Option<StageEvent>)

  function TimelineAsKnown(timeline: seq<StageEvent>, snapshot: int): KnownTimeline {
    KnownTimeline(Disqualified(timeline, snapshot), StateAsKnown(timeline, snapshot), FirstWon(timeline))
  }

  /** The outcome of an eligible entry. */
  function OperationalOutcome(won: Option<StageEvent>, snapshot: int, cutoff: int): Verdict {
    if won.Some? && snapshot < won.value.eventAt <= snapshot + HORIZON then
      if won.value.availableAt > cutoff then Verdict(Censored, WonUnavailableByCutoff, false)
      else Verdict(Positive, FirstWonInHorizon, false)
    else if snapshot + HORIZON > cutoff then Verdict(Unknown, ImmatureHorizon, false)
    else Verdict(Negative, MatureNoFirstWon, false)
  }

  function OperationalVerdict(release: GateRelease, selected: Result<DealVersion, Reason>, linked: bool,
                              supported: bool, known: KnownTimeline, snapshot: int, invalidEvent: bool): Verdict
  {
    if !SourceAuthorised(release) then Verdict(Censored, SourceAuthorityIncomplete, false)
    else if invalidEvent then Verdict(Censored, InvalidStageTimestamp, false)
    else if selected.Err? then Verdict(Censored, selected.error, true)
    else if !supported then Verdict(Ineligible, UnsupportedEntity, false)
    else if selected.value.currency == UnsupportedCurrency then Verdict(Ineligible, CurrencyUnsupported, false)
    else if selected.value.currency == InvalidCurrency then Verdict(Censored, CurrencyInvalid, false)
    else if !linked then Verdict(Censored, AmbiguousOrLatePersonLink, true)
    else if known.disqualified then Verdict(Censored, RetrospectiveDisqualifier, false)
    else if known.state != Some(Open) then Verdict(Ineligible, NotOpenAsKnown, false)
    else OperationalOutcome(known.won, snapshot, release.evidenceCutoffAt)
  }

  function LabelOpenEntry(release: GateRelease, entry: Entry, versions: seq<DealVersion>, entityKeys: seq<string>,
                          invalidEvent: bool): Label
  {
    var snapshot := OperationalSnapshot(entry.event);
    var selected := SelectVersion(versions, snapshot);
    var entity := if selected.Ok? && selected.value.entityKey.Some? && selected.value.entityKey.value != ""
                  then selected.value.entityKey.value else "unassigned";
    var linked := PersonLinked(selected, snapshot);
    var known := TimelineAsKnown(entry.timeline, snapshot);
    var verdict := OperationalVerdict(release, selected, linked, entity in entityKeys, known, snapshot, invalidEvent);
    Label(
      entry.parent, snapshot, entity, snapshot + HORIZON <= release.evidenceCutoffAt, linked,
      !invalidEvent && (selected.Err? || selected.value.timestampsValid),
      release.analyticalReleaseConsistent && !invalidEvent && !verdict.clearsHistory,
      if selected.Ok? then selected.value.amount else UnavailableAmount,
      if selected.Ok? then selected.value.currency else UnavailableCurrency,
      selected.Ok?, verdict.status, verdict.reason)
  }

  // ----- The retrospective selector -----

  predicate IsLive(v: DealVersion) {
    (v.lifecycleStatus == "active" || v.lifecycleStatus == "pending_review") && v.timestampsValid
  }

  datatype EntityState = Resolved(key: string) | MissingEntity | AmbiguousEntity

  /** The one entity key all live versions carry. */
  function LiveEntity(live: seq<DealVersion>): EntityState {
    if live == [] then MissingEntity
    else if live[0].entityKey.Some? && forall v :: v in live ==> v.entityKey == live[0].entityKey then
      Resolved(live[0].entityKey.value)
    else AmbiguousEntity
  }

  predicate CurrentStateLinked(live: seq<DealVersion>) {
    var linked := set v, p | v in live && p in v.linkedPersonIds :: p;
    var active := set v, p | v in live && p in v.activePersonIds :: p;
    |linked| == 1 && |active| == 1 && active <= linked
  }

  /** By observation time, source version, version key. */
  predicate AmountLe(a: DealVersion, b: DealVersion)
    requires a.observedAt.Some? && b.observedAt.Some?
  {
    if a.observedAt.value != b.observedAt.value then a.observedAt.value < b.observedAt.value
    else if a.sourceRecordVersion != b.sourceRecordVersion then a.sourceRecordVersion < b.sourceRecordVersion
    else StringLe(a.versionKey, b.versionKey)
  }

  predicate CarriesAmount(v: DealVersion, snapshot: int) {
    v.lifecycleStatus != "rejected" && v.timestampsValid && ReachedBy(v.observedAt, snapshot)
  }

  function LatestAmount(candidates: seq<DealVersion>): (v: DealVersion)
    requires candidates != [] && forall c :: c in candidates ==> c.observedAt.Some?
    ensures v in candidates
  {
    if |candidates| == 1 then candidates[0]
    else
      var best, c := LatestAmount(candidates[..|candidates| - 1]), candidates[|candidates| - 1];
      if AmountLe(c, best) then best else c
  }

  function RetrospectiveAmountVersion(versions: seq<DealVersion>, snapshot: int): Option<DealVersion> {
    var candidates := Filter((v: DealVersion) => CarriesAmount(v, snapshot), versions);
    if candidates == [] then None else Some(LatestAmount(candidates))
  }

  function StateAt(timeline: seq<StageEvent>, snapshot: int): Option<MappedState> {
    var known := Filter((e: StageEvent) => e.eventAt <= snapshot, timeline);
    if known == [] then None else Some(known[|known| - 1].state)
  }

  predicate WonWithin(e: StageEvent, snapshot: int) {
    e.state == Won && snapshot < e.eventAt <= snapshot + HORIZON
  }

  predicate WonInHorizon(timeline: seq<StageEvent>, snapshot: int) {
    exists e :: e in timeline && WonWithin(e, snapshot)
  }

  function RetrospectiveVerdict(release: GateRelease, entity: EntityState, supported: bool, open: bool,
                                amount: Option<DealVersion>, wonWithin: bool, horizon: int, invalidEvent: bool): Verdict
  {
    if !SourceAuthorised(release) then Verdict(Censored, SourceAuthorityIncomplete, false)
    else if invalidEvent then Verdict(Censored, InvalidStageTimestamp, false)
    else if entity.MissingEntity? then Verdict(Censored, MissingParentAtSnapshot, true)
    else if entity.AmbiguousEntity? then Verdict(Censored, SelectedParentAmbiguity, true)
    else if !supported then Verdict(Ineligible, UnsupportedEntity, false)
    else if !open then Verdict(Ineligible, NotOpenRetrospective, false)
    else if amount.Some? && amount.value.currency == UnsupportedCurrency then
      Verdict(Ineligible, CurrencyUnsupported, false)
    else if amount.Some? && amount.value.currency == InvalidCurrency then Verdict(Censored, CurrencyInvalid, false)
    else if horizon > release.evidenceCutoffAt then Verdict(Unknown, ImmatureHorizon, false)
    else if wonWithin then Verdict(Positive, FirstWonInHorizon, false)
    else Verdict(Negative, MatureNoFirstWon, false)
  }

  function LabelRetrospectiveEntry(release: GateRelease, entry: Entry, versions: seq<DealVersion>,
                                   entityKeys: seq<string>, invalidEvent: bool): Label
  {
    var snapshot := entry.event.eventAt;
    var live := Filter(IsLive, versions);
    var entity := LiveEntity(live);
    var entityKey := if entity.Resolved? then entity.key else "unresolved";
    var amount := RetrospectiveAmountVersion(versions, snapshot);
    var open := StateAt(entry.timeline, snapshot) == Some(Open);
    var verdict := RetrospectiveVerdict(release, entity, entityKey in entityKeys, open, amount,
                                        WonInHorizon(entry.timeline, snapshot), snapshot + HORIZON, invalidEvent);
    Label(
      entry.parent, snapshot, entityKey, snapshot + HORIZON <= release.evidenceCutoffAt, CurrentStateLinked(live),
      !invalidEvent,
      release.analyticalReleaseConsistent && !invalidEvent && entity.Resolved? && !verdict.clearsHistory,
      if amount.Some? then amount.value.amount else AmountNotReconstructable,
      if amount.Some? then amount.value.currency else CurrencyNotReconstructable,
      amount.Some?, verdict.status, verdict.reason)
  }

  // ----- The published list -----

  datatype Selector = Operational | Retrospective

  /** Everything a label depends on besides the events. */
  datatype Inputs = Inputs(
    selector: Selector,
    release: GateRelease,
    versions: seq<DealVersion>,
    entityKeys: seq<string>,
    invalidParents: set<ParentKey>)

  function VersionsOf(p: ParentKey, versions: seq<DealVersion>): seq<DealVersion> {
    Filter((v: DealVersion) => v.parent == p, versions)
  }

  function LabelOf(inputs: Inputs, entry: Entry): Label {
    var versions := VersionsOf(entry.parent, inputs.versions);
    match inputs.selector
    case Operational =>
      LabelOpenEntry(inputs.release, entry, versions, inputs.entityKeys, entry.parent in inputs.invalidParents)
    case Retrospective =>
      LabelRetrospectiveEntry(inputs.release, entry, versions, inputs.entityKeys, entry.parent in inputs.invalidParents)
  }

  function LabelsOf(inputs: Inputs, entries: seq<Entry>): seq<Label> {
    Map(e => LabelOf(inputs, e), entries)
  }

  lemma LabelsOfMore(inputs: Inputs, entries: seq<Entry>, e: Entry)
    ensures LabelsOf(inputs, entries + [e]) == LabelsOf(inputs, entries) + [LabelOf(inputs, e)]
  {
  }

  function Labels(inputs: Inputs, events: seq<StageEvent>): seq<Label> {
    Sort(LabelLe, LabelsOf(inputs, OpenEntries(events)))
  }

  method BuildLabels(inputs: Inputs, events: seq<StageEvent>) returns (labels: seq<Label>)
    ensures labels == Labels(inputs, events)
  {
    var entries := IterateOpenEntries(events);
    var output := [];
    for n := 0 to |entries|
      invariant output == LabelsOf(inputs, entries[..n])
    {
      LabelsOfMore(inputs, entries[..n], entries[n]);
      assert entries[..n + 1] == entries[..n] + [entries[n]];
      output := output + [LabelOf(inputs, entries[n])];
    }
    assert entries[..|entries|] == entries;
    labels := Sort(LabelLe, output);
  }
}
