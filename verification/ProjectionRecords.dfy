/**
  The immutable records a tenant projection release is checked against. A digest
  identity is the tuple it digests, and a canonical positive decimal is its number.
  The constructor checks of each record are its `Valid` predicate.
 */
module ProjectionRecords {
  import opened Common
  import opened Sequences

  datatype SubjectKind = Contact | Lead

  datatype Scope = Scope(sourceInstanceId: string, controlInstanceId: string)

  datatype Binding = Binding(companyId: nat, sort: Option<int>, roleId: Option<nat>, isPrimary: bool)

  datatype MembershipSnapshot = MembershipSnapshot(kind: SubjectKind, subjectId: nat, bindings: seq<Binding>) {
    ghost predicate Valid() {
      forall i, j :: 0 <= i < j < |bindings| ==> bindings[i].companyId != bindings[j].companyId
    }
  }

  /** The snapshot identity digests every field, so the record stands for its own identity. */
  datatype SnapshotRecord = SnapshotRecord(
    scope: Scope,
    snapshot: MembershipSnapshot,
    sourceRecordId: string,
    sourceRecordPk: string,
    sourceRecordVersion: nat,
    sourceRecordHash: string,
    observedAt: Option<string>,
    availableAt: string)

  datatype MembershipHead = MembershipHead(record: SnapshotRecord) {
    function Subject(): (SubjectKind, nat) {
      (record.snapshot.kind, record.snapshot.subjectId)
    }

    function Bindings(): seq<Binding> {
      record.snapshot.bindings
    }
  }

  function KindRank(k: SubjectKind): nat {
    if k == Contact then 0 else 1
  }

  /** Contacts before leads, then by numeric identity. */
  predicate SubjectBefore(a: (SubjectKind, nat), b: (SubjectKind, nat)) {
    KindRank(a.0) < KindRank(b.0) || (a.0 == b.0 && a.1 < b.1)
  }

  datatype Boundary = Boundary(scope: Scope, heads: seq<MembershipHead>) {
    ghost predicate Valid() {
      && (forall h :: h in heads ==> h.record.scope == scope && h.record.snapshot.Valid())
      && (forall i, j :: 0 <= i < j < |heads| ==> SubjectBefore(heads[i].Subject(), heads[j].Subject()))
    }
  }

  /** `companyRecordId` is not part of the observation identity. */
  datatype Observation = Observation(record: SnapshotRecord, binding: Binding, companyRecordId: string) {
    ghost predicate Valid() {
      binding in record.snapshot.bindings
    }
  }

  datatype ObservationId = ObservationId(record: SnapshotRecord, binding: Binding)

  type EntityKey = string

  datatype CompanyEntry = CompanyEntry(companyId: nat, targets: seq<EntityKey>) {
    ghost predicate Valid() {
      Distinct(targets)
    }
  }

  /** A mapping entry as a support carries it: a copy of the company entry under a revision identity. */
  datatype MappingEntry = MappingEntry(revisionId: string, company: CompanyEntry)

  datatype EntryTarget = EntryTarget(entry: MappingEntry, entityKey: EntityKey) {
    ghost predicate Valid() {
      entityKey in entry.company.targets
    }
  }

  /** The target identity leaves the entry's other targets out. */
  datatype TargetId = TargetId(revisionId: string, companyId: nat, entityKey: EntityKey)

  datatype InputId = InputId(releaseId: string, kind: SubjectKind, subjectId: nat)

  datatype Input = Input(releaseId: string, head: MembershipHead) {
    function Id(): InputId {
      InputId(releaseId, head.Subject().0, head.Subject().1)
    }
  }

  datatype ZeroTargetReason = EmptyMembership | NoMappedTargets

  /** A decision carries a reason exactly when it is a zero-target decision. */
  datatype Outcome = Associated | ZeroTarget(reason: ZeroTargetReason)

  datatype Decision = Decision(releaseId: string, inputId: InputId, outcome: Outcome)

  /** The association identity digests every field. */
  datatype Association = Association(
    releaseId: string,
    inputId: InputId,
    kind: SubjectKind,
    subjectId: nat,
    entityKey: EntityKey)

  datatype Support = Support(
    releaseId: string,
    association: Association,
    observation: Observation,
    target: EntryTarget)
  {
    ghost predicate Valid() {
      && association.releaseId == releaseId
      && observation.Valid() && target.Valid()
      && observation.binding.companyId == target.entry.company.companyId
    }

    function Id(): SupportId {
      SupportId(association, ObservationId(observation.record, observation.binding),
                TargetId(target.entry.revisionId, target.entry.company.companyId, target.entityKey))
    }
  }

  datatype SupportId = SupportId(association: Association, observation: ObservationId, target: TargetId)

  datatype RevisionState = Prepared | Active | Superseded | Rejected | ActivationFailed

  datatype MappingRevision = MappingRevision(scope: Scope, revisionId: string, state: RevisionState)

  datatype Manifest = Manifest(entries: seq<CompanyEntry>) {
    ghost predicate Valid() {
      && (forall e :: e in entries ==> e.Valid())
      && (forall i, j :: 0 <= i < j < |entries| ==> entries[i].companyId < entries[j].companyId)
    }
  }

  datatype ReleaseState = Building | Completed | ReleaseFailed | Cancelled | PublishedRelease

  datatype Release = Release(
    scope: Scope,
    releaseId: string,
    releaseNumber: nat,
    boundary: Boundary,
    revision: MappingRevision,
    priorNumber: Option<nat>,
    state: ReleaseState,
    inputs: seq<Input>,
    decisions: seq<Decision>,
    associations: seq<Association>,
    supports: seq<Support>)
  {
    /** What the constructors of the records in this release have checked. */
    ghost predicate RecordsValid() {
      boundary.Valid() && forall s :: s in supports ==> s.Valid()
    }
  }
}
