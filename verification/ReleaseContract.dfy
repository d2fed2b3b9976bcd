/** The release validator, checked against a relational specification. */
module ReleaseContract {
  import opened Common
  import opened Sequences
  import opened ProjectionRecords

  datatype HeaderError = BoundaryScope | RevisionScope | RevisionStateMismatch | NumberDoesNotAdvance

  datatype InputError = DuplicateInput | ForeignInput | InputOutsideBoundary | BoundaryNotCovered

  datatype DecisionError = DecisionsDoNotMatchInputs | ForeignDecision

  datatype LinkError = DuplicateAssociation | ForeignAssociation | DuplicateSupport | ForeignSupport

  datatype SupportError = SupportReference | SupportHead | SupportRevision | SupportTarget | UnsupportedAssociation

  datatype ReleaseError =
    | HeaderRejected(header: HeaderError)
    | InputsRejected(input: InputError)
    | DecisionsRejected(decision: DecisionError)
    | LinksRejected(link: LinkError)
    | AssociationSubject
    | SupportsRejected(support: SupportError)
    | OutcomeMismatch

  // ----- The relational specification -----

  ghost predicate DistinctBy<A, K>(key: A -> K, s: seq<A>) {
    forall i, j :: 0 <= i < j < |s| ==> key(s[i]) != key(s[j])
  }

  function InputKey(i: Input): InputId {
    i.Id()
  }

  function DecisionKey(d: Decision): InputId {
    d.inputId
  }

  function AssociationKey(a: Association): Association {
    a
  }

  function AssociationFields(a: Association): (InputId, SubjectKind, nat, EntityKey) {
    (a.inputId, a.kind, a.subjectId, a.entityKey)
  }

  function SupportKey(s: Support): SupportId {
    s.Id()
  }

  ghost predicate HeaderHolds(r: Release) {
    && r.boundary.scope == r.scope && r.revision.scope == r.scope
    && r.revision.state == (if r.state == PublishedRelease then Active else Prepared)
    && (r.priorNumber.Some? ==> r.releaseNumber > r.priorNumber.value)
  }

  ghost predicate InputsHold(r: Release) {
    && DistinctBy(InputKey, r.inputs)
    && (forall i :: i in r.inputs ==> i.releaseId == r.releaseId && i.head in r.boundary.heads)
    && (r.state == Completed || r.state == PublishedRelease ==> BoundaryCovered(r))
  }

  ghost predicate HasInput(r: Release, h: MembershipHead) {
    exists i :: i in r.inputs && i.head == h
  }

  ghost predicate BoundaryCovered(r: Release) {
    |r.inputs| == |r.boundary.heads| && forall h :: h in r.boundary.heads ==> HasInput(r, h)
  }

  ghost predicate DecisionsHold(r: Release) {
    && DistinctBy(DecisionKey, r.decisions)
    && (forall d :: d in r.decisions ==> d.releaseId == r.releaseId && IsInput(r, d.inputId))
    && (forall i :: i in r.inputs ==> IsDecided(r, i.Id()))
  }

  ghost predicate IsInput(r: Release, id: InputId) {
    exists i :: i in r.inputs && i.Id() == id
  }

  ghost predicate IsDecided(r: Release, id: InputId) {
    exists d :: d in r.decisions && d.inputId == id
  }

  /** The association names an input of the release and that input's own subject. */
  ghost predicate OwnSubject(r: Release, a: Association) {
    exists i :: i in r.inputs && i.Id() == a.inputId && i.head.Subject() == (a.kind, a.subjectId)
  }

  ghost predicate AssociationsHold(r: Release) {
    && Distinct(r.associations)
    && (forall a :: a in r.associations ==> a.releaseId == r.releaseId && OwnSubject(r, a) && IsSupported(r, a))
  }

  ghost predicate IsSupported(r: Release, a: Association) {
    exists s :: s in r.supports && s.association == a
  }

  ghost predicate Referenced(r: Release, s: Support) {
    s.association in r.associations && IsInput(r, s.association.inputId)
  }

  ghost predicate FromFrozenHead(r: Release, s: Support) {
    exists i :: i in r.inputs && i.Id() == s.association.inputId && i.head.record == s.observation.record
  }

  /** The support proves its association from the input's frozen head and this release's mapping revision. */
  ghost predicate Proves(r: Release, s: Support) {
    && Referenced(r, s) && FromFrozenHead(r, s)
    && s.target.entry.revisionId == r.revision.revisionId
    && s.target.entityKey == s.association.entityKey
  }

  ghost predicate SupportsHold(r: Release) {
    && DistinctBy(SupportKey, r.supports)
    && (forall s :: s in r.supports ==> s.releaseId == r.releaseId && Proves(r, s))
  }

  ghost predicate HasAssociation(r: Release, id: InputId) {
    exists a :: a in r.associations && a.inputId == id
  }

  /** Empty membership and the presence of associations leave at most one allowed outcome. */
  ghost predicate OutcomeFits(r: Release, i: Input, outcome: Outcome) {
    match outcome
    case Associated => HasAssociation(r, i.Id()) && i.head.Bindings() != []
    case ZeroTarget(reason) =>
      !HasAssociation(r, i.Id()) && reason == if i.head.Bindings() == [] then EmptyMembership else NoMappedTargets
  }

  ghost predicate OutcomesHold(r: Release) {
    forall i, d :: i in r.inputs && d in r.decisions && d.inputId == i.Id() ==> OutcomeFits(r, i, d.outcome)
  }

  ghost predicate Accepted(r: Release) {
    && HeaderHolds(r) && InputsHold(r) && DecisionsHold(r)
    && AssociationsHold(r) && SupportsHold(r) && OutcomesHold(r)
  }

  // ----- The validator's dictionaries -----

  /** The first `n` items under their keys; as many keys as items exactly when the keys differ. */
  ghost predicate Indexes<A, K>(key: A -> K, items: seq<A>, n: nat, index: map<K, A>)
    requires n <= |items|
  {
    && (forall i :: 0 <= i < n ==> key(items[i]) in index)
    && (forall k :: k in index ==> exists i :: 0 <= i < n && items[i] == index[k] && key(items[i]) == k)
    && |index| <= n
    && (|index| == n <==> forall i, j :: 0 <= i < j < n ==> key(items[i]) != key(items[j]))
  }

  lemma IndexNewKey<A, K>(key: A -> K, items: seq<A>, n: nat, index: map<K, A>)
    requires n < |items| && Indexes(key, items, n, index)
    requires key(items[n]) !in index
    ensures Indexes(key, items, n + 1, index[key(items[n]) := items[n]])
  {
    var next := index[key(items[n]) := items[n]];
    assert next.Keys == index.Keys + {key(items[n])};
  }

  lemma IndexOldKey<A, K>(key: A -> K, items: seq<A>, n: nat, index: map<K, A>)
    requires n < |items| && Indexes(key, items, n, index)
    requires key(items[n]) in index
    ensures Indexes(key, items, n + 1, index[key(items[n]) := items[n]])
  {
    var next := index[key(items[n]) := items[n]];
    assert next.Keys == index.Keys;
    var i :| 0 <= i < n && items[i] == index[key(items[n])] && key(items[i]) == key(items[n]);
  }

  /** `{key(item): item for item in items}`. */
  method IndexBy<A, K(==)>(key: A -> K, items: seq<A>) returns (index: map<K, A>)
    ensures Indexes(key, items, |items|, index)
  {
    index := map[];
    var n := 0;
    while n < |items|
      invariant n <= |items|
      invariant Indexes(key, items, n, index)
    {
      var k := key(items[n]);
      if k in index {
        IndexOldKey(key, items, n, index);
      } else {
        IndexNewKey(key, items, n, index);
      }
      index := index[k := items[n]];
      n := n + 1;
    }
  }

  /** With differing keys the dictionary is exactly the items by key. */
  lemma FullIndex<A, K>(key: A -> K, items: seq<A>, index: map<K, A>)
    requires Indexes(key, items, |items|, index) && |index| == |items|
    ensures forall a :: a in items ==> key(a) in index && index[key(a)] == a
    ensures forall k :: k in index ==> index[k] in items && key(index[k]) == k
  {
    forall a | a in items
      ensures key(a) in index && index[key(a)] == a
    {
      var i :| 0 <= i < |items| && items[i] == a;
      var j :| 0 <= j < |items| && items[j] == index[key(a)] && key(items[j]) == key(a);
      assert i == j;
    }
  }

  ghost predicate IndexesInputs(r: Release, inputs: map<InputId, Input>) {
    && (forall id :: id in inputs <==> IsInput(r, id))
    && (forall id :: id in inputs ==> inputs[id] in r.inputs && inputs[id].Id() == id)
    && (forall i :: i in r.inputs ==> i.Id() in inputs && inputs[i.Id()] == i)
  }

  // ----- What each error says is wrong with the release -----

  ghost predicate HeaderViolated(r: Release, e: HeaderError) {
    match e
    case BoundaryScope => r.boundary.scope != r.scope
    case RevisionScope => r.revision.scope != r.scope
    case RevisionStateMismatch => r.revision.state != if r.state == PublishedRelease then Active else Prepared
    case NumberDoesNotAdvance => r.priorNumber.Some? && r.releaseNumber <= r.priorNumber.value
  }

  ghost predicate InputsViolated(r: Release, e: InputError) {
    match e
    case DuplicateInput => !DistinctBy(InputKey, r.inputs)
    case ForeignInput => exists i :: i in r.inputs && i.releaseId != r.releaseId
    case InputOutsideBoundary => exists i :: i in r.inputs && i.head !in r.boundary.heads
    case BoundaryNotCovered => (r.state == Completed || r.state == PublishedRelease) && !BoundaryCovered(r)
  }

  ghost predicate DecisionsViolated(r: Release, e: DecisionError) {
    match e
    case DecisionsDoNotMatchInputs =>
      || !DistinctBy(DecisionKey, r.decisions)
      || (exists d :: d in r.decisions && !IsInput(r, d.inputId))
      || (exists i :: i in r.inputs && !IsDecided(r, i.Id()))
    case ForeignDecision => exists d :: d in r.decisions && d.releaseId != r.releaseId
  }

  ghost predicate LinksViolated(r: Release, e: LinkError) {
    match e
    case DuplicateAssociation => !Distinct(r.associations)
    case ForeignAssociation => exists a :: a in r.associations && a.releaseId != r.releaseId
    case DuplicateSupport => !DistinctBy(SupportKey, r.supports)
    case ForeignSupport => exists s :: s in r.supports && s.releaseId != r.releaseId
  }

  ghost predicate SupportsViolated(r: Release, e: SupportError) {
    match e
    case SupportReference => exists s :: s in r.supports && !Referenced(r, s)
    case SupportHead => exists s :: s in r.supports && !FromFrozenHead(r, s)
    case SupportRevision => exists s :: s in r.supports && s.target.entry.revisionId != r.revision.revisionId
    case SupportTarget => exists s :: s in r.supports && s.target.entityKey != s.association.entityKey
    case UnsupportedAssociation => exists a :: a in r.associations && !IsSupported(r, a)
  }

  ghost predicate Violates(r: Release, e: ReleaseError) {
    match e
    case HeaderRejected(h) => HeaderViolated(r, h)
    case InputsRejected(i) => InputsViolated(r, i)
    case DecisionsRejected(d) => DecisionsViolated(r, d)
    case LinksRejected(l) => LinksViolated(r, l)
    case AssociationSubject => exists a :: a in r.associations && !OwnSubject(r, a)
    case SupportsRejected(u) => SupportsViolated(r, u)
    case OutcomeMismatch =>
      exists i, d :: i in r.inputs && d in r.decisions && d.inputId == i.Id() && !OutcomeFits(r, i, d.outcome)
  }

  /** No accepted release violates anything. */
  lemma ViolationRejects(r: Release, e: ReleaseError)
    requires Violates(r, e)
    ensures !Accepted(r)
  {
    match e
    case HeaderRejected(h) => assert !HeaderHolds(r);
    case InputsRejected(i) => assert !InputsHold(r);
    case DecisionsRejected(d) => assert !DecisionsHold(r);
    case LinksRejected(l) =>
    case AssociationSubject => assert !AssociationsHold(r);
    case SupportsRejected(u) =>
    case OutcomeMismatch => assert !OutcomesHold(r);
  }

  // ----- The validator -----

  /** The header checks, then the records in the order of their checks. */
  method ValidateRelease(r: Release) returns (error: Option<ReleaseError>)
    ensures error == None <==> Accepted(r)
    ensures error.Some? ==> Violates(r, error.value)
  {
    error := FindViolation(r);
    if error.Some? {
      ViolationRejects(r, error.value);
    }
  }

  method FindViolation(r: Release) returns (error: Option<ReleaseError>)
    ensures error == None ==> Accepted(r)
    ensures error.Some? ==> Violates(r, error.value)
  {
    var header := ValidateHeader(r);
    if header.Some? {
      return Some(HeaderRejected(header.value));
    }
    var input, inputs := ValidateInputs(r);
    if input.Some? {
      return Some(InputsRejected(input.value));
    }
    var decision, decisions := ValidateDecisionKeys(r, inputs);
    if decision.Some? {
      return Some(DecisionsRejected(decision.value));
    }
    var link := ValidateLinks(r);
    if link.Some? {
      return Some(LinksRejected(link.value));
    }
    var ok, counts := CountAssociations(r, inputs);
    if !ok {
      return Some(AssociationSubject);
    }
    var support := ValidateSupports(r, inputs);
    if support.Some? {
      return Some(SupportsRejected(support.value));
    }
    ok := ValidateOutcomes(r, inputs, decisions, counts);
    return if ok then None else Some(OutcomeMismatch);
  }

  method ValidateHeader(r: Release) returns (error: Option<HeaderError>)
    ensures error == None ==> HeaderHolds(r)
    ensures error.Some? ==> HeaderViolated(r, error.value)
  {
    if r.boundary.scope != r.scope {
      return Some(BoundaryScope);
    }
    if r.revision.scope != r.scope {
      return Some(RevisionScope);
    }
    if r.revision.state != (if r.state == PublishedRelease then Active else Prepared) {
      return Some(RevisionStateMismatch);
    }
    if r.priorNumber.Some? && r.releaseNumber <= r.priorNumber.value {
      return Some(NumberDoesNotAdvance);
    }
    return None;
  }

  method CoversBoundary(r: Release) returns (ok: bool)
    requires forall i :: i in r.inputs ==> i.head in r.boundary.heads
    ensures ok <==> BoundaryCovered(r)
  {
    var inputHeads := set i | i in r.inputs :: i.head;
    var boundaryHeads := set h | h in r.boundary.heads;
    ok := |r.inputs| == |r.boundary.heads| && inputHeads == boundaryHeads;
    forall h | h in r.boundary.heads
      ensures HasInput(r, h) <==> h in inputHeads
    {
    }
    assert inputHeads <= boundaryHeads;
    assert inputHeads == boundaryHeads <==> forall h :: h in boundaryHeads ==> h in inputHeads;
  }

  lemma IndexedInputs(r: Release, inputs: map<InputId, Input>)
    requires Indexes(InputKey, r.inputs, |r.inputs|, inputs) && |inputs| == |r.inputs|
    ensures IndexesInputs(r, inputs)
  {
    FullIndex(InputKey, r.inputs, inputs);
  }

  method ValidateInputs(r: Release) returns (error: Option<InputError>, inputs: map<InputId, Input>)
    ensures error == None ==> InputsHold(r) && IndexesInputs(r, inputs)
    ensures error.Some? ==> InputsViolated(r, error.value)
  {
    inputs := IndexBy(InputKey, r.inputs);
    if |inputs| != |r.inputs| {
      return Some(DuplicateInput), inputs;
    }
    if exists i :: i in r.inputs && i.releaseId != r.releaseId {
      return Some(ForeignInput), inputs;
    }
    if exists i :: i in r.inputs && i.head !in r.boundary.heads {
      return Some(InputOutsideBoundary), inputs;
    }
    var covered := CoversBoundary(r);
    if r.state in {Completed, PublishedRelease} && !covered {
      return Some(BoundaryNotCovered), inputs;
    }
    IndexedInputs(r, inputs);
    return None, inputs;
  }

  ghost predicate IndexesDecisions(r: Release, decisions: map<InputId, Decision>) {
    && (forall id :: id in decisions ==> decisions[id] in r.decisions && decisions[id].inputId == id)
    && (forall d :: d in r.decisions ==> d.inputId in decisions && decisions[d.inputId] == d)
  }

  lemma KeysDiffer(r: Release, inputs: map<InputId, Input>, decisions: map<InputId, Decision>)
    requires IndexesInputs(r, inputs) && IndexesDecisions(r, decisions)
    requires decisions.Keys != inputs.Keys
    ensures DecisionsViolated(r, DecisionsDoNotMatchInputs)
  {
    if id :| id in decisions && id !in inputs {
      assert decisions[id] in r.decisions && !IsInput(r, decisions[id].inputId);
    } else {
      var id :| id in inputs && id !in decisions;
      assert inputs[id] in r.inputs && !IsDecided(r, inputs[id].Id());
    }
  }

  lemma KeysAgree(r: Release, inputs: map<InputId, Input>, decisions: map<InputId, Decision>)
    requires IndexesInputs(r, inputs) && IndexesDecisions(r, decisions)
    requires decisions.Keys == inputs.Keys
    ensures forall d :: d in r.decisions ==> IsInput(r, d.inputId)
    ensures forall i :: i in r.inputs ==> IsDecided(r, i.Id())
  {
    forall d | d in r.decisions
      ensures IsInput(r, d.inputId)
    {
      assert d.inputId in decisions.Keys;
    }
    forall i | i in r.inputs
      ensures IsDecided(r, i.Id())
    {
      assert i.Id() in inputs.Keys;
    }
  }

  method ValidateDecisionKeys(r: Release, inputs: map<InputId, Input>)
    returns (error: Option<DecisionError>, decisions: map<InputId, Decision>)
    requires IndexesInputs(r, inputs)
    ensures error == None ==> DecisionsHold(r) && IndexesDecisions(r, decisions) && decisions.Keys == inputs.Keys
    ensures error.Some? ==> DecisionsViolated(r, error.value)
  {
    decisions := IndexBy(DecisionKey, r.decisions);
    if |decisions| != |r.decisions| {
      return Some(DecisionsDoNotMatchInputs), decisions;
    }
    FullIndex(DecisionKey, r.decisions, decisions);
    assert IndexesDecisions(r, decisions);
    if decisions.Keys != inputs.Keys {
      KeysDiffer(r, inputs, decisions);
      return Some(DecisionsDoNotMatchInputs), decisions;
    }
    KeysAgree(r, inputs, decisions);
    if exists d :: d in r.decisions && d.releaseId != r.releaseId {
      return Some(ForeignDecision), decisions;
    }
    return None, decisions;
  }

  ghost predicate LinksHold(r: Release) {
    && Distinct(r.associations) && DistinctBy(SupportKey, r.supports)
    && (forall a :: a in r.associations ==> a.releaseId == r.releaseId)
    && (forall s :: s in r.supports ==> s.releaseId == r.releaseId)
  }

  lemma SameFieldsSameAssociation(r: Release)
    requires forall a :: a in r.associations ==> a.releaseId == r.releaseId
    requires Distinct(r.associations)
    ensures DistinctBy(AssociationFields, r.associations)
  {
    forall i, j | 0 <= i < j < |r.associations|
      ensures AssociationFields(r.associations[i]) != AssociationFields(r.associations[j])
    {
      assert r.associations[i] in r.associations && r.associations[j] in r.associations;
    }
  }

  method ValidateLinks(r: Release) returns (error: Option<LinkError>)
    ensures error == None ==> LinksHold(r)
    ensures error.Some? ==> LinksViolated(r, error.value)
  {
    var associations := IndexBy(AssociationKey, r.associations);
    if |associations| != |r.associations| {
      return Some(DuplicateAssociation);
    }
    if exists a :: a in r.associations && a.releaseId != r.releaseId {
      return Some(ForeignAssociation);
    }
    var keys := IndexBy(AssociationFields, r.associations);
    SameFieldsSameAssociation(r);
    if |keys| != |r.associations| {
      return Some(DuplicateAssociation);
    }
    var supportKeys := IndexBy(SupportKey, r.supports);
    if |supportKeys| != |r.supports| {
      return Some(DuplicateSupport);
    }
    if exists s :: s in r.supports && s.releaseId != r.releaseId {
      return Some(ForeignSupport);
    }
    return None;
  }

  method CountAssociations(r: Release, inputs: map<InputId, Input>)
    returns (ok: bool, counts: map<InputId, nat>)
    requires IndexesInputs(r, inputs)
    ensures ok <==> forall a :: a in r.associations ==> OwnSubject(r, a)
    ensures ok ==> counts.Keys == inputs.Keys
    ensures ok ==> forall id :: id in counts ==> (counts[id] == 0 <==> !HasAssociation(r, id))
  {
    counts := map id | id in inputs :: 0;
    var n := 0;
    while n < |r.associations|
      invariant n <= |r.associations|
      invariant counts.Keys == inputs.Keys
      invariant forall k :: 0 <= k < n ==> OwnSubject(r, r.associations[k])
      invariant forall id :: id in counts ==>
                  (counts[id] == 0 <==> forall k :: 0 <= k < n ==> r.associations[k].inputId != id)
    {
      var a := r.associations[n];
      if a.inputId !in inputs || (a.kind, a.subjectId) != inputs[a.inputId].head.Subject() {
        assert a in r.associations && !OwnSubject(r, a);
        return false, counts;
      }
      counts := counts[a.inputId := counts[a.inputId] + 1];
      n := n + 1;
    }
    return true, counts;
  }

  method ValidateSupports(r: Release, inputs: map<InputId, Input>) returns (error: Option<SupportError>)
    requires IndexesInputs(r, inputs)
    ensures error == None ==>
            && (forall s :: s in r.supports ==> Proves(r, s))
            && (forall a :: a in r.associations ==> IsSupported(r, a))
    ensures error.Some? ==> SupportsViolated(r, error.value)
  {
    var supported: map<Association, nat> := map a | a in r.associations :: 0;
    var n := 0;
    while n < |r.supports|
      invariant n <= |r.supports|
      invariant forall a :: a in supported <==> a in r.associations
      invariant forall k :: 0 <= k < n ==> Proves(r, r.supports[k])
      invariant forall a :: a in supported ==>
                  (supported[a] == 0 <==> forall k :: 0 <= k < n ==> r.supports[k].association != a)
    {
      var s := r.supports[n];
      assert s in r.supports;
      if s.association !in supported || s.association.inputId !in inputs {
        return Some(SupportReference);
      }
      if s.observation.record != inputs[s.association.inputId].head.record {
        return Some(SupportHead);
      }
      if s.target.entry.revisionId != r.revision.revisionId {
        return Some(SupportRevision);
      }
      if s.target.entityKey != s.association.entityKey {
        return Some(SupportTarget);
      }
      supported := supported[s.association := supported[s.association] + 1];
      n := n + 1;
    }
    if a :| a in supported && supported[a] == 0 {
      assert !IsSupported(r, a);
      return Some(UnsupportedAssociation);
    }
    return None;
  }

  /** The four checks of one decision. */
  predicate OutcomeRejected(outcome: Outcome, empty: bool, count: nat) {
    || (outcome == Associated && count == 0)
    || (outcome.ZeroTarget? && count != 0)
    || (empty && outcome != ZeroTarget(EmptyMembership))
    || (!empty && outcome.ZeroTarget? && outcome.reason != NoMappedTargets)
  }

  lemma RejectedMeansUnfit(r: Release, i: Input, outcome: Outcome, count: nat)
    requires count == 0 <==> !HasAssociation(r, i.Id())
    ensures OutcomeRejected(outcome, i.head.Bindings() == [], count) <==> !OutcomeFits(r, i, outcome)
  {
  }

  method ValidateOutcomes(r: Release, inputs: map<InputId, Input>, decisions: map<InputId, Decision>,
                          counts: map<InputId, nat>)
    returns (ok: bool)
    requires IndexesInputs(r, inputs) && IndexesDecisions(r, decisions) && decisions.Keys == inputs.Keys
    requires counts.Keys == inputs.Keys
    requires forall id :: id in counts ==> (counts[id] == 0 <==> !HasAssociation(r, id))
    ensures ok <==> OutcomesHold(r)
  {
    var pending := inputs.Keys;
    while pending != {}
      invariant pending <= inputs.Keys
      invariant forall id :: id in inputs && id !in pending ==> OutcomeFits(r, inputs[id], decisions[id].outcome)
      decreases |pending|
    {
      var id :| id in pending;
      RejectedMeansUnfit(r, inputs[id], decisions[id].outcome, counts[id]);
      if OutcomeRejected(decisions[id].outcome, inputs[id].head.Bindings() == [], counts[id]) {
        assert inputs[id] in r.inputs && decisions[id] in r.decisions;
        return false;
      }
      pending := pending - {id};
    }
    return true;
  }
}
