/**
  What acceptance means: an accepted release is inside the join of the frozen
  memberships with the mapping, and the full join is itself an accepted release.
 */
module ReleaseJoin {
  import opened Common
  import opened Sequences
  import opened Text
  import opened ProjectionRecords
  import opened ReleaseContract

  // ----- The join -----

  /** `targets_for`: the targets of the company's entry, none for an omitted company. */
  function TargetsFor(m: Manifest, companyId: nat): seq<EntityKey> {
    TargetsIn(m.entries, companyId)
  }

  function TargetsIn(entries: seq<CompanyEntry>, companyId: nat): seq<EntityKey> {
    if entries == [] then []
    else if entries[0].companyId == companyId then entries[0].targets
    else TargetsIn(entries[1..], companyId)
  }

  method LookUpTargets(m: Manifest, companyId: nat) returns (targets: seq<EntityKey>)
    ensures targets == TargetsFor(m, companyId)
    ensures m.Valid() ==> forall k :: k in targets <==>
              exists e :: e in m.entries && e.companyId == companyId && k in e.targets
  {
    var n := 0;
    while n < |m.entries|
      invariant n <= |m.entries|
      invariant TargetsIn(m.entries[n..], companyId) == TargetsFor(m, companyId)
      invariant forall i :: 0 <= i < n ==> m.entries[i].companyId != companyId
    {
      if m.entries[n].companyId == companyId {
        return m.entries[n].targets;
      }
      n := n + 1;
    }
    return [];
  }

  /** The subject's head in the boundary has a company that the manifest maps to the entity. */
  ghost predicate InJoin(b: Boundary, m: Manifest, subject: (SubjectKind, nat), entityKey: EntityKey) {
    exists h, g :: && h in b.heads && h.Subject() == subject
                   && g in h.Bindings() && entityKey in TargetsFor(m, g.companyId)
  }

  /** A support's copy of a mapping entry is the manifest's entry for that company. */
  ghost predicate Authentic(m: Manifest, s: Support) {
    s.target.entry.company in m.entries
  }

  /** The manifest maps the support's company to the entity its association claims. */
  ghost predicate Backed(m: Manifest, s: Support) {
    s.association.entityKey in TargetsFor(m, s.target.entry.company.companyId)
  }

  lemma {:induction false} EntryIsFound(entries: seq<CompanyEntry>, e: CompanyEntry)
    requires e in entries
    requires forall i, j :: 0 <= i < j < |entries| ==> entries[i].companyId < entries[j].companyId
    ensures TargetsIn(entries, e.companyId) == e.targets
  {
    if entries[0] != e {
      EntryIsFound(entries[1..], e);
    }
  }

  /** A support that carries the manifest's own entry and proves its own association is backed. */
  lemma AuthenticIsBacked(m: Manifest, s: Support)
    requires m.Valid() && s.Valid() && s.target.entityKey == s.association.entityKey
    requires Authentic(m, s)
    ensures Backed(m, s)
  {
    EntryIsFound(m.entries, s.target.entry.company);
  }

  // ----- Accepted releases -----

  /**
    Each association rests on one frozen head of its subject, one of its companies, and one entry of
    the release's revision.
   */
  ghost predicate Witnessed(r: Release, a: Association) {
    exists s :: && s in r.supports && s.association == a
                && s.observation.binding.companyId == s.target.entry.company.companyId
                && a.entityKey in s.target.entry.company.targets
                && s.target.entry.revisionId == r.revision.revisionId
                && (exists h :: h in r.boundary.heads && h.Subject() == (a.kind, a.subjectId)
                                && s.observation.record == h.record && s.observation.binding in h.Bindings())
  }

  lemma AcceptedAssociationIsWitnessed(r: Release, a: Association)
    requires Accepted(r) && r.RecordsValid() && a in r.associations
    ensures Witnessed(r, a)
  {
    assert IsSupported(r, a);
    var s :| s in r.supports && s.association == a;
    assert Proves(r, s) && s.Valid();
    assert FromFrozenHead(r, s) && OwnSubject(r, a);
    var i :| i in r.inputs && i.Id() == a.inputId && i.head.record == s.observation.record;
    assert i.head in r.boundary.heads;
    assert i.head.Subject() == (a.kind, a.subjectId);
  }

  /**
    The support is a joined pair of its own: its subject's frozen head has its binding, whose
    company the manifest maps.
   */
  ghost predicate JoinsFrozenHead(r: Release, m: Manifest, s: Support) {
    exists h :: && h in r.boundary.heads && h.Subject() == (s.association.kind, s.association.subjectId)
                && s.observation.binding in h.Bindings()
                && s.association.entityKey in TargetsFor(m, s.observation.binding.companyId)
  }

  /** Of an accepted release: the manifest backs every support exactly when every support is a joined pair. */
  lemma BackedExactlyWhenJoined(r: Release, m: Manifest)
    requires Accepted(r) && r.RecordsValid()
    ensures (forall s :: s in r.supports ==> Backed(m, s)) <==>
            (forall s :: s in r.supports ==> JoinsFrozenHead(r, m, s))
  {
    forall s | s in r.supports
      ensures Backed(m, s) <==> JoinsFrozenHead(r, m, s)
    {
      SupportHasFrozenHead(r, s);
    }
  }

  lemma SupportHasFrozenHead(r: Release, s: Support)
    requires Accepted(r) && r.RecordsValid() && s in r.supports
    ensures s.observation.binding.companyId == s.target.entry.company.companyId
    ensures exists h :: && h in r.boundary.heads && h.Subject() == (s.association.kind, s.association.subjectId)
                        && s.observation.binding in h.Bindings()
  {
    assert Proves(r, s) && s.Valid();
    assert FromFrozenHead(r, s) && OwnSubject(r, s.association);
    var i :| i in r.inputs && i.Id() == s.association.inputId && i.head.record == s.observation.record;
    assert i.head in r.boundary.heads;
    assert i.head.Subject() == (s.association.kind, s.association.subjectId);
  }

  /** An accepted release whose supports the manifest backs holds nothing outside the join of boundary and manifest. */
  lemma AcceptedIsInsideJoin(r: Release, m: Manifest, a: Association)
    requires Accepted(r) && r.RecordsValid()
    requires forall s :: s in r.supports ==> Backed(m, s)
    requires a in r.associations
    ensures InJoin(r.boundary, m, (a.kind, a.subjectId), a.entityKey)
  {
    assert IsSupported(r, a);
    var s :| s in r.supports && s.association == a;
    BackedExactlyWhenJoined(r, m);
    assert JoinsFrozenHead(r, m, s);
  }

  /** Some support of the association is backed. */
  ghost predicate HasBackedSupport(r: Release, m: Manifest, a: Association) {
    exists s :: s in r.supports && s.association == a && Backed(m, s)
  }

  /** A frozen binding of the subject joins the pair without any support of the association using it. */
  ghost predicate JoinedUnsupported(r: Release, m: Manifest, a: Association) {
    exists h, g :: && h in r.boundary.heads && h.Subject() == (a.kind, a.subjectId) && g in h.Bindings()
                   && a.entityKey in TargetsFor(m, g.companyId)
                   && forall s :: s in r.supports && s.association == a ==> s.observation.binding != g
  }

  /**
    An accepted association is in the join exactly when one of its supports is backed or a binding
    that no support of it uses joins the pair; its other supports may be unbacked.
   */
  lemma AssociationIsJoinedExactly(r: Release, m: Manifest, a: Association)
    requires Accepted(r) && r.RecordsValid() && a in r.associations
    ensures InJoin(r.boundary, m, (a.kind, a.subjectId), a.entityKey) <==>
            HasBackedSupport(r, m, a) || JoinedUnsupported(r, m, a)
  {
    if InJoin(r.boundary, m, (a.kind, a.subjectId), a.entityKey) && !JoinedUnsupported(r, m, a) {
      var h, g :| && h in r.boundary.heads && h.Subject() == (a.kind, a.subjectId)
                  && g in h.Bindings() && a.entityKey in TargetsFor(m, g.companyId);
      var s :| s in r.supports && s.association == a && s.observation.binding == g;
      SupportHasFrozenHead(r, s);
      assert Backed(m, s);
    }
    if s :| s in r.supports && s.association == a && Backed(m, s) {
      SupportHasFrozenHead(r, s);
    }
  }

  /** Emptiness and the associations determine the one outcome an accepted release can give an input. */
  lemma OutcomeIsDetermined(r: Release, i: Input, d: Decision)
    requires Accepted(r) && r.RecordsValid()
    requires i in r.inputs && d in r.decisions && d.inputId == i.Id()
    ensures d.outcome == if HasAssociation(r, i.Id()) then Associated
                         else if i.head.Bindings() == [] then ZeroTarget(EmptyMembership)
                         else ZeroTarget(NoMappedTargets)
  {
    assert OutcomeFits(r, i, d.outcome);
  }

  /** Completed and published releases have exactly one input and one decision per subject of the boundary. */
  lemma CoveringReleaseCountsSubjects(r: Release)
    requires Accepted(r) && r.RecordsValid() && (r.state == Completed || r.state == PublishedRelease)
    ensures |r.inputs| == |r.decisions| == |r.boundary.heads|
    ensures forall h :: h in r.boundary.heads ==>
              exists i, d :: i in r.inputs && d in r.decisions && i.head == h && d.inputId == i.Id()
  {
    forall i | i in r.inputs
      ensures HasKey(DecisionKey, r.decisions, InputKey(i))
    {
      assert IsDecided(r, i.Id());
    }
    forall d | d in r.decisions
      ensures HasKey(InputKey, r.inputs, DecisionKey(d))
    {
      assert IsInput(r, d.inputId);
    }
    KeysFound(InputKey, r.inputs, DecisionKey, r.decisions);
    KeysFound(DecisionKey, r.decisions, InputKey, r.inputs);
    forall h | h in r.boundary.heads
      ensures exists i, d :: i in r.inputs && d in r.decisions && i.head == h && d.inputId == i.Id()
    {
      assert HasInput(r, h);
      var i :| i in r.inputs && i.head == h;
      assert IsDecided(r, i.Id());
    }
  }

  ghost predicate HasKey<A(!new), K>(key: A -> K, s: seq<A>, k: K) {
    exists a :: a in s && key(a) == k
  }

  lemma KeysFound<A(!new), B(!new), K(!new)>(f: A -> K, s: seq<A>, g: B -> K, t: seq<B>)
    requires DistinctBy(f, s) && DistinctBy(g, t)
    requires forall x :: x in s ==> HasKey(g, t, f(x))
    ensures |s| <= |t|
  {
    var from, to := Map(f, s), Map(g, t);
    forall n | 0 <= n < |from|
      ensures from[n] in to
    {
      assert s[n] in s;
      assert HasKey(g, t, f(s[n]));
      var y :| y in t && g(y) == f(s[n]);
      var k :| 0 <= k < |t| && t[k] == y;
      assert to[k] == from[n];
    }
    DistinctSubsequenceSize(from, to);
  }

  lemma DistinctSubsequenceSize<A(!new)>(s: seq<A>, t: seq<A>)
    requires Distinct(s) && Distinct(t)
    requires forall x :: x in s ==> x in t
    ensures |s| <= |t|
    ensures |s| == |t| <==> forall x :: x in t ==> x in s
  {
    DistinctSize(s);
    DistinctSize(t);
    var have, want := set x | x in s, set x | x in t;
    assert forall x :: x in have <==> x in s;
    assert forall x :: x in want <==> x in t;
    SubsetSize(have, want);
  }

  lemma {:induction false} DistinctSize<A>(s: seq<A>)
    requires Distinct(s)
    ensures |set x | x in s| == |s|
  {
    if s != [] {
      DistinctSize(s[1..]);
      assert (set x | x in s) == (set x | x in s[1..]) + {s[0]};
    }
  }

  lemma SubsetSize<T>(a: set<T>, b: set<T>)
    requires a <= b
    ensures |a| <= |b|
    ensures |a| == |b| <==> b <= a
  {
    assert b == a + (b - a);
    assert b - a == {} <==> b <= a;
  }

  lemma AcceptedIsJoined(r: Release, m: Manifest, a: Association)
    requires Accepted(r) && r.RecordsValid()
    requires forall s :: s in r.supports ==> Backed(m, s)
    requires a in r.associations
    ensures a in AssociationsOf(r.releaseId, m, r.boundary.heads)
  {
    AcceptedIsInsideJoin(r, m, a);
    var h, g :| h in r.boundary.heads && h.Subject() == (a.kind, a.subjectId) && g in h.Bindings()
                && a.entityKey in TargetsFor(m, g.companyId);
    EntitiesAreTargets(m, h.Bindings(), a.entityKey);
    assert OwnSubject(r, a);
    assert a == AssociationOf(r.releaseId, h, a.entityKey);
    AssociationsAreJoined(r.releaseId, m, r.boundary.heads, a);
  }

  // ----- The full join as a release -----

  function EntitiesOf(m: Manifest, bindings: seq<Binding>): seq<EntityKey> {
    if bindings == [] then []
    else
      var first := TargetsFor(m, bindings[0].companyId);
      first + Filter(k => k !in first, EntitiesOf(m, bindings[1..]))
  }

  function AssociationOf(id: string, h: MembershipHead, k: EntityKey): Association {
    Association(id, Input(id, h).Id(), h.Subject().0, h.Subject().1, k)
  }

  function AssociationsOf(id: string, m: Manifest, heads: seq<MembershipHead>): seq<Association> {
    if heads == [] then []
    else
      Map(k => AssociationOf(id, heads[0], k), EntitiesOf(m, heads[0].Bindings()))
      + AssociationsOf(id, m, heads[1..])
  }

  function SupportOf(id: string, revisionId: string, m: Manifest, h: MembershipHead, g: Binding, k: EntityKey)
    : Support
  {
    Support(id, AssociationOf(id, h, k),
            Observation(h.record, g, "bitrix-crm-company-" + Decimal(g.companyId)),
            EntryTarget(MappingEntry(revisionId, CompanyEntry(g.companyId, TargetsFor(m, g.companyId))), k))
  }

  function SupportsOfHead(id: string, revisionId: string, m: Manifest, h: MembershipHead, bindings: seq<Binding>)
    : seq<Support>
  {
    if bindings == [] then []
    else
      Map(k => SupportOf(id, revisionId, m, h, bindings[0], k), TargetsFor(m, bindings[0].companyId))
      + SupportsOfHead(id, revisionId, m, h, bindings[1..])
  }

  function SupportsOf(id: string, revisionId: string, m: Manifest, heads: seq<MembershipHead>): seq<Support> {
    if heads == [] then []
    else SupportsOfHead(id, revisionId, m, heads[0], heads[0].Bindings()) + SupportsOf(id, revisionId, m, heads[1..])
  }

  function OutcomeOf(m: Manifest, h: MembershipHead): Outcome {
    if h.Bindings() == [] then ZeroTarget(EmptyMembership)
    else if EntitiesOf(m, h.Bindings()) == [] then ZeroTarget(NoMappedTargets)
    else Associated
  }

  function InputsOf(id: string, heads: seq<MembershipHead>): seq<Input> {
    Map(h => Input(id, h), heads)
  }

  function DecisionsOf(id: string, m: Manifest, heads: seq<MembershipHead>): seq<Decision> {
    Map(h => Decision(id, Input(id, h).Id(), OutcomeOf(m, h)), heads)
  }

  /** The release's records are the ones the whole join of its boundary with the manifest yields. */
  ghost predicate Materialises(r: Release, m: Manifest) {
    && r.inputs == InputsOf(r.releaseId, r.boundary.heads)
    && r.decisions == DecisionsOf(r.releaseId, m, r.boundary.heads)
    && r.associations == AssociationsOf(r.releaseId, m, r.boundary.heads)
    && r.supports == SupportsOf(r.releaseId, r.revision.revisionId, m, r.boundary.heads)
  }

  lemma DistinctConcat<A(!new), K>(key: A -> K, s: seq<A>, t: seq<A>)
    requires DistinctBy(key, s) && DistinctBy(key, t)
    requires forall x, y :: x in s && y in t ==> key(x) != key(y)
    ensures DistinctBy(key, s + t)
  {
    forall i, j | 0 <= i < j < |s + t|
      ensures key((s + t)[i]) != key((s + t)[j])
    {
      if i < |s| <= j {
        assert s[i] in s && t[j - |s|] in t;
      }
    }
  }

  lemma {:induction false} EntitiesAreTargets(m: Manifest, bindings: seq<Binding>, k: EntityKey)
    ensures k in EntitiesOf(m, bindings) <==> exists g :: g in bindings && k in TargetsFor(m, g.companyId)
  {
    if bindings != [] {
      EntitiesAreTargets(m, bindings[1..], k);
      assert forall g :: g in bindings <==> g == bindings[0] || g in bindings[1..];
    }
  }

  lemma {:induction false} TargetsAreDistinct(entries: seq<CompanyEntry>, companyId: nat)
    requires forall e :: e in entries ==> e.Valid()
    ensures Distinct(TargetsIn(entries, companyId))
  {
    if entries != [] {
      assert entries[0].Valid();
      TargetsAreDistinct(entries[1..], companyId);
    }
  }

  lemma {:induction false} EntitiesAreDistinct(m: Manifest, bindings: seq<Binding>)
    requires m.Valid()
    ensures Distinct(EntitiesOf(m, bindings))
  {
    if bindings != [] {
      var first, rest := TargetsFor(m, bindings[0].companyId), EntitiesOf(m, bindings[1..]);
      TargetsAreDistinct(m.entries, bindings[0].companyId);
      EntitiesAreDistinct(m, bindings[1..]);
      var extra := Filter(k => k !in first, rest);
      FilterKeepsDistinct(k => k !in first, rest);
      forall i, j | 0 <= i < j < |first + extra|
        ensures (first + extra)[i] != (first + extra)[j]
      {
        if i < |first| <= j {
          assert extra[j - |first|] in extra && first[i] in first;
        }
      }
    }
  }

  lemma {:induction false} AssociationsAreJoined(id: string, m: Manifest, heads: seq<MembershipHead>, a: Association)
    ensures a in AssociationsOf(id, m, heads) <==>
            exists h :: && h in heads && a.entityKey in EntitiesOf(m, h.Bindings())
                        && a == AssociationOf(id, h, a.entityKey)
  {
    if heads != [] {
      AssociationsAreJoined(id, m, heads[1..], a);
      assert forall h :: h in heads <==> h == heads[0] || h in heads[1..];
      var first := Map(k => AssociationOf(id, heads[0], k), EntitiesOf(m, heads[0].Bindings()));
      assert a in first <==>
             a.entityKey in EntitiesOf(m, heads[0].Bindings()) && a == AssociationOf(id, heads[0], a.entityKey);
    }
  }

  ghost predicate DistinctSubjects(heads: seq<MembershipHead>) {
    forall i, j :: 0 <= i < j < |heads| ==> heads[i].Subject() != heads[j].Subject()
  }

  lemma {:induction false} AssociationsAreDistinct(id: string, m: Manifest, heads: seq<MembershipHead>)
    requires m.Valid() && DistinctSubjects(heads)
    ensures DistinctBy(AssociationKey, AssociationsOf(id, m, heads))
  {
    if heads != [] {
      AssociationsAreDistinct(id, m, heads[1..]);
      EntitiesAreDistinct(m, heads[0].Bindings());
      var first := Map(k => AssociationOf(id, heads[0], k), EntitiesOf(m, heads[0].Bindings()));
      forall a | a in AssociationsOf(id, m, heads[1..])
        ensures (a.kind, a.subjectId) != heads[0].Subject()
      {
        AssociationsAreJoined(id, m, heads[1..], a);
        var h :| h in heads[1..] && a == AssociationOf(id, h, a.entityKey);
        var i :| 0 <= i < |heads[1..]| && heads[1..][i] == h;
        assert heads[i + 1] == h;
      }
      DistinctConcat(AssociationKey, first, AssociationsOf(id, m, heads[1..]));
    }
  }

  ghost predicate IsSupportOf(id: string, revisionId: string, m: Manifest, h: MembershipHead, s: Support) {
    exists g :: g in h.Bindings() && s.target.entityKey in TargetsFor(m, g.companyId)
                && s == SupportOf(id, revisionId, m, h, g, s.target.entityKey)
  }

  lemma {:induction false} HeadSupportsAre(id: string, revisionId: string, m: Manifest, h: MembershipHead,
                                           bindings: seq<Binding>, s: Support)
    ensures s in SupportsOfHead(id, revisionId, m, h, bindings) <==>
            exists g :: g in bindings && s.target.entityKey in TargetsFor(m, g.companyId)
                        && s == SupportOf(id, revisionId, m, h, g, s.target.entityKey)
  {
    if bindings != [] {
      HeadSupportsAre(id, revisionId, m, h, bindings[1..], s);
      assert forall g :: g in bindings <==> g == bindings[0] || g in bindings[1..];
      var first := Map(k => SupportOf(id, revisionId, m, h, bindings[0], k), TargetsFor(m, bindings[0].companyId));
      assert s in first <==> s.target.entityKey in TargetsFor(m, bindings[0].companyId)
                             && s == SupportOf(id, revisionId, m, h, bindings[0], s.target.entityKey);
    }
  }

  lemma {:induction false} SupportsAre(id: string, revisionId: string, m: Manifest, heads: seq<MembershipHead>,
                                       s: Support)
    ensures s in SupportsOf(id, revisionId, m, heads) <==>
            exists h :: h in heads && IsSupportOf(id, revisionId, m, h, s)
  {
    if heads != [] {
      SupportsAre(id, revisionId, m, heads[1..], s);
      HeadSupportsAre(id, revisionId, m, heads[0], heads[0].Bindings(), s);
      assert s in SupportsOfHead(id, revisionId, m, heads[0], heads[0].Bindings())
        <==> IsSupportOf(id, revisionId, m, heads[0], s);
      assert forall h :: h in heads <==> h == heads[0] || h in heads[1..];
    }
  }

  lemma {:induction false} HeadSupportsAreDistinct(id: string, revisionId: string, m: Manifest, h: MembershipHead,
                                                   bindings: seq<Binding>)
    requires m.Valid()
    requires forall i, j :: 0 <= i < j < |bindings| ==> bindings[i].companyId != bindings[j].companyId
    ensures DistinctBy(SupportKey, SupportsOfHead(id, revisionId, m, h, bindings))
  {
    if bindings != [] {
      HeadSupportsAreDistinct(id, revisionId, m, h, bindings[1..]);
      TargetsAreDistinct(m.entries, bindings[0].companyId);
      var first := Map(k => SupportOf(id, revisionId, m, h, bindings[0], k), TargetsFor(m, bindings[0].companyId));
      forall s | s in SupportsOfHead(id, revisionId, m, h, bindings[1..])
        ensures s.observation.binding != bindings[0]
      {
        HeadSupportsAre(id, revisionId, m, h, bindings[1..], s);
        var g :| g in bindings[1..] && s == SupportOf(id, revisionId, m, h, g, s.target.entityKey);
        var i :| 0 <= i < |bindings[1..]| && bindings[1..][i] == g;
        assert bindings[i + 1] == g;
      }
      DistinctConcat(SupportKey, first, SupportsOfHead(id, revisionId, m, h, bindings[1..]));
    }
  }

  lemma {:induction false} SupportsAreDistinct(id: string, revisionId: string, m: Manifest, heads: seq<MembershipHead>)
    requires m.Valid() && DistinctSubjects(heads)
    requires forall h :: h in heads ==> h.record.snapshot.Valid()
    ensures DistinctBy(SupportKey, SupportsOf(id, revisionId, m, heads))
  {
    if heads != [] {
      SupportsAreDistinct(id, revisionId, m, heads[1..]);
      assert heads[0].record.snapshot.Valid();
      HeadSupportsAreDistinct(id, revisionId, m, heads[0], heads[0].Bindings());
      var first := SupportsOfHead(id, revisionId, m, heads[0], heads[0].Bindings());
      var rest := SupportsOf(id, revisionId, m, heads[1..]);
      forall x, y | x in first && y in rest
        ensures SupportKey(x) != SupportKey(y)
      {
        HeadSupportsAre(id, revisionId, m, heads[0], heads[0].Bindings(), x);
        SupportsAre(id, revisionId, m, heads[1..], y);
        var h :| h in heads[1..] && IsSupportOf(id, revisionId, m, h, y);
        var i :| 0 <= i < |heads[1..]| && heads[1..][i] == h;
        assert heads[i + 1] == h;
        assert x.association.kind == heads[0].Subject().0 && x.association.subjectId == heads[0].Subject().1;
      }
      DistinctConcat(SupportKey, first, rest);
    }
  }

  lemma BoundarySubjectsDiffer(b: Boundary)
    requires b.Valid()
    ensures DistinctSubjects(b.heads)
  {
  }

  lemma JoinInputs(r: Release, m: Manifest)
    requires Materialises(r, m) && r.boundary.Valid()
    ensures InputsHold(r)
    ensures forall h :: h in r.boundary.heads ==> Input(r.releaseId, h) in r.inputs
  {
    BoundarySubjectsDiffer(r.boundary);
    forall h | h in r.boundary.heads
      ensures Input(r.releaseId, h) in r.inputs && HasInput(r, h)
    {
      var i :| 0 <= i < |r.boundary.heads| && r.boundary.heads[i] == h;
      assert r.inputs[i] == Input(r.releaseId, h);
    }
  }

  lemma JoinDecisions(r: Release, m: Manifest)
    requires Materialises(r, m) && r.boundary.Valid()
    ensures DecisionsHold(r)
  {
    BoundarySubjectsDiffer(r.boundary);
    var heads := r.boundary.heads;
    forall n | 0 <= n < |heads|
      ensures IsInput(r, r.decisions[n].inputId) && IsDecided(r, r.inputs[n].Id())
    {
      assert r.inputs[n] in r.inputs && r.decisions[n] in r.decisions;
    }
  }

  lemma JoinAssociation(r: Release, m: Manifest, a: Association)
    requires Materialises(r, m) && r.boundary.Valid()
    ensures a in r.associations <==>
              exists h :: h in r.boundary.heads && a.entityKey in EntitiesOf(m, h.Bindings())
                          && a == AssociationOf(r.releaseId, h, a.entityKey)
    ensures a in r.associations ==> a.releaseId == r.releaseId && OwnSubject(r, a) && IsSupported(r, a)
  {
    AssociationsAreJoined(r.releaseId, m, r.boundary.heads, a);
    if a in r.associations {
      var h :| h in r.boundary.heads && a.entityKey in EntitiesOf(m, h.Bindings())
               && a == AssociationOf(r.releaseId, h, a.entityKey);
      JoinInputs(r, m);
      assert Input(r.releaseId, h) in r.inputs;
      EntitiesAreTargets(m, h.Bindings(), a.entityKey);
      var g :| g in h.Bindings() && a.entityKey in TargetsFor(m, g.companyId);
      var s := SupportOf(r.releaseId, r.revision.revisionId, m, h, g, a.entityKey);
      SupportsAre(r.releaseId, r.revision.revisionId, m, r.boundary.heads, s);
      assert IsSupportOf(r.releaseId, r.revision.revisionId, m, h, s);
      assert s in r.supports;
    }
  }

  lemma JoinSupport(r: Release, m: Manifest, s: Support)
    requires Materialises(r, m) && r.boundary.Valid() && m.Valid()
    requires s in r.supports
    ensures s.Valid() && s.releaseId == r.releaseId && Proves(r, s) && Authentic(m, s)
  {
    var heads := r.boundary.heads;
    SupportsAre(r.releaseId, r.revision.revisionId, m, heads, s);
    var h :| h in heads && IsSupportOf(r.releaseId, r.revision.revisionId, m, h, s);
    var g :| g in h.Bindings() && s.target.entityKey in TargetsFor(m, g.companyId)
             && s == SupportOf(r.releaseId, r.revision.revisionId, m, h, g, s.target.entityKey);
    JoinInputs(r, m);
    assert Input(r.releaseId, h) in r.inputs;
    EntitiesAreTargets(m, h.Bindings(), s.target.entityKey);
    JoinAssociation(r, m, s.association);
    TargetsComeFromAnEntry(m.entries, g.companyId);
  }

  lemma {:induction false} TargetsComeFromAnEntry(entries: seq<CompanyEntry>, companyId: nat)
    requires TargetsIn(entries, companyId) != []
    ensures CompanyEntry(companyId, TargetsIn(entries, companyId)) in entries
  {
    if entries[0].companyId != companyId {
      TargetsComeFromAnEntry(entries[1..], companyId);
    }
  }

  lemma JoinOutcome(r: Release, m: Manifest, h: MembershipHead)
    requires Materialises(r, m) && r.boundary.Valid()
    requires h in r.boundary.heads
    ensures OutcomeFits(r, Input(r.releaseId, h), OutcomeOf(m, h))
  {
    var id := Input(r.releaseId, h).Id();
    var entities := EntitiesOf(m, h.Bindings());
    if entities != [] {
      var a := AssociationOf(r.releaseId, h, entities[0]);
      JoinAssociation(r, m, a);
      assert a in r.associations && a.inputId == id;
    } else if a :| a in r.associations && a.inputId == id {
      JoinAssociation(r, m, a);
      var other :| other in r.boundary.heads && a.entityKey in EntitiesOf(m, other.Bindings())
                   && a == AssociationOf(r.releaseId, other, a.entityKey);
      SameSubjectSameHead(r.boundary, h, other);
      assert false;
    }
  }

  lemma SameSubjectSameHead(b: Boundary, g: MembershipHead, h: MembershipHead)
    requires b.Valid() && g in b.heads && h in b.heads && g.Subject() == h.Subject()
    ensures g == h
  {
    var i :| 0 <= i < |b.heads| && b.heads[i] == g;
    var j :| 0 <= j < |b.heads| && b.heads[j] == h;
    assert i == j;
  }

  lemma JoinOutcomes(r: Release, m: Manifest)
    requires Materialises(r, m) && r.boundary.Valid()
    ensures OutcomesHold(r)
  {
    forall i, d | i in r.inputs && d in r.decisions && d.inputId == i.Id()
      ensures OutcomeFits(r, i, d.outcome)
    {
      var n :| 0 <= n < |r.boundary.heads| && r.decisions[n] == d;
      var h := r.boundary.heads[n];
      assert i.head in r.boundary.heads;
      SameSubjectSameHead(r.boundary, i.head, h);
      assert i == Input(r.releaseId, h);
      JoinOutcome(r, m, h);
    }
  }

  /**
    The release that materialises the whole join is accepted exactly when its header is in order,
    and it associates precisely the joined pairs.
   */
  lemma JoinIsAccepted(r: Release, m: Manifest)
    requires Materialises(r, m) && r.boundary.Valid() && m.Valid()
    ensures r.RecordsValid()
    ensures Accepted(r) <==> HeaderHolds(r)
    ensures forall s :: s in r.supports ==> Authentic(m, s) && Backed(m, s)
    ensures forall subject, k :: InJoin(r.boundary, m, subject, k) <==> IsAssociated(r, subject, k)
  {
    BoundarySubjectsDiffer(r.boundary);
    JoinInputs(r, m);
    JoinDecisions(r, m);
    forall a | a in r.associations
      ensures a.releaseId == r.releaseId && OwnSubject(r, a) && IsSupported(r, a)
    {
      JoinAssociation(r, m, a);
    }
    AssociationsAreDistinct(r.releaseId, m, r.boundary.heads);
    forall s | s in r.supports
      ensures s.Valid() && s.releaseId == r.releaseId && Proves(r, s) && Authentic(m, s) && Backed(m, s)
    {
      JoinSupport(r, m, s);
      AuthenticIsBacked(m, s);
    }
    SupportsAreDistinct(r.releaseId, r.revision.revisionId, m, r.boundary.heads);
    JoinOutcomes(r, m);
    forall subject, k
      ensures InJoin(r.boundary, m, subject, k) <==> IsAssociated(r, subject, k)
    {
      JoinIsAssociated(r, m, subject, k);
    }
  }

  ghost predicate IsAssociated(r: Release, subject: (SubjectKind, nat), k: EntityKey) {
    exists a :: a in r.associations && (a.kind, a.subjectId) == subject && a.entityKey == k
  }

  lemma JoinIsAssociated(r: Release, m: Manifest, subject: (SubjectKind, nat), k: EntityKey)
    requires Materialises(r, m) && r.boundary.Valid()
    ensures InJoin(r.boundary, m, subject, k) <==> IsAssociated(r, subject, k)
  {
    if InJoin(r.boundary, m, subject, k) {
      var h, g :| && h in r.boundary.heads && h.Subject() == subject
                  && g in h.Bindings() && k in TargetsFor(m, g.companyId);
      EntitiesAreTargets(m, h.Bindings(), k);
      JoinAssociation(r, m, AssociationOf(r.releaseId, h, k));
      assert AssociationOf(r.releaseId, h, k) in r.associations;
    }
    if a :| a in r.associations && (a.kind, a.subjectId) == subject && a.entityKey == k {
      JoinAssociation(r, m, a);
      var h :| h in r.boundary.heads && a.entityKey in EntitiesOf(m, h.Bindings())
               && a == AssociationOf(r.releaseId, h, a.entityKey);
      EntitiesAreTargets(m, h.Bindings(), k);
    }
  }

  // ----- What acceptance leaves open -----

  /**
    An accepted release whose supports the manifest backs holds every joined pair exactly when it
    holds as many associations as the join.
   */
  lemma CompleteExactlyByCount(r: Release, m: Manifest)
    requires Accepted(r) && r.RecordsValid() && m.Valid()
    requires forall s :: s in r.supports ==> Backed(m, s)
    ensures var joined := AssociationsOf(r.releaseId, m, r.boundary.heads);
            && |r.associations| <= |joined|
            && (|r.associations| == |joined| <==> forall a :: a in joined ==> a in r.associations)
  {
    var joined := AssociationsOf(r.releaseId, m, r.boundary.heads);
    BoundarySubjectsDiffer(r.boundary);
    AssociationsAreDistinct(r.releaseId, m, r.boundary.heads);
    forall a | a in r.associations
      ensures a in joined
    {
      AcceptedIsJoined(r, m, a);
    }
    DistinctSubsequenceSize(r.associations, joined);
  }

  function SampleRelease(associated: bool): Release {
    var scope := Scope("source", "control");
    var g := Binding(7, None, None, true);
    var snapshot := MembershipSnapshot(Contact, 1, [g]);
    var h := MembershipHead(SnapshotRecord(scope, snapshot, "record", "pk", 1, "hash", None, "time"));
    var a := AssociationOf("release", h, "entity");
    var s := Support("release", a, Observation(h.record, g, "company"),
                     EntryTarget(MappingEntry("revision", CompanyEntry(7, ["entity"])), "entity"));
    Release(scope, "release", 1, Boundary(scope, [h]), MappingRevision(scope, "revision", Prepared), None, Completed,
            [Input("release", h)],
            [Decision("release", Input("release", h).Id(),
                      if associated then Associated else ZeroTarget(NoMappedTargets))],
            if associated then [a] else [], if associated then [s] else [])
  }

  /** The validator is not given the manifest: an accepted completed release can omit a joined pair. */
  lemma AcceptedCanOmitAPair()
    ensures var r, m := SampleRelease(false), Manifest([CompanyEntry(7, ["entity"])]);
            && Accepted(r) && r.RecordsValid() && m.Valid()
            && InJoin(r.boundary, m, (Contact, 1), "entity") && !IsAssociated(r, (Contact, 1), "entity")
  {
    var r, m := SampleRelease(false), Manifest([CompanyEntry(7, ["entity"])]);
    SampleIsAccepted(false);
    var h := r.boundary.heads[0];
    assert h.Bindings()[0] in h.Bindings();
    assert "entity" in TargetsFor(m, 7);
  }

  /** Nor does it compare entries with the manifest: an accepted release can associate a pair outside the join. */
  lemma AcceptedCanInventAPair()
    ensures var r, m := SampleRelease(true), Manifest([]);
            && Accepted(r) && r.RecordsValid() && m.Valid()
            && !InJoin(r.boundary, m, (Contact, 1), "entity") && IsAssociated(r, (Contact, 1), "entity")
  {
    SampleIsAccepted(true);
    assert SampleRelease(true).associations[0] in SampleRelease(true).associations;
  }

  /** One association with a support through each of two companies. */
  function TwoCompanyRelease(): Release {
    var scope := Scope("source", "control");
    var bindings := [Binding(7, None, None, true), Binding(8, None, None, false)];
    var snapshot := MembershipSnapshot(Contact, 1, bindings);
    var h := MembershipHead(SnapshotRecord(scope, snapshot, "record", "pk", 1, "hash", None, "time"));
    var a := AssociationOf("release", h, "entity");
    Release(scope, "release", 1, Boundary(scope, [h]), MappingRevision(scope, "revision", Prepared), None, Completed,
            [Input("release", h)], [Decision("release", Input("release", h).Id(), Associated)],
            [a], [SupportThrough(h, a, bindings[0]), SupportThrough(h, a, bindings[1])])
  }

  function SupportThrough(h: MembershipHead, a: Association, g: Binding): Support {
    Support("release", a, Observation(h.record, g, "company"),
            EntryTarget(MappingEntry("revision", CompanyEntry(g.companyId, ["entity"])), "entity"))
  }

  /** An unbacked support does not take its association out of the join when another company backs it. */
  lemma UnbackedSupportInsideJoin()
    ensures var r, m := TwoCompanyRelease(), Manifest([CompanyEntry(8, ["entity"])]);
            && Accepted(r) && r.RecordsValid() && m.Valid()
            && !Backed(m, r.supports[0])
            && forall a :: a in r.associations ==> InJoin(r.boundary, m, (a.kind, a.subjectId), a.entityKey)
  {
    var r, m := TwoCompanyRelease(), Manifest([CompanyEntry(8, ["entity"])]);
    TwoCompaniesAreAccepted();
    OnlyEntry(m, CompanyEntry(8, ["entity"]), 7);
    OnlyEntry(m, CompanyEntry(8, ["entity"]), 8);
    OneBackedSupportIsEnough(r, m, r.associations[0], r.supports[1]);
  }

  lemma OnlyEntry(m: Manifest, entry: CompanyEntry, companyId: nat)
    requires m.entries == [entry]
    ensures TargetsFor(m, companyId) == if companyId == entry.companyId then entry.targets else []
  {
    assert m.entries[0] == entry && m.entries[1..] == [];
    assert TargetsIn(m.entries[1..], companyId) == [];
  }

  lemma OneBackedSupportIsEnough(r: Release, m: Manifest, a: Association, s: Support)
    requires Accepted(r) && r.RecordsValid() && r.associations == [a]
    requires s in r.supports && s.association == a && Backed(m, s)
    ensures forall b :: b in r.associations ==> InJoin(r.boundary, m, (b.kind, b.subjectId), b.entityKey)
  {
    assert a in r.associations && HasBackedSupport(r, m, a);
    AssociationIsJoinedExactly(r, m, a);
  }

  /** A completed release over one head is accepted once its links and its outcome are in order. */
  lemma OneHeadIsAccepted(r: Release, i: Input, d: Decision)
    requires HeaderHolds(r) && r.inputs == [i] && r.decisions == [d] && r.boundary.heads == [i.head]
    requires i.releaseId == d.releaseId == r.releaseId && d.inputId == i.Id()
    requires AssociationsHold(r) && SupportsHold(r) && OutcomeFits(r, i, d.outcome)
    ensures Accepted(r)
  {
    assert i in r.inputs && d in r.decisions && i.head in r.boundary.heads;
    assert HasInput(r, i.head) && IsInput(r, d.inputId) && IsDecided(r, i.Id());
  }

  lemma TwoCompanySupportHolds(s: Support)
    requires s in TwoCompanyRelease().supports
    ensures s.Valid() && s.releaseId == TwoCompanyRelease().releaseId && Proves(TwoCompanyRelease(), s)
  {
    var r := TwoCompanyRelease();
    assert r.inputs[0] in r.inputs && r.associations[0] in r.associations;
    assert s.observation.binding in s.observation.record.snapshot.bindings;
    assert IsInput(r, s.association.inputId) && FromFrozenHead(r, s);
  }

  lemma TwoCompanyLinksHold()
    ensures AssociationsHold(TwoCompanyRelease()) && SupportsHold(TwoCompanyRelease())
    ensures TwoCompanyRelease().RecordsValid()
  {
    var r := TwoCompanyRelease();
    var a, s := r.associations[0], r.supports[0];
    assert r.inputs[0] in r.inputs && s in r.supports;
    assert OwnSubject(r, a) && IsSupported(r, a);
    forall s | s in r.supports
      ensures s.Valid() && s.releaseId == r.releaseId && Proves(r, s)
    {
      TwoCompanySupportHolds(s);
    }
    assert SupportKey(r.supports[0]).observation.binding != SupportKey(r.supports[1]).observation.binding;
  }

  lemma TwoCompaniesAreAccepted()
    ensures Accepted(TwoCompanyRelease()) && TwoCompanyRelease().RecordsValid()
  {
    var r := TwoCompanyRelease();
    TwoCompanyLinksHold();
    assert r.associations[0] in r.associations;
    OneHeadIsAccepted(r, r.inputs[0], r.decisions[0]);
  }

  lemma SampleLinksHold(associated: bool)
    ensures var r := SampleRelease(associated); AssociationsHold(r) && SupportsHold(r) && r.RecordsValid()
  {
    var r := SampleRelease(associated);
    assert r.inputs[0] in r.inputs;
    if associated {
      var a, s := r.associations[0], r.supports[0];
      assert a in r.associations && s in r.supports;
      assert OwnSubject(r, a) && IsSupported(r, a);
      assert "entity" in s.target.entry.company.targets;
      assert s.observation.binding in s.observation.record.snapshot.bindings;
      assert IsInput(r, a.inputId) && FromFrozenHead(r, s);
    }
  }

  lemma SampleIsAccepted(associated: bool)
    ensures Accepted(SampleRelease(associated)) && SampleRelease(associated).RecordsValid()
  {
    var r := SampleRelease(associated);
    SampleLinksHold(associated);
    assert associated ==> r.associations[0] in r.associations;
    OneHeadIsAccepted(r, r.inputs[0], r.decisions[0]);
  }
}
