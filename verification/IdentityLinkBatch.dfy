/** One append batch of identity-link revisions: the first row of each cause, one row a link, in key order. */
module IdentityLinkBatch {
  import opened Common
  import opened Sequences
  import opened Sorting
  import opened Text
  import opened IdentityLinkKey

  datatype LinkStatus = Resolved | Unresolved | PendingReview | Blocked | RejectedLink | Retired

  /** An instant as its text, and whether that text is ISO-8601. */
  datatype Timestamp = Timestamp(text: string, isIso: bool)

  datatype DesiredRevision = DesiredRevision(
    identity: SourceIdentity,
    status: LinkStatus,
    personId: Option<string>,
    resolutionKind: string,
    effectiveAt: Timestamp,
    causeKey: string,
    matchDecisionId: Option<string>,
    reviewCaseId: Option<string>)

  datatype BatchError = InvalidRevision | BlankProvenance | MultipleStatesForOneLink

  /** The policy each exportable entity type is published under. */
  function ExpectedPolicy(entityType: string): Option<string> {
    if entityType == "deal" then Some("crm_deal_identity_v2")
    else if entityType == "contact" then Some("crm_contact_identity_v1")
    else if entityType == "lead" then Some("crm_lead_identity_v1")
    else if entityType == "company" then Some("crm_company_reference_v1")
    else None
  }

  predicate ValidRevision(row: DesiredRevision) {
    && row.identity.system == "bitrix_chat"
    && ExpectedPolicy(row.identity.entityType) == Some(row.identity.policyVersion)
    && (if row.status == Resolved then row.personId.Some? && row.personId.value != "" else row.personId.None?)
    && row.effectiveAt.isIso
    && !IsBlank(row.causeKey)
  }

  predicate Appendable(row: DesiredRevision) {
    ValidRevision(row) && LinkKey(row.identity).Some?
  }

  /** Each exportable entity type is published under one policy. */
  predicate HasItsPolicy(id: SourceIdentity) {
    (id.entityType, id.policyVersion) in
      {("deal", "crm_deal_identity_v2"), ("contact", "crm_contact_identity_v1"), ("lead", "crm_lead_identity_v1"),
       ("company", "crm_company_reference_v1")}
  }

  /** A row is valid exactly under its policy, with a Person exactly if resolved, an ISO instant and a cause. */
  lemma RevisionIsValidExactly(row: DesiredRevision)
    ensures ValidRevision(row) <==>
            && row.identity.system == "bitrix_chat" && HasItsPolicy(row.identity)
            && (row.status == Resolved <==> row.personId.Some?) && row.personId != Some("")
            && row.effectiveAt.isIso && !AllSpace(row.causeKey)
  {
    BlankIsSpace(row.causeKey);
  }

  lemma AppendableExactly(row: DesiredRevision)
    ensures Appendable(row) <==>
            && row.identity.system == "bitrix_chat" && HasItsPolicy(row.identity)
            && (row.status == Resolved <==> row.personId.Some?) && row.personId != Some("")
            && row.effectiveAt.isIso && !AllSpace(row.causeKey)
            && !AllSpace(row.identity.instance) && !AllSpace(row.identity.entityId)
  {
    RevisionIsValidExactly(row);
    KeyExistsExactly(row.identity);
    assert !IsSpace("bitrix_chat"[0]);
    if HasItsPolicy(row.identity) {
      assert !IsSpace(row.identity.entityType[0]) && !IsSpace(row.identity.policyVersion[0]);
    }
  }

  type BatchRow = (string, DesiredRevision)

  function KeyOf(row: DesiredRevision): string {
    if LinkKey(row.identity).Some? then LinkKey(row.identity).value else ""
  }

  function Keyed(row: DesiredRevision): BatchRow {
    (KeyOf(row), row)
  }

  predicate KeyLe(a: BatchRow, b: BatchRow) {
    StringLe(a.0, b.0)
  }

  // ----- The specification -----

  predicate HasCause(rows: seq<DesiredRevision>, cause: string) {
    exists r :: r in rows && r.causeKey == cause
  }

  /** The first row of every cause, in input order. */
  function Firsts(rows: seq<DesiredRevision>): seq<DesiredRevision> {
    if rows == [] then []
    else
      var n := |rows| - 1;
      Firsts(rows[..n]) + if HasCause(rows[..n], rows[n].causeKey) then [] else [rows[n]]
  }

  ghost predicate AllAppendable(rows: seq<DesiredRevision>) {
    forall r :: r in rows ==> Appendable(r)
  }

  /** No two of the rows are states of one link. */
  ghost predicate OneStatePerLink(rows: seq<DesiredRevision>) {
    forall i, j :: 0 <= i < j < |rows| ==> KeyOf(rows[i]) != KeyOf(rows[j])
  }

  function Batch(rows: seq<DesiredRevision>): seq<BatchRow> {
    Sort(KeyLe, Map(Keyed, Firsts(rows)))
  }

  // ----- The loop -----

  ghost predicate HasKey(rows: seq<DesiredRevision>, key: string) {
    exists i :: 0 <= i < |rows| && KeyOf(rows[i]) == key
  }

  ghost predicate Holds(unique: map<string, DesiredRevision>, items: seq<BatchRow>, firsts: seq<DesiredRevision>) {
    && items == Map(Keyed, firsts)
    && (forall k :: k in unique <==> HasKey(firsts, k))
    && OneStatePerLink(firsts)
  }

  lemma HoldsMore(unique: map<string, DesiredRevision>, items: seq<BatchRow>, firsts: seq<DesiredRevision>,
                  row: DesiredRevision)
    requires Holds(unique, items, firsts)
    ensures KeyOf(row) !in unique ==> Holds(unique[KeyOf(row) := row], items + [Keyed(row)], firsts + [row])
    ensures KeyOf(row) in unique ==> !OneStatePerLink(firsts + [row])
  {
    var more := firsts + [row];
    if KeyOf(row) in unique {
      var i :| 0 <= i < |firsts| && KeyOf(firsts[i]) == KeyOf(row);
      assert KeyOf(more[i]) == KeyOf(more[|firsts|]);
    } else {
      forall k
        ensures k in unique[KeyOf(row) := row] <==> HasKey(more, k)
      {
        assert more[|firsts|] == row;
        if HasKey(firsts, k) {
          var i :| 0 <= i < |firsts| && KeyOf(firsts[i]) == k;
          assert more[i] == firsts[i];
        }
        if HasKey(more, k) && k != KeyOf(row) {
          var i :| 0 <= i < |more| && KeyOf(more[i]) == k;
          assert firsts[i] == more[i];
        }
      }
    }
  }

  lemma {:induction false} FirstsArePrefix(rows: seq<DesiredRevision>, n: nat)
    requires n <= |rows|
    ensures Firsts(rows[..n]) <= Firsts(rows)
    decreases |rows|
  {
    if n < |rows| {
      FirstsArePrefix(rows[..|rows| - 1], n);
      assert rows[..|rows| - 1][..n] == rows[..n];
    } else {
      assert rows[..n] == rows;
    }
  }

  lemma FewerStates(some: seq<DesiredRevision>, all: seq<DesiredRevision>)
    requires some <= all && !OneStatePerLink(some)
    ensures !OneStatePerLink(all)
  {
    var i, j :| 0 <= i < j < |some| && KeyOf(some[i]) == KeyOf(some[j]);
    assert KeyOf(all[i]) == KeyOf(all[j]);
  }

  lemma CausesMore(rows: seq<DesiredRevision>, row: DesiredRevision)
    ensures forall c :: HasCause(rows + [row], c) <==> HasCause(rows, c) || c == row.causeKey
  {
    forall c
      ensures HasCause(rows + [row], c) <==> HasCause(rows, c) || c == row.causeKey
    {
      assert row in rows + [row];
      if HasCause(rows, c) {
        var r :| r in rows && r.causeKey == c;
        assert r in rows + [row];
      }
    }
  }

  lemma FirstsMore(rows: seq<DesiredRevision>, row: DesiredRevision)
    ensures Firsts(rows + [row]) == Firsts(rows) + if HasCause(rows, row.causeKey) then [] else [row]
  {
    assert (rows + [row])[..|rows|] == rows;
  }

  /** The loop's variables after the rows read so far. */
  ghost predicate BatchSoFar(done: seq<DesiredRevision>, unique: map<string, DesiredRevision>, items: seq<BatchRow>,
                             causes: set<string>)
  {
    && (forall c :: c in causes <==> HasCause(done, c))
    && Holds(unique, items, Firsts(done))
  }

  lemma SkippedRow(done: seq<DesiredRevision>, unique: map<string, DesiredRevision>, items: seq<BatchRow>,
                   causes: set<string>, row: DesiredRevision)
    requires BatchSoFar(done, unique, items, causes) && row.causeKey in causes
    ensures BatchSoFar(done + [row], unique, items, causes)
  {
    CausesMore(done, row);
    FirstsMore(done, row);
    assert Firsts(done) + [] == Firsts(done);
  }

  lemma FirstRow(done: seq<DesiredRevision>, unique: map<string, DesiredRevision>, items: seq<BatchRow>,
                 causes: set<string>, row: DesiredRevision)
    requires BatchSoFar(done, unique, items, causes) && row.causeKey !in causes
    ensures KeyOf(row) in unique ==> !OneStatePerLink(Firsts(done + [row]))
    ensures KeyOf(row) !in unique ==>
              BatchSoFar(done + [row], unique[KeyOf(row) := row], items + [Keyed(row)], causes + {row.causeKey})
  {
    CausesMore(done, row);
    FirstsMore(done, row);
    HoldsMore(unique, items, Firsts(done), row);
  }

  /** Validation, then the key of the provenance. */
  method CheckRevision(row: DesiredRevision) returns (r: Result<string, BatchError>)
    ensures r.Ok? <==> Appendable(row)
    ensures r.Ok? ==> r.value == KeyOf(row)
    ensures r == Err(InvalidRevision) <==> !ValidRevision(row)
    ensures r != Err(MultipleStatesForOneLink)
  {
    if !ValidRevision(row) {
      return Err(InvalidRevision);
    }
    var linkKey := LinkKey(row.identity);
    return if linkKey.None? then Err(BlankProvenance) else Ok(linkKey.value);
  }

  /** The first rows have passed validation. */
  ghost predicate Checked(rows: seq<DesiredRevision>, n: nat)
    requires n <= |rows|
  {
    n == 0 || (Checked(rows, n - 1) && Appendable(rows[n - 1]))
  }

  lemma {:induction false} AllChecked(rows: seq<DesiredRevision>, n: nat)
    requires n <= |rows| && Checked(rows, n)
    ensures AllAppendable(rows[..n])
    ensures n == |rows| ==> AllAppendable(rows)
  {
    if n > 0 {
      AllChecked(rows, n - 1);
      assert rows[..n] == rows[..n - 1] + [rows[n - 1]];
    }
    assert n == |rows| ==> rows[..n] == rows;
  }

  lemma UncheckedRow(rows: seq<DesiredRevision>, n: nat)
    requires n < |rows| && !Appendable(rows[n])
    ensures !AllAppendable(rows)
  {
    assert rows[n] in rows;
  }

  lemma ClashStays(rows: seq<DesiredRevision>, n: nat)
    requires n <= |rows| && !OneStatePerLink(Firsts(rows[..n]))
    ensures !OneStatePerLink(Firsts(rows))
  {
    FirstsArePrefix(rows, n);
    FewerStates(Firsts(rows[..n]), Firsts(rows));
  }

  method BuildBatch(rows: seq<DesiredRevision>) returns (r: Result<seq<BatchRow>, BatchError>)
    ensures r.Ok? <==> AllAppendable(rows) && OneStatePerLink(Firsts(rows))
    ensures r.Ok? ==> r.value == Batch(rows)
    ensures r == Err(MultipleStatesForOneLink) ==> !OneStatePerLink(Firsts(rows))
    ensures r.Err? && r.error != MultipleStatesForOneLink ==> !AllAppendable(rows)
  {
    var unique: map<string, DesiredRevision> := map[];
    var items: seq<BatchRow> := [];
    var causes: set<string> := {};
    for n := 0 to |rows|
      invariant Checked(rows, n)
      invariant BatchSoFar(rows[..n], unique, items, causes)
    {
      var desired := rows[n];
      assert rows[..n + 1] == rows[..n] + [desired];
      var linkKey := CheckRevision(desired);
      if linkKey.Err? {
        UncheckedRow(rows, n);
        return Err(linkKey.error);
      }
      if desired.causeKey in causes {
        SkippedRow(rows[..n], unique, items, causes, desired);
        continue;
      }
      FirstRow(rows[..n], unique, items, causes, desired);
      if linkKey.value in unique {
        ClashStays(rows, n + 1);
        return Err(MultipleStatesForOneLink);
      }
      causes := causes + {desired.causeKey};
      unique := unique[linkKey.value := desired];
      items := items + [(linkKey.value, desired)];
    }
    assert rows[..|rows|] == rows;
    AllChecked(rows, |rows|);
    return Ok(Sort(KeyLe, items));
  }

  // ----- What a batch is -----

  lemma {:induction false} FirstsCoverCauses(rows: seq<DesiredRevision>)
    ensures forall r :: r in Firsts(rows) ==> r in rows
    ensures forall r :: r in rows ==> HasCause(Firsts(rows), r.causeKey)
    ensures forall i, j :: 0 <= i < j < |Firsts(rows)| ==> Firsts(rows)[i].causeKey != Firsts(rows)[j].causeKey
  {
    if rows != [] {
      var n := |rows| - 1;
      var before, firsts := Firsts(rows[..n]), Firsts(rows);
      FirstsCoverCauses(rows[..n]);
      forall r | r in rows
        ensures HasCause(firsts, r.causeKey)
      {
        if r in rows[..n] {
          var f :| f in before && f.causeKey == r.causeKey;
          assert f in firsts;
        } else if HasCause(rows[..n], rows[n].causeKey) {
          var q :| q in rows[..n] && q.causeKey == rows[n].causeKey;
          var f :| f in before && f.causeKey == q.causeKey;
          assert f in firsts;
        } else {
          assert rows[n] in firsts;
        }
      }
      forall i, j | 0 <= i < j < |firsts|
        ensures firsts[i].causeKey != firsts[j].causeKey
      {
        if j == |before| {
          assert firsts[i] in before && firsts[i] in rows[..n];
        }
      }
    }
  }

  ghost predicate StrictlyByKey(batch: seq<BatchRow>) {
    forall i, j :: 0 <= i < j < |batch| ==> StringLe(batch[i].0, batch[j].0) && batch[i].0 != batch[j].0
  }

  ghost predicate OneRowPerCause(batch: seq<BatchRow>) {
    forall i, j :: 0 <= i < j < |batch| ==> batch[i].1.causeKey != batch[j].1.causeKey
  }

  ghost predicate Covers(batch: seq<BatchRow>, rows: seq<DesiredRevision>) {
    && (forall b :: b in batch ==> b == Keyed(b.1) && b.1 in rows)
    && (forall r :: r in rows ==> HasBatchCause(batch, r.causeKey))
  }

  ghost predicate HasBatchCause(batch: seq<BatchRow>, cause: string) {
    exists b :: b in batch && b.1.causeKey == cause
  }

  function RowKey(b: BatchRow): string {
    b.0
  }

  function RowCause(b: BatchRow): string {
    b.1.causeKey
  }

  lemma BatchIsStrict(rows: seq<DesiredRevision>)
    requires OneStatePerLink(Firsts(rows))
    ensures StrictlyByKey(Batch(rows)) && OneRowPerCause(Batch(rows))
  {
    var keyed := Map(Keyed, Firsts(rows));
    StringOrder();
    SortSorted(KeyLe, keyed);
    SortPermutes(KeyLe, keyed);
    FirstsCoverCauses(rows);
    Renamed(keyed, Batch(rows), RowKey);
    Renamed(keyed, Batch(rows), RowCause);
    forall i, j | 0 <= i < j < |Batch(rows)|
      ensures Batch(rows)[i].1.causeKey != Batch(rows)[j].1.causeKey
      ensures Batch(rows)[i].0 != Batch(rows)[j].0
    {
      assert RowKey(Batch(rows)[i]) != RowKey(Batch(rows)[j]);
      assert RowCause(Batch(rows)[i]) != RowCause(Batch(rows)[j]);
    }
  }

  lemma BatchRowIsInput(rows: seq<DesiredRevision>, b: BatchRow)
    requires b in Batch(rows)
    ensures b == Keyed(b.1) && b.1 in rows
  {
    var firsts, keyed := Firsts(rows), Map(Keyed, Firsts(rows));
    SortPermutes(KeyLe, keyed);
    FirstsCoverCauses(rows);
    assert b in keyed;
    var i :| 0 <= i < |keyed| && keyed[i] == b;
    assert firsts[i] in firsts;
  }

  lemma CauseIsInBatch(rows: seq<DesiredRevision>, r: DesiredRevision)
    requires r in rows
    ensures HasBatchCause(Batch(rows), r.causeKey)
  {
    var firsts, keyed := Firsts(rows), Map(Keyed, Firsts(rows));
    FirstsCoverCauses(rows);
    assert HasCause(firsts, r.causeKey);
    var f :| f in firsts && f.causeKey == r.causeKey;
    var i :| 0 <= i < |firsts| && firsts[i] == f;
    assert keyed[i] in keyed;
    SortPermutes(KeyLe, keyed);
    assert keyed[i] in Batch(rows);
  }

  lemma BatchCovers(rows: seq<DesiredRevision>)
    ensures Covers(Batch(rows), rows)
  {
    forall b | b in Batch(rows)
      ensures b == Keyed(b.1) && b.1 in rows
    {
      BatchRowIsInput(rows, b);
    }
    forall r | r in rows
      ensures HasBatchCause(Batch(rows), r.causeKey)
    {
      CauseIsInBatch(rows, r);
    }
  }

  /** Where the loop does not fail: strictly ascending keys, one row a cause, every cause of the input. */
  lemma BatchIsCanonical(rows: seq<DesiredRevision>)
    requires OneStatePerLink(Firsts(rows))
    ensures StrictlyByKey(Batch(rows)) && OneRowPerCause(Batch(rows)) && Covers(Batch(rows), rows)
  {
    BatchIsStrict(rows);
    BatchCovers(rows);
  }

  /** Permuting rows keeps their names distinct. */
  lemma Renamed<A, K(!new)>(s: seq<A>, t: seq<A>, name: A -> K)
    requires multiset(s) == multiset(t)
    requires forall i, j :: 0 <= i < j < |s| ==> name(s[i]) != name(s[j])
    ensures forall i, j :: 0 <= i < j < |t| ==> name(t[i]) != name(t[j])
  {
    MapPermutes(name, s, t);
    DistinctCounts(Map(name, s));
    DistinctCounts(Map(name, t));
  }

  /** An appendable row whose cause an earlier row already carries can be dropped or repeated without effect. */
  lemma RepeatsChangeNothing(a: seq<DesiredRevision>, row: DesiredRevision, b: seq<DesiredRevision>)
    requires HasCause(a, row.causeKey)
    ensures Batch(a + [row] + b) == Batch(a + b)
    ensures OneStatePerLink(Firsts(a + [row] + b)) == OneStatePerLink(Firsts(a + b))
    ensures AllAppendable(a + [row] + b) <==> Appendable(row) && AllAppendable(a + b)
    ensures row in a ==> (AllAppendable(a + [row] + b) <==> AllAppendable(a + b))
  {
    RepeatedRowIsSkipped(a, row, b);
    assert forall r :: r in a + [row] + b <==> r in a + b || r == row;
  }

  lemma {:induction false} RepeatedRowIsSkipped(a: seq<DesiredRevision>, row: DesiredRevision, b: seq<DesiredRevision>)
    requires HasCause(a, row.causeKey)
    ensures Firsts(a + [row] + b) == Firsts(a + b)
  {
    if b == [] {
      assert a + [row] + b == a + [row] && a + b == a;
      FirstsMore(a, row);
    } else {
      var before, last := b[..|b| - 1], b[|b| - 1];
      RepeatedRowIsSkipped(a, row, before);
      FirstsMore(a + [row] + before, last);
      FirstsMore(a + before, last);
      SameCauses(a, row, before, last.causeKey);
      assert a + [row] + b == (a + [row] + before) + [last];
      assert a + b == (a + before) + [last];
    }
  }

  lemma SameCauses(a: seq<DesiredRevision>, row: DesiredRevision, b: seq<DesiredRevision>, cause: string)
    requires HasCause(a, row.causeKey)
    ensures HasCause(a + [row] + b, cause) <==> HasCause(a + b, cause)
  {
    if HasCause(a + [row] + b, cause) {
      var r :| r in a + [row] + b && r.causeKey == cause;
      if r == row {
        var q :| q in a && q.causeKey == row.causeKey;
        assert q in a + b;
      } else {
        assert r in a + b;
      }
    }
    if HasCause(a + b, cause) {
      var r :| r in a + b && r.causeKey == cause;
      assert r in a + [row] + b;
    }
  }

  /** Two appendable rows share a link key exactly when they are states of one source identity. */
  lemma OneLinkIsOneIdentity(a: DesiredRevision, b: DesiredRevision)
    requires Appendable(a) && Appendable(b)
    ensures KeyOf(a) == KeyOf(b) <==> a.identity == b.identity
  {
    if KeyOf(a) == KeyOf(b) {
      KeyIsInjective(a.identity, b.identity);
    }
  }

  // ----- The callers' cause keys -----

  /** A head as the store holds it: its identity and the evidence it points to. */
  datatype LinkHead = LinkHead(identity: SourceIdentity, matchDecisionId: Option<string>, reviewCaseId: Option<string>)

  ghost predicate DistinctHeads(heads: seq<LinkHead>) {
    forall i, j :: 0 <= i < j < |heads| ==> heads[i].identity != heads[j].identity
  }

  /** A merge or an unmerge names its causes after the link keys. */
  function MergeRow(merge: bool, survivor: Option<string>, prefix: string, at: Timestamp, head: LinkHead)
    : DesiredRevision
  {
    DesiredRevision(head.identity, if merge then Resolved else PendingReview, if merge then survivor else None,
                    if merge then "person_merge" else "person_unmerge", at,
                    prefix + ":" + (if LinkKey(head.identity).Some? then LinkKey(head.identity).value else ""),
                    head.matchDecisionId, head.reviewCaseId)
  }

  /** A retirement names its causes after entity type and entity identity only. */
  function RetirementRow(prefix: string, at: Timestamp, head: LinkHead): DesiredRevision {
    DesiredRevision(head.identity, Retired, None, "person_retirement", at,
                    prefix + ":" + head.identity.entityType + ":" + head.identity.entityId,
                    head.matchDecisionId, head.reviewCaseId)
  }

  /** The head can be published: it is of this system, under its policy, with an instance and an identity. */
  predicate IsExported(id: SourceIdentity) {
    id.system == "bitrix_chat" && HasItsPolicy(id) && !AllSpace(id.instance) && !AllSpace(id.entityId)
  }

  /** A row keeps its head's identity and evidence, and carries the instant of the change. */
  predicate KeepsHead(row: DesiredRevision, head: LinkHead, at: Timestamp) {
    && row.identity == head.identity && row.effectiveAt == at
    && row.matchDecisionId == head.matchDecisionId && row.reviewCaseId == head.reviewCaseId
  }

  lemma ColonIsNoSpace(a: string, b: string)
    ensures !AllSpace(a + ":" + b)
  {
    assert (a + ":" + b)[|a|] == ':';
  }

  /**
    A merge resolves the head to the survivor, an unmerge leaves it pending review without a Person;
    the row of an exported head can be appended exactly at an ISO instant and, merging, with a survivor.
   */
  lemma MergeRowSays(merge: bool, survivor: Option<string>, prefix: string, at: Timestamp, head: LinkHead)
    requires IsExported(head.identity)
    ensures var row := MergeRow(merge, survivor, prefix, at, head);
            && KeepsHead(row, head, at)
            && (if merge then row.status == Resolved && row.personId == survivor && row.resolutionKind == "person_merge"
                else row.status == PendingReview && row.personId == None && row.resolutionKind == "person_unmerge")
            && LinkKey(head.identity).Some? && row.causeKey == prefix + ":" + LinkKey(head.identity).value
            && (Appendable(row) <==> at.isIso && (merge ==> survivor.Some? && survivor != Some("")))
  {
    var row := MergeRow(merge, survivor, prefix, at, head);
    KeyExistsExactly(head.identity);
    assert !IsSpace("bitrix_chat"[0]);
    assert !IsSpace(head.identity.entityType[0]) && !IsSpace(head.identity.policyVersion[0]);
    ColonIsNoSpace(prefix, LinkKey(head.identity).value);
    AppendableExactly(row);
  }

  /** A retirement retires the head without a Person; its row can be appended exactly at an ISO instant. */
  lemma RetirementRowSays(prefix: string, at: Timestamp, head: LinkHead)
    requires IsExported(head.identity)
    ensures var row := RetirementRow(prefix, at, head);
            && KeepsHead(row, head, at)
            && row.status == Retired && row.personId == None && row.resolutionKind == "person_retirement"
            && row.causeKey == prefix + ":" + head.identity.entityType + ":" + head.identity.entityId
            && (Appendable(row) <==> at.isIso)
  {
    var row := RetirementRow(prefix, at, head);
    assert row.causeKey == prefix + ":" + (head.identity.entityType + ":" + head.identity.entityId);
    ColonIsNoSpace(prefix, head.identity.entityType + ":" + head.identity.entityId);
    AppendableExactly(row);
  }

  ghost predicate DistinctCauses(rows: seq<DesiredRevision>) {
    forall i, j :: 0 <= i < j < |rows| ==> rows[i].causeKey != rows[j].causeKey
  }

  lemma {:induction false} DistinctCausesAreFirst(rows: seq<DesiredRevision>)
    requires DistinctCauses(rows)
    ensures Firsts(rows) == rows
  {
    if rows != [] {
      var n := |rows| - 1;
      DistinctCausesAreFirst(rows[..n]);
      assert !HasCause(rows[..n], rows[n].causeKey);
      assert rows == rows[..n] + [rows[n]];
    }
  }

  lemma DistinctCausesAreAllFirst(rows: seq<DesiredRevision>)
    ensures Firsts(rows) == rows <==> DistinctCauses(rows)
  {
    if DistinctCauses(rows) {
      DistinctCausesAreFirst(rows);
    }
    if Firsts(rows) == rows {
      FirstsCoverCauses(rows);
    }
  }

  /** A merge keeps every affected head and never clashes. */
  lemma MergeKeepsEveryHead(merge: bool, survivor: Option<string>, prefix: string, at: Timestamp, heads: seq<LinkHead>)
    requires DistinctHeads(heads) && forall h :: h in heads ==> LinkKey(h.identity).Some?
    ensures var rows := Map((h: LinkHead) => MergeRow(merge, survivor, prefix, at, h), heads);
            Firsts(rows) == rows && OneStatePerLink(rows)
  {
    var rows := Map((h: LinkHead) => MergeRow(merge, survivor, prefix, at, h), heads);
    forall i, j | 0 <= i < j < |rows|
      ensures rows[i].causeKey != rows[j].causeKey && KeyOf(rows[i]) != KeyOf(rows[j])
    {
      assert heads[i] in heads && heads[j] in heads;
      if KeyOf(rows[i]) == KeyOf(rows[j]) {
        KeyIsInjective(heads[i].identity, heads[j].identity);
      }
      SameAfterPrefix(prefix + ":", KeyOf(rows[i]), KeyOf(rows[j]));
    }
    DistinctCausesAreAllFirst(rows);
  }

  lemma SameAfterPrefix(prefix: string, a: string, b: string)
    ensures prefix + a == prefix + b <==> a == b
  {
    assert (prefix + a)[|prefix|..] == a && (prefix + b)[|prefix|..] == b;
  }

  predicate Exportable(entityType: string) {
    ExpectedPolicy(entityType).Some?
  }

  lemma TypeAndIdAreRead(a: SourceIdentity, b: SourceIdentity)
    requires Exportable(a.entityType) && Exportable(b.entityType)
    ensures a.entityType + ":" + a.entityId == b.entityType + ":" + b.entityId
        <==> a.entityType == b.entityType && a.entityId == b.entityId
  {
    var s, t := a.entityType + ":" + a.entityId, b.entityType + ":" + b.entityId;
    if s == t {
      NoColon(a.entityType);
      NoColon(b.entityType);
      var n, m := |a.entityType|, |b.entityType|;
      assert s[n] == ':' && t[m] == ':';
      assert n == m;
      assert s[..n] == a.entityType && t[..m] == b.entityType;
      assert s[n + 1..] == a.entityId && t[m + 1..] == b.entityId;
    }
  }

  lemma NoColon(entityType: string)
    requires Exportable(entityType)
    ensures forall i :: 0 <= i < |entityType| ==> entityType[i] != ':'
  {
  }

  /**
    A retirement appends a revision for every head exactly when no two heads share entity type and
    entity identity: heads of two source instances that do are given one cause, and one is dropped.
   */
  lemma RetirementKeepsEveryHeadExactly(prefix: string, at: Timestamp, heads: seq<LinkHead>)
    requires forall h :: h in heads ==> Exportable(h.identity.entityType)
    ensures var rows := Map((h: LinkHead) => RetirementRow(prefix, at, h), heads);
            Firsts(rows) == rows <==>
            forall i, j :: 0 <= i < j < |heads| ==>
              (heads[i].identity.entityType, heads[i].identity.entityId) !=
              (heads[j].identity.entityType, heads[j].identity.entityId)
  {
    var rows := Map((h: LinkHead) => RetirementRow(prefix, at, h), heads);
    DistinctCausesAreAllFirst(rows);
    forall i, j | 0 <= i < j < |heads|
      ensures rows[i].causeKey == rows[j].causeKey <==>
              (heads[i].identity.entityType, heads[i].identity.entityId) ==
              (heads[j].identity.entityType, heads[j].identity.entityId)
    {
      assert heads[i] in heads && heads[j] in heads;
      RetirementCause(prefix, at, heads[i], heads[j]);
    }
  }

  lemma RetirementCause(prefix: string, at: Timestamp, g: LinkHead, h: LinkHead)
    requires Exportable(g.identity.entityType) && Exportable(h.identity.entityType)
    ensures RetirementRow(prefix, at, g).causeKey == RetirementRow(prefix, at, h).causeKey <==>
            (g.identity.entityType, g.identity.entityId) == (h.identity.entityType, h.identity.entityId)
  {
    var s, t := g.identity.entityType + ":" + g.identity.entityId, h.identity.entityType + ":" + h.identity.entityId;
    assert RetirementRow(prefix, at, g).causeKey == prefix + ":" + s;
    assert RetirementRow(prefix, at, h).causeKey == prefix + ":" + t;
    SameAfterPrefix(prefix + ":", s, t);
    TypeAndIdAreRead(g.identity, h.identity);
  }

  /** Two contacts that differ only in source instance: both rows are valid, their links differ, one is kept. */
  lemma RetirementDropsATwin()
    ensures var at := Timestamp("2024-01-01T00:00:00Z", true);
            var one := SourceIdentity("bitrix_chat", "a", "contact", "7", "crm_contact_identity_v1");
            var first := RetirementRow("c", at, LinkHead(one, None, None));
            var second := RetirementRow("c", at, LinkHead(one.(instance := "b"), None, None));
            ValidRevision(first) && ValidRevision(second) && first.identity != second.identity
            && Firsts([first, second]) == [first]
  {
    var at := Timestamp("2024-01-01T00:00:00Z", true);
    var one := SourceIdentity("bitrix_chat", "a", "contact", "7", "crm_contact_identity_v1");
    var first := RetirementRow("c", at, LinkHead(one, None, None));
    var second := RetirementRow("c", at, LinkHead(one.(instance := "b"), None, None));
    assert one.instance[0] != second.identity.instance[0];
    CauseIsNotBlank(first.causeKey);
    SecondOfACause(first, second);
  }

  lemma CauseIsNotBlank(cause: string)
    requires cause != "" && !IsSpace(cause[0])
    ensures !IsBlank(cause)
  {
    StripRightKeepsFirst(cause);
  }

  lemma {:induction false} StripRightKeepsFirst(s: string)
    requires s != "" && !IsSpace(s[0])
    ensures StripRight(s) != ""
  {
    if IsSpace(s[|s| - 1]) {
      StripRightKeepsFirst(s[..|s| - 1]);
    }
  }

  lemma KnownCauseAddsNothing(rows: seq<DesiredRevision>, row: DesiredRevision)
    requires row.causeKey in set r | r in rows :: r.causeKey
    ensures Firsts(rows + [row]) == Firsts(rows)
  {
    FirstsMore(rows, row);
  }

  lemma SecondOfACause(first: DesiredRevision, second: DesiredRevision)
    requires first.causeKey == second.causeKey
    ensures Firsts([first, second]) == [first]
  {
    var one := [first];
    assert first in one;
    DistinctCausesAreFirst(one);
    KnownCauseAddsNothing(one, second);
    assert one + [second] == [first, second];
  }
}
