/**
  The atomic queries of profile analysis, as functions on the nodes they touch: one
  Person, its requests, its immutable analysis history and its current pointers.
  A query's clock readings are parameters, so nothing relates the application clock
  to the database clock.
 */
module LeaseQueries {
  import opened Common

  type Token = string
  type RequestId = string

  datatype AnalysisType = Sales | ContactTracing

  datatype AttemptStatus = Succeeded | Failed | Obsolete

  datatype RequestStatus = Queued | Running | RequestSucceeded | RequestFailed | RequestObsolete

  /** `claimedBy` records which claim last set the request running; no query reads it. */
  datatype Request = Request(
    analysisType: AnalysisType,
    status: RequestStatus,
    inputRevision: int,
    claimedBy: Option<Token>)

  /** One ProfileAnalysis node. `writer` records the claim token its query ran with; no query reads it. */
  datatype Analysis = Analysis(
    analysisType: AnalysisType,
    status: AttemptStatus,
    inputRevision: int,
    attemptNumber: int,
    writer: Token)

  /** A CURRENT_PROFILE_ANALYSIS relationship; nodes of the history are named by their position. */
  datatype Pointer = Pointer(analysisType: AnalysisType, target: nat)

  datatype Person = Person(
    active: bool,
    claimToken: Option<Token>,
    claimUntil: Option<int>,
    inputRevision: Option<int>,
    lastAttemptAt: Option<int>,
    requests: map<RequestId, Request>,
    history: seq<Analysis>,
    current: set<Pointer>)

  /** What a worker asks to persist. */
  datatype Attempt = Attempt(
    analysisType: AnalysisType,
    status: AttemptStatus,
    inputRevision: int,
    attemptNumber: int,
    completedAt: int)

  /** The row the claim query returns. */
  datatype ClaimRow = ClaimRow(
    inputRevision: int,
    salesDue: bool,
    salesAttemptNumber: int,
    contactDue: bool,
    contactAttemptNumber: int)

  function Coalesce(value: Option<int>, default: int): int {
    if value.Some? then value.value else default
  }

  function Revision(p: Person): int {
    Coalesce(p.inputRevision, 0)
  }

  /** `person.analysis_claim_token = $claim_token`: an absent token equals nothing. */
  predicate Owns(p: Person, token: Token) {
    p.claimToken == Some(token)
  }

  predicate Unexpired(p: Person, dbNow: int) {
    p.claimUntil.Some? && p.claimUntil.value > dbNow
  }

  predicate ClaimOwned(p: Person, token: Token, inputRevision: int, dbNow: int) {
    Owns(p, token) && Unexpired(p, dbNow) && p.active && Revision(p) == inputRevision
  }

  predicate ActiveStatus(s: RequestStatus) {
    s == Queued || s == Running
  }

  predicate Terminal(s: RequestStatus) {
    !ActiveStatus(s)
  }

  predicate Matches(a: Analysis, analysisType: AnalysisType, inputRevision: int) {
    a.analysisType == analysisType && a.inputRevision == inputRevision
  }

  function CountRows(history: seq<Analysis>, analysisType: AnalysisType, inputRevision: int): nat {
    if history == [] then 0
    else
      CountRows(history[..|history| - 1], analysisType, inputRevision)
      + if Matches(history[|history| - 1], analysisType, inputRevision) then 1 else 0
  }

  // ----- The queries -----

  function Release(p: Person, token: Token): (Person, bool) {
    if Owns(p, token) then (p.(claimToken := None, claimUntil := None), true) else (p, false)
  }

  function Renew(p: Person, token: Token, inputRevision: int, until: int): (Person, bool) {
    if Owns(p, token) && p.active && Revision(p) == inputRevision
    then (p.(claimUntil := Some(until)), true)
    else (p, false)
  }

  function LastAttempt(p: Person, completedAt: int): Option<int> {
    if p.lastAttemptAt.None? || p.lastAttemptAt.value < completedAt then Some(completedAt) else p.lastAttemptAt
  }

  function Row(a: Attempt, status: AttemptStatus, token: Token): Analysis {
    Analysis(a.analysisType, status, a.inputRevision, a.attemptNumber, token)
  }

  /** Failed attempts: the row is kept as failed only under an owned claim. */
  function PersistAttempt(p: Person, a: Attempt, token: Token, dbNow: int): (Person, AttemptStatus)
    requires a.status != Succeeded
  {
    var actual := if ClaimOwned(p, token, a.inputRevision, dbNow) then a.status else Obsolete;
    (p.(lastAttemptAt := LastAttempt(p, a.completedAt), history := p.history + [Row(a, actual, token)]), actual)
  }

  function OtherTypes(current: set<Pointer>, analysisType: AnalysisType): set<Pointer> {
    set c | c in current && c.analysisType != analysisType
  }

  /** Succeeded attempts: under an owned claim every old pointer of the type is replaced by the new row. */
  function PersistAndPublish(p: Person, a: Attempt, token: Token, dbNow: int): (Person, AttemptStatus) {
    var publishable := ClaimOwned(p, token, a.inputRevision, dbNow);
    var actual := if publishable then Succeeded else Obsolete;
    var current :=
      if publishable then OtherTypes(p.current, a.analysisType) + {Pointer(a.analysisType, |p.history|)}
      else p.current;
    (p.(lastAttemptAt := LastAttempt(p, a.completedAt),
        history := p.history + [Row(a, actual, token)],
        current := current),
     actual)
  }

  /** `persist_attempt` picks the query by the attempt's status. */
  function Persist(p: Person, a: Attempt, token: Token, dbNow: int): (Person, AttemptStatus) {
    if a.status == Succeeded then PersistAndPublish(p, a, token, dbNow) else PersistAttempt(p, a, token, dbNow)
  }

  predicate Claimable(p: Person, id: RequestId, now: int) {
    p.active && id in p.requests && ActiveStatus(p.requests[id].status) && Coalesce(p.claimUntil, 0) <= now
  }

  predicate Duplicate(requests: map<RequestId, Request>, id: RequestId, other: RequestId) {
    && id in requests && other in requests && other != id
    && requests[other].analysisType == requests[id].analysisType
    && ActiveStatus(requests[other].status)
  }

  function RequestsAfterClaim(requests: map<RequestId, Request>, id: RequestId, token: Token, revision: int)
    : map<RequestId, Request>
    requires id in requests
  {
    map r | r in requests ::
      if r == id then requests[r].(status := Running, inputRevision := revision, claimedBy := Some(token))
      else if Duplicate(requests, id, r) then requests[r].(status := RequestObsolete)
      else requests[r]
  }

  /**
    The claim. A miss on an active Person that owns the request still writes the
    epoch into an absent claim_until: the lock is taken before the lease is read.
   */
  function Claim(p: Person, id: RequestId, token: Token, now: int, until: int): (Person, Option<ClaimRow>) {
    if !p.active || id !in p.requests then (p, None)
    else if !Claimable(p, id, now) then (p.(claimUntil := Some(Coalesce(p.claimUntil, 0))), None)
    else
      var t := p.requests[id].analysisType;
      var n := CountRows(p.history, t, Revision(p)) + 1;
      (p.(claimToken := Some(token),
          claimUntil := Some(until),
          requests := RequestsAfterClaim(p.requests, id, token, Revision(p))),
       Some(ClaimRow(Revision(p), t == Sales, if t == Sales then n else 1,
                     t == ContactTracing, if t == ContactTracing then n else 1)))
  }

  function Complete(p: Person, id: RequestId, token: Token, status: RequestStatus): Person {
    if id in p.requests && p.requests[id].status == Running && Owns(p, token)
    then p.(requests := p.requests[id := p.requests[id].(status := status)])
    else p
  }

  function ObsoleteInactive(p: Person, id: RequestId): Person {
    if id in p.requests && p.requests[id].status == Queued && !p.active
    then p.(requests := p.requests[id := p.requests[id].(status := RequestObsolete)])
    else p
  }

  predicate Waiting(p: Person, id: RequestId) {
    id in p.requests && p.requests[id].status == Queued && p.active
  }

  // ----- The claim row as the worker reads it -----

  datatype DueAnalysis = DueAnalysis(analysisType: AnalysisType, attemptNumber: int)

  function DueFromRow(row: ClaimRow): seq<DueAnalysis> {
    (if row.salesDue then [DueAnalysis(Sales, row.salesAttemptNumber)] else [])
    + (if row.contactDue then [DueAnalysis(ContactTracing, row.contactAttemptNumber)] else [])
  }

  /** A claim row always carries exactly one due analysis: the request's type, numbered past every row of it. */
  lemma ClaimHasOneDue(p: Person, id: RequestId, token: Token, now: int, until: int)
    requires Claimable(p, id, now)
    ensures var row := Claim(p, id, token, now, until).1;
            && row.Some?
            && DueFromRow(row.value) == [DueAnalysis(p.requests[id].analysisType,
                                          CountRows(p.history, p.requests[id].analysisType, Revision(p)) + 1)]
            && row.value.inputRevision == Revision(p)
  {
    var t := p.requests[id].analysisType;
    assert t == Sales || t == ContactTracing;
  }

  /**
    A caller whose token is not the Person's changes nothing but the last-attempt time, and adds
    obsolete rows only.
   */
  lemma FencedCalls(p: Person, token: Token)
    requires !Owns(p, token)
    ensures Release(p, token) == (p, false)
    ensures forall revision, until :: Renew(p, token, revision, until) == (p, false)
    ensures forall id, status :: Complete(p, id, token, status) == p
    ensures forall a, dbNow ::
              var (q, actual) := Persist(p, a, token, dbNow);
              && actual == Obsolete
              && q == p.(lastAttemptAt := q.lastAttemptAt, history := p.history + [Row(a, Obsolete, token)])
  {
  }

  // ----- What the queries do, said of the nodes -----

  /** The lease can be taken at the reading: it has no end, which counts as the epoch, or its end is reached. */
  predicate LeaseIsOpen(p: Person, now: int) {
    match p.claimUntil
    case None => 0 <= now
    case Some(end) => end <= now
  }

  /** A claim returns a row exactly for a queued or running request of an active Person whose lease is open. */
  lemma ClaimSucceedsExactly(p: Person, id: RequestId, token: Token, now: int, until: int)
    ensures Claim(p, id, token, now, until).1.Some? <==>
            && p.active && id in p.requests
            && (p.requests[id].status == Queued || p.requests[id].status == Running)
            && LeaseIsOpen(p, now)
  {
  }

  /** A claim with a row takes the lease, runs its request and retires the other active ones of its type. */
  lemma ClaimTakesTheLease(p: Person, id: RequestId, token: Token, now: int, until: int)
    requires Claim(p, id, token, now, until).1.Some?
    ensures var (q, row) := Claim(p, id, token, now, until);
            && q == p.(claimToken := Some(token), claimUntil := Some(until), requests := q.requests)
            && q.requests.Keys == p.requests.Keys
            && q.requests[id] == p.requests[id].(status := Running, claimedBy := Some(token),
                                                 inputRevision := row.value.inputRevision)
            && (p.inputRevision == Some(row.value.inputRevision)
                || (p.inputRevision.None? && row.value.inputRevision == 0))
            && (row.value.salesDue <==> p.requests[id].analysisType == Sales)
            && (row.value.contactDue <==> p.requests[id].analysisType == ContactTracing)
            && (!row.value.salesDue ==> row.value.salesAttemptNumber == 1)
            && (!row.value.contactDue ==> row.value.contactAttemptNumber == 1)
  {
  }

  lemma ClaimRetiresTheOthers(p: Person, id: RequestId, token: Token, now: int, until: int, other: RequestId)
    requires Claim(p, id, token, now, until).1.Some? && other in p.requests && other != id
    ensures var r, s := p.requests[other], Claim(p, id, token, now, until).0.requests[other];
            if r.analysisType == p.requests[id].analysisType && (r.status == Queued || r.status == Running) then
              s == r.(status := RequestObsolete)
            else s == r
  {
  }

  /** Where the history has rows of the type and revision, whatever their status. */
  ghost function RowsOf(history: seq<Analysis>, t: AnalysisType, revision: int): set<nat> {
    set n: nat | n < |history| && history[n].analysisType == t && history[n].inputRevision == revision
  }

  lemma RowsOfMore(history: seq<Analysis>, row: Analysis, t: AnalysisType, revision: int)
    ensures RowsOf(history + [row], t, revision) == RowsOf(history, t, revision)
            + if row.analysisType == t && row.inputRevision == revision then {|history|} else {}
  {
  }

  /** The rows a claim numbers its attempt past are those of its type and revision. */
  lemma {:induction false} RowsAreCounted(history: seq<Analysis>, t: AnalysisType, revision: int)
    ensures CountRows(history, t, revision) == |RowsOf(history, t, revision)|
  {
    if history == [] {
      assert RowsOf(history, t, revision) == {};
    } else {
      var last := |history| - 1;
      RowsAreCounted(history[..last], t, revision);
      RowsOfMore(history[..last], history[last], t, revision);
      assert history == history[..last] + [history[last]];
    }
  }

  /** Releasing ends the caller's own lease. */
  lemma OwnerReleases(p: Person, token: Token)
    requires p.claimToken == Some(token)
    ensures Release(p, token) == (p.(claimToken := None, claimUntil := None), true)
  {
  }

  /** Renewing moves the end of the caller's own lease exactly for an active Person at the revision claimed. */
  lemma OwnerRenewsExactly(p: Person, token: Token, revision: int, until: int)
    requires p.claimToken == Some(token)
    ensures var (q, renewed) := Renew(p, token, revision, until);
            && (renewed <==>
                  p.active && (p.inputRevision == Some(revision) || (p.inputRevision.None? && revision == 0)))
            && q == if renewed then p.(claimUntil := Some(until)) else p
  {
  }

  /** The current pointers after an attempt became the current analysis of its type. */
  ghost predicate Repointed(p: Person, q: Person, t: AnalysisType) {
    && Pointer(t, |p.history|) in q.current
    && (forall c :: c in q.current && c.analysisType == t ==> c.target == |p.history|)
    && (forall c: Pointer :: c.analysisType != t ==> (c in q.current <==> c in p.current))
  }

  /**
    An attempt keeps its status exactly under the caller's own unexpired lease, for an active Person
    at the attempt's revision, and is obsolete otherwise. Its row is appended either way; the pointer
    moves exactly for a kept success; the last attempt's time never goes back.
   */
  lemma PersistSaysExactly(p: Person, a: Attempt, token: Token, dbNow: int)
    ensures var (q, actual) := Persist(p, a, token, dbNow);
            && (actual == a.status || actual == Obsolete)
            && (a.status != Obsolete ==>
                  (actual == a.status <==>
                    && p.claimToken == Some(token) && p.claimUntil.Some? && p.claimUntil.value > dbNow && p.active
                    && (p.inputRevision == Some(a.inputRevision) || (p.inputRevision.None? && a.inputRevision == 0))))
            && q.history == p.history + [Analysis(a.analysisType, actual, a.inputRevision, a.attemptNumber, token)]
            && (if actual == Succeeded then Repointed(p, q, a.analysisType) else q.current == p.current)
            && q.lastAttemptAt.Some? && q.lastAttemptAt.value >= a.completedAt
            && (q.lastAttemptAt == Some(a.completedAt) || q.lastAttemptAt == p.lastAttemptAt)
            && (p.lastAttemptAt.Some? ==> q.lastAttemptAt.value >= p.lastAttemptAt.value)
            && q == p.(lastAttemptAt := q.lastAttemptAt, history := q.history, current := q.current)
  {
  }

  /** Completing sets the status of a running request under the caller's own lease, and nothing else. */
  lemma CompleteSaysExactly(p: Person, id: RequestId, token: Token, status: RequestStatus)
    ensures var q := Complete(p, id, token, status);
            if p.claimToken == Some(token) && id in p.requests && p.requests[id].status == Running then
              q == p.(requests := p.requests[id := p.requests[id].(status := status)])
            else q == p
  {
  }

  /** Only a queued request of a Person that is not active is retired without a claim. */
  lemma ObsoleteInactiveSaysExactly(p: Person, id: RequestId)
    ensures var q := ObsoleteInactive(p, id);
            if id in p.requests && p.requests[id].status == Queued && !p.active then
              q == p.(requests := p.requests[id := p.requests[id].(status := RequestObsolete)])
            else q == p
  {
  }

  // ----- What a refused claim tells and does -----

  /** A waiting request is kept from its claim by the lease alone. */
  lemma WaitingIsBlockedByTheLease(p: Person, id: RequestId, token: Token, now: int, until: int)
    requires Waiting(p, id)
    ensures Claim(p, id, token, now, until).1.None? <==> Coalesce(p.claimUntil, 0) > now
  {
  }

  /** A thread that gives up on a request that is not waiting leaves no queued request behind. */
  lemma NotWaitingEndsTheRequest(p: Person, id: RequestId)
    requires !Waiting(p, id)
    ensures var q := ObsoleteInactive(p, id); id in q.requests ==> q.requests[id].status != Queued
  {
  }

  /** A refused claim leaves the node as it is exactly unless it locks an active Person whose lease end is empty. */
  lemma RefusedClaimWritesExactly(p: Person, id: RequestId, token: Token, now: int, until: int)
    requires !Claimable(p, id, now)
    ensures Claim(p, id, token, now, until).0 == p <==> !p.active || id !in p.requests || p.claimUntil.Some?
  {
  }

  /**
    From the epoch on: a refused claim writes exactly for a terminal request of an active Person
    without a lease end.
   */
  lemma RefusedClaimWritesForTerminalRequests(p: Person, id: RequestId, token: Token, now: int, until: int)
    requires now >= 0 && Claim(p, id, token, now, until).1.None?
    ensures Claim(p, id, token, now, until).0 != p <==>
            p.active && id in p.requests && Terminal(p.requests[id].status) && p.claimUntil.None?
  {
  }

  /** A failed request of an idle Person: the claim is refused, and the epoch is written. */
  lemma RefusedClaimOfAFailedRequest()
    ensures var failed := Request(Sales, RequestFailed, 0, None);
            var p := Person(true, None, None, None, None, map["r" := failed], [], {});
            Claim(p, "r", "token", 1, 2) == (p.(claimUntil := Some(0)), None)
  {
  }
}
