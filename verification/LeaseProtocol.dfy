/**
  Any number of API threads running one request each against one Person, as a step
  machine. A step is one repository call or one local decision of one thread; threads,
  revision bumps, status changes, new and requeued requests and lost threads interleave
  freely. Every call may also raise, with or without its transaction having committed.
 */
module LeaseProtocol {
  import opened Common
  import opened LeaseQueries

  type WorkerId = nat

  datatype Counts = Counts(
    attempted: nat,
    succeeded: nat,
    failed: nat,
    obsolete: nat,
    unexpected: nat,
    released: nat)
  {
    function Record(status: AttemptStatus): Counts {
      match status
      case Succeeded => this.(succeeded := succeeded + 1)
      case Failed => this.(failed := failed + 1)
      case Obsolete => this.(obsolete := obsolete + 1)
    }

    function Attempted(): Counts {
      this.(attempted := attempted + 1)
    }

    function Unexpected(): Counts {
      this.(unexpected := unexpected + 1)
    }
  }

  const NO_COUNTS: Counts := Counts(0, 0, 0, 0, 0, 0)

  /** The next thing a thread does. */
  datatype Pc =
    | Claiming
    | CheckWaiting
    | ObsoleteCall
    | FirstRenew
    | FetchSnapshot
    | InvalidRenew
    | BuildFailure
    | Generate
    | SecondRenew(attempt: Attempt)
    | PersistCall(attempt: Attempt)
    | Summarize
    | CompleteCall(status: RequestStatus)
    | ReleaseCall
    | FailCall
    | FinalRelease
    | Returned
    | Raised
    | Lost

  /** What the claim told the thread. */
  datatype Claimed = Claimed(inputRevision: int, due: DueAnalysis)

  /** `unsettled` records that the thread's claim or its last release raised, so it may have left the lease behind. */
  datatype Worker = Worker(
    token: Token,
    requestId: RequestId,
    pc: Pc,
    claimed: Option<Claimed>,
    counts: Counts,
    unsettled: bool)

  /** How a repository call ends for its caller. */
  datatype Outcome = Answered | RaisedUncommitted | RaisedCommitted

  datatype Snapshot = Fetched | InvalidSnapshot | FetchRaised

  datatype Generation = GeneratedText | GeneratedFailure | GenerationRaised

  /** Everything a step does not control: clocks, the provider, the snapshot, call failures. */
  datatype Input = Input(
    now: int,
    until: int,
    dbNow: int,
    completedAt: int,
    leaseIsPositive: bool,
    outcome: Outcome,
    snapshot: Snapshot,
    generation: Generation)

  datatype Event =
    | Start(worker: WorkerId, id: RequestId, token: Token)
    | Act(worker: WorkerId, input: Input)
    | Lose(worker: WorkerId)
    | SetRevision(revision: int)
    | SetActive(active: bool)
    | CreateRequest(id: RequestId, analysisType: AnalysisType)
    | Requeue(id: RequestId)

  datatype World = World(person: Person, workers: map<WorkerId, Worker>, issued: set<Token>)

  // ----- One call, with its possible failures -----

  function Effect(p: Person, q: Person, outcome: Outcome): Person {
    if outcome == RaisedUncommitted then p else q
  }

  function AttemptFor(c: Claimed, status: AttemptStatus, completedAt: int): Attempt {
    Attempt(c.due.analysisType, status, c.inputRevision, c.due.attemptNumber, completedAt)
  }

  function TerminalStatus(counts: Counts): RequestStatus {
    if counts.succeeded > 0 then RequestSucceeded
    else if counts.obsolete > 0 then RequestObsolete
    else RequestFailed
  }

  function ClaimStep(p: Person, w: Worker, i: Input): (Person, Worker) {
    var (q, row) := Claim(p, w.requestId, w.token, i.now, i.until);
    if i.outcome != Answered then (Effect(p, q, i.outcome), w.(pc := Raised, unsettled := true))
    else if row.None? then (q, w.(pc := CheckWaiting))
    else if |DueFromRow(row.value)| != 1 then (p, w.(pc := Raised))
    else (q, w.(pc := FirstRenew, claimed := Some(Claimed(row.value.inputRevision, DueFromRow(row.value)[0]))))
  }

  function WaitStep(p: Person, w: Worker, i: Input): (Person, Worker) {
    if i.outcome != Answered then (p, w.(pc := Raised))
    else (p, w.(pc := if Waiting(p, w.requestId) then Claiming else ObsoleteCall))
  }

  function ObsoleteStep(p: Person, w: Worker, i: Input): (Person, Worker) {
    var q := Effect(p, ObsoleteInactive(p, w.requestId), i.outcome);
    (q, w.(pc := if i.outcome == Answered then Returned else Raised))
  }

  /** `_renew_claim`: a raised call counts as unexpected and as not renewed. */
  function RenewStep(p: Person, w: Worker, i: Input): (Person, Worker, bool)
    requires w.claimed.Some?
  {
    var (q, renewed) := Renew(p, w.token, w.claimed.value.inputRevision, i.until);
    if i.outcome == Answered then (q, w, renewed)
    else (Effect(p, q, i.outcome), w.(counts := w.counts.Unexpected()), false)
  }

  function FirstRenewStep(p: Person, w: Worker, i: Input): (Person, Worker)
    requires w.claimed.Some?
  {
    if !i.leaseIsPositive then (p, w.(pc := FailCall))
    else
      var (q, v, renewed) := RenewStep(p, w, i);
      (q, v.(pc := if renewed then FetchSnapshot else Summarize))
  }

  function FetchStep(w: Worker, i: Input): Worker {
    match i.snapshot
    case Fetched => w.(pc := Generate)
    case InvalidSnapshot => w.(pc := InvalidRenew)
    case FetchRaised => w.(pc := Summarize, counts := w.counts.Unexpected())
  }

  function InvalidRenewStep(p: Person, w: Worker, i: Input): (Person, Worker)
    requires w.claimed.Some?
  {
    var (q, v, renewed) := RenewStep(p, w, i);
    if renewed then (q, v.(pc := BuildFailure, counts := v.counts.Attempted())) else (q, v.(pc := Summarize))
  }

  function BuildFailureStep(w: Worker, i: Input): Worker
    requires w.claimed.Some?
  {
    if i.generation == GenerationRaised then w.(pc := Summarize, counts := w.counts.Unexpected())
    else w.(pc := PersistCall(AttemptFor(w.claimed.value, Failed, i.completedAt)))
  }

  function GenerateStep(w: Worker, i: Input): Worker
    requires w.claimed.Some?
  {
    var v := w.(counts := w.counts.Attempted());
    match i.generation
    case GeneratedText => v.(pc := SecondRenew(AttemptFor(w.claimed.value, Succeeded, i.completedAt)))
    case GeneratedFailure => v.(pc := SecondRenew(AttemptFor(w.claimed.value, Failed, i.completedAt)))
    case GenerationRaised => v.(pc := Summarize, counts := v.counts.Unexpected())
  }

  /** The second renewal's answer does not stop the persist call; the query fences it. */
  function SecondRenewStep(p: Person, w: Worker, i: Input): (Person, Worker)
    requires w.claimed.Some? && w.pc.SecondRenew?
  {
    var (q, v, _) := RenewStep(p, w, i);
    (q, v.(pc := PersistCall(w.pc.attempt)))
  }

  function PersistStep(p: Person, w: Worker, i: Input): (Person, Worker)
    requires w.pc.PersistCall?
  {
    var (q, actual) := Persist(p, w.pc.attempt, w.token, i.dbNow);
    if i.outcome == Answered then (q, w.(pc := Summarize, counts := w.counts.Record(actual)))
    else (Effect(p, q, i.outcome), w.(pc := Summarize, counts := w.counts.Unexpected()))
  }

  function SummarizeStep(w: Worker): Worker {
    w.(pc := if w.counts.attempted != 1 || w.counts.unexpected > 0 then FailCall
             else CompleteCall(TerminalStatus(w.counts)))
  }

  function CompleteStep(p: Person, w: Worker, i: Input): (Person, Worker)
    requires w.pc.CompleteCall?
  {
    var q := Complete(p, w.requestId, w.token, w.pc.status);
    (Effect(p, q, i.outcome), w.(pc := if i.outcome == Answered then ReleaseCall else FailCall))
  }

  function ReleaseStep(p: Person, w: Worker, i: Input): (Person, Worker) {
    var (q, released) := Release(p, w.token);
    if i.outcome == Answered
    then (q, w.(pc := Returned, counts := w.counts.(released := w.counts.released + if released then 1 else 0)))
    else (Effect(p, q, i.outcome), w.(pc := FailCall))
  }

  /** The except branch: failing the request never stops the final release. */
  function FailStep(p: Person, w: Worker, i: Input): (Person, Worker) {
    (Effect(p, Complete(p, w.requestId, w.token, RequestFailed), i.outcome), w.(pc := FinalRelease))
  }

  function FinalReleaseStep(p: Person, w: Worker, i: Input): (Person, Worker) {
    (Effect(p, Release(p, w.token).0, i.outcome), w.(pc := Raised, unsettled := i.outcome != Answered))
  }

  predicate BeforeClaim(pc: Pc) {
    pc == Claiming || pc == CheckWaiting || pc == ObsoleteCall
  }

  predicate BeforePersist(pc: Pc) {
    || pc == FirstRenew || pc == FetchSnapshot || pc == InvalidRenew || pc == BuildFailure || pc == Generate
    || pc.SecondRenew? || pc.PersistCall?
  }

  predicate Working(pc: Pc) {
    || BeforePersist(pc) || pc == Summarize || pc.CompleteCall?
    || pc == ReleaseCall || pc == FailCall || pc == FinalRelease
  }

  /** A thread past its claim knows what it claimed. */
  predicate CanStep(w: Worker) {
    Working(w.pc) ==> w.claimed.Some?
  }

  function WorkerStep(p: Person, w: Worker, i: Input): (Person, Worker)
    requires CanStep(w)
  {
    match w.pc
    case Claiming => ClaimStep(p, w, i)
    case CheckWaiting => WaitStep(p, w, i)
    case ObsoleteCall => ObsoleteStep(p, w, i)
    case FirstRenew => FirstRenewStep(p, w, i)
    case FetchSnapshot => (p, FetchStep(w, i))
    case InvalidRenew => InvalidRenewStep(p, w, i)
    case BuildFailure => (p, BuildFailureStep(w, i))
    case Generate => (p, GenerateStep(w, i))
    case SecondRenew(_) => SecondRenewStep(p, w, i)
    case PersistCall(_) => PersistStep(p, w, i)
    case Summarize => (p, SummarizeStep(w))
    case CompleteCall(_) => CompleteStep(p, w, i)
    case ReleaseCall => ReleaseStep(p, w, i)
    case FailCall => FailStep(p, w, i)
    case FinalRelease => FinalReleaseStep(p, w, i)
    case Returned => (p, w)
    case Raised => (p, w)
    case Lost => (p, w)
  }

  /** An event that cannot happen in a world leaves it alone. */
  function Step(s: World, e: Event): World {
    match e
    case Start(k, id, token) =>
      if k in s.workers || token in s.issued then s
      else s.(workers := s.workers[k := Worker(token, id, Claiming, None, NO_COUNTS, false)],
              issued := s.issued + {token})
    case Act(k, input) =>
      if k !in s.workers || !CanStep(s.workers[k]) then s
      else
        var (p, w) := WorkerStep(s.person, s.workers[k], input);
        s.(person := p, workers := s.workers[k := w])
    case Lose(k) =>
      if k !in s.workers then s else s.(workers := s.workers[k := s.workers[k].(pc := Lost)])
    case SetRevision(revision) => s.(person := s.person.(inputRevision := Some(revision)))
    case SetActive(active) => s.(person := s.person.(active := active))
    case CreateRequest(id, t) =>
      if id in s.person.requests then s
      else s.(person := s.person.(requests := s.person.requests[id := Request(t, Queued, Revision(s.person), None)]))
    case Requeue(id) =>
      if id !in s.person.requests || s.person.requests[id].status != RequestFailed then s
      else s.(person := s.person.(requests := s.person.requests[id := s.person.requests[id].(status := Queued)]))
  }

  function Run(s: World, events: seq<Event>): World {
    if events == [] then s else Step(Run(s, events[..|events| - 1]), events[|events| - 1])
  }

  /** A Person nobody has analysed yet, in any status and at any revision. */
  predicate Initial(s: World) {
    && s.workers == map[] && s.issued == {}
    && s.person.claimToken == None
    && s.person.requests == map[] && s.person.history == [] && s.person.current == {}
  }

  lemma {:induction false} RunSplits(s: World, first: seq<Event>, second: seq<Event>)
    ensures Run(s, first + second) == Run(Run(s, first), second)
  {
    if second == [] {
      assert first + second == first;
    } else {
      var all := first + second;
      assert all[..|all| - 1] == first + second[..|second| - 1];
      RunSplits(s, first, second[..|second| - 1]);
    }
  }
}
