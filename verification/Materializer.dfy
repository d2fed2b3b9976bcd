/**
  The materializer drives a paging repository it does not trust: an arbitrary script of
  replies. Runs are followed for any number of pages, finished or not; a repository whose
  counts are bounded finishes every run.
 */
module Materializer {
  import opened Common
  import ProjectionRecords

  datatype Phase = Capture | Projection | Complete

  datatype FailureCode = MaterializationError | BoundaryConflict | IntegrityError

  /** The failure code is present exactly in the failed state. */
  datatype SummaryState = Building | Completed | Failed(code: FailureCode) | Cancelled

  datatype Cursor = Cursor(kind: ProjectionRecords.SubjectKind, subjectId: nat)

  /** The fields the materializer reads. */
  datatype Summary = Summary(
    releaseId: string,
    fingerprint: string,
    state: SummaryState,
    phase: Phase,
    captureCursor: Option<Cursor>,
    projectionCursor: Option<Cursor>,
    inputCount: nat,
    decisionCount: nat,
    associationCount: nat,
    supportCount: nat)
  {
    predicate Terminal() {
      state != Building
    }
  }

  /** The exception classes the handler tells apart; none is a subclass of another. */
  datatype Fault =
    | ProjectionCancelled
    | ProjectionConflict
    | ProjectionIntegrity
    | MappingConflict
    | MappingIntegrity
    | OtherFault

  datatype Command = Command(requestId: string, mappingRevisionId: string, manifestDigest: string, pageLimit: nat)

  datatype Call =
    | Allocate(command: Command)
    | RequirePrepared(command: Command)
    | CapturePage(releaseId: string, fingerprint: string, limit: nat)
    | ProjectPage(releaseId: string, fingerprint: string, limit: nat)
    | CompleteRelease(releaseId: string, fingerprint: string)
    | Fail(releaseId: string, fingerprint: string, code: FailureCode)

  /** What a call gives back: a summary, read by the calls that return one, or an exception. */
  datatype Reply = Returned(summary: Summary) | Raised(fault: Fault)

  /** `StillPaging` is a run followed for a number of pages without an end. */
  datatype Outcome = Released(summary: Summary) | Threw(fault: Fault) | StillPaging

  // ----- Cursors -----

  predicate CursorBefore(a: Cursor, b: Cursor) {
    ProjectionRecords.SubjectBefore((a.kind, a.subjectId), (b.kind, b.subjectId))
  }

  predicate IsAfter(previous: Option<Cursor>, current: Option<Cursor>) {
    current.Some? && (previous.None? || CursorBefore(previous.value, current.value))
  }

  predicate IsBefore(previous: Option<Cursor>, current: Option<Cursor>) {
    previous.Some? && (current.None? || CursorBefore(current.value, previous.value))
  }

  // ----- One page -----

  predicate CaptureRegressed(previous: Summary, current: Summary) {
    current.inputCount < previous.inputCount || IsBefore(previous.captureCursor, current.captureCursor)
  }

  predicate ProjectionRegressed(previous: Summary, current: Summary) {
    || current.decisionCount < previous.decisionCount
    || current.associationCount < previous.associationCount
    || current.supportCount < previous.supportCount
    || IsBefore(previous.projectionCursor, current.projectionCursor)
  }

  predicate Regressed(previous: Summary, current: Summary) {
    if previous.phase == Capture then CaptureRegressed(previous, current) else ProjectionRegressed(previous, current)
  }

  predicate Advanced(previous: Summary, current: Summary) {
    if previous.phase == Capture then
      current.inputCount > previous.inputCount && IsAfter(previous.captureCursor, current.captureCursor)
    else
      current.decisionCount > previous.decisionCount && IsAfter(previous.projectionCursor, current.projectionCursor)
  }

  function NextPhase(p: Phase): Phase {
    if p == Capture then Projection else Complete
  }

  datatype Turn = Continue(next: Summary) | Stop(outcome: Outcome)

  /** What a page reply does to the run: cancellation first, then regression, then the transition. */
  function PageTurn(release: Summary, reply: Reply): Turn {
    match reply
    case Raised(fault) => Stop(Threw(fault))
    case Returned(next) =>
      if next.state == Cancelled then Stop(Threw(ProjectionCancelled))
      else if Regressed(release, next) then Stop(Threw(ProjectionIntegrity))
      else if next.Terminal() then
        Stop(if next.state.Failed? && next.phase == release.phase then Released(next) else Threw(ProjectionIntegrity))
      else if next.phase == release.phase then
        if Advanced(release, next) then Continue(next) else Stop(Threw(ProjectionIntegrity))
      else
        if next.phase == NextPhase(release.phase) then Continue(next) else Stop(Threw(ProjectionIntegrity))
  }

  // ----- The whole run -----

  /** Cancellation is not recorded as a failure. */
  function CodeOf(fault: Fault): Option<FailureCode> {
    match fault
    case ProjectionCancelled => None
    case ProjectionConflict => Some(BoundaryConflict)
    case MappingConflict => Some(BoundaryConflict)
    case ProjectionIntegrity => Some(IntegrityError)
    case MappingIntegrity => Some(IntegrityError)
    case OtherFault => Some(MaterializationError)
  }

  function FailureCalls(release: Summary, outcome: Outcome): seq<Call> {
    if outcome.Threw? && CodeOf(outcome.fault).Some? then
      [Fail(release.releaseId, release.fingerprint, CodeOf(outcome.fault).value)]
    else []
  }

  function CallFor(release: Summary, limit: nat): Call {
    match release.phase
    case Capture => CapturePage(release.releaseId, release.fingerprint, limit)
    case Projection => ProjectPage(release.releaseId, release.fingerprint, limit)
    case Complete => CompleteRelease(release.releaseId, release.fingerprint)
  }

  function ReplyOutcome(reply: Reply): Outcome {
    match reply
    case Returned(summary) => Released(summary)
    case Raised(fault) => Threw(fault)
  }

  /** The calls made, the releases accepted after the first, and how the run ended. */
  datatype Run = Run(calls: seq<Call>, accepted: seq<Summary>, outcome: Outcome) {
    predicate Finished() {
      outcome != StillPaging
    }
  }

  /** The first `pages` pages from a building release whose next reply has index `n`. */
  ghost function Drive(script: nat -> Reply, n: nat, release: Summary, limit: nat, pages: nat): Run
    decreases pages
  {
    var call := CallFor(release, limit);
    if release.phase == Complete then
      var outcome := ReplyOutcome(script(n));
      Run([call] + FailureCalls(release, outcome), [], outcome)
    else if pages == 0 then Run([], [], StillPaging)
    else
      match PageTurn(release, script(n))
      case Stop(outcome) => Run([call] + FailureCalls(release, outcome), [], outcome)
      case Continue(next) =>
        var rest := Drive(script, n + 1, next, limit, pages - 1);
        Run([call] + rest.calls, [next] + rest.accepted, rest.outcome)
  }

  ghost function Materialization(script: nat -> Reply, n: nat, command: Command, pages: nat): Run {
    match script(n)
    case Raised(fault) => Run([Allocate(command)], [], Threw(fault))
    case Returned(first) =>
      if first.Terminal() then Run([Allocate(command)], [], Released(first))
      else
        var opening := [Allocate(command), RequirePrepared(command)];
        match script(n + 1)
        case Raised(fault) => Run(opening + FailureCalls(first, Threw(fault)), [first], Threw(fault))
        case Returned(_) =>
          var rest := Drive(script, n + 2, first, command.pageLimit, pages);
          Run(opening + rest.calls, [first] + rest.accepted, rest.outcome)
  }

  /** A run that has made these calls and accepted these releases before the rest. */
  ghost function Prepend(made: seq<Call>, done: seq<Summary>, rest: Run): Run {
    Run(made + rest.calls, done + rest.accepted, rest.outcome)
  }

  ghost function Last(first: Summary, accepted: seq<Summary>): Summary {
    if accepted == [] then first else accepted[|accepted| - 1]
  }

  lemma PrependCall(made: seq<Call>, done: seq<Summary>, call: Call, next: Summary, rest: Run)
    ensures Prepend(made, done, Run([call] + rest.calls, [next] + rest.accepted, rest.outcome))
         == Prepend(made + [call], done + [next], rest)
  {
    assert made + ([call] + rest.calls) == made + [call] + rest.calls;
    assert done + ([next] + rest.accepted) == done + [next] + rest.accepted;
  }

  /** The repository and the mapping reader: every call is logged and gets the script's next reply. */
  class Repository {
    const script: nat -> Reply
    var log: seq<Call>

    constructor (script: nat -> Reply)
      ensures this.script == script && log == []
    {
      this.script := script;
      log := [];
    }

    method Perform(call: Call) returns (reply: Reply)
      modifies this`log
      ensures log == old(log) + [call] && reply == script(|old(log)|)
    {
      reply := script(|log|);
      log := log + [call];
    }

    /** What has been called and accepted between `first` and `release`, against the run from `first`. */
    ghost predicate Reached(start: seq<Call>, first: Summary, limit: nat, pages: nat, done: seq<Summary>,
                            release: Summary)
      reads this
    {
      && start <= log && release == Last(first, done) && |done| <= pages
      && Drive(script, |start|, first, limit, pages)
         == Prepend(log[|start|..], done, Drive(script, |log|, release, limit, pages - |done|))
    }

    /** One page of the current phase. */
    method TakePage(ghost start: seq<Call>, ghost first: Summary, limit: nat, ghost pages: nat,
                    ghost done: seq<Summary>, release: Summary)
      returns (turn: Turn)
      requires release.phase != Complete && Reached(start, first, limit, pages, done, release) && |done| < pages
      modifies this`log
      ensures turn == PageTurn(release, script(|old(log)|))
      ensures turn.Continue? ==> Reached(start, first, limit, pages, done + [turn.next], turn.next)
      ensures turn.Stop? ==> Ended(start, first, limit, pages, done, release, turn.outcome)
    {
      var reply := Perform(CallFor(release, limit));
      turn := PageTurn(release, reply);
      assert log[|start|..] == old(log)[|start|..] + [CallFor(release, limit)];
      if turn.Continue? {
        var rest := Drive(script, |log|, turn.next, limit, pages - |done| - 1);
        PrependCall(old(log)[|start|..], done, CallFor(release, limit), turn.next, rest);
      }
    }

    ghost predicate Ended(start: seq<Call>, first: Summary, limit: nat, pages: nat, done: seq<Summary>,
                          release: Summary, outcome: Outcome)
      reads this
    {
      && start <= log && release == Last(first, done)
      && Drive(script, |start|, first, limit, pages) ==
         Run(log[|start|..] + FailureCalls(release, outcome), done, outcome)
    }

    /** The body of the try block: the last accepted release and how the block ended. */
    method DrivePages(first: Summary, limit: nat, ghost pages: nat)
      returns (release: Summary, outcome: Outcome, ghost done: seq<Summary>)
      requires Drive(script, |log|, first, limit, pages).Finished()
      modifies this`log
      ensures Ended(old(log), first, limit, pages, done, release, outcome)
    {
      release, done := first, [];
      ghost var start := log;
      while release.phase == Capture
        invariant Reached(start, first, limit, pages, done, release)
        decreases pages - |done|
      {
        var turn := TakePage(start, first, limit, pages, done, release);
        match turn
        case Stop(o) =>
          outcome := o;
          return;
        case Continue(next) =>
          release, done := next, done + [next];
      }
      while release.phase == Projection
        invariant release.phase != Capture
        invariant Reached(start, first, limit, pages, done, release)
        decreases pages - |done|
      {
        var turn := TakePage(start, first, limit, pages, done, release);
        match turn
        case Stop(o) =>
          outcome := o;
          return;
        case Continue(next) =>
          release, done := next, done + [next];
      }
      var reply := Perform(CompleteRelease(release.releaseId, release.fingerprint));
      outcome := ReplyOutcome(reply);
      assert log[|start|..] == log[..|log| - 1][|start|..] + [CallFor(release, limit)];
    }

    /** Returns for every script whose run ends after some number of pages; on any other the loops never end. */
    method Materialize(command: Command, ghost pages: nat) returns (outcome: Outcome)
      requires Materialization(script, |log|, command, pages).Finished()
      modifies this`log
      ensures var run := Materialization(script, |old(log)|, command, pages);
              outcome == run.outcome && log == old(log) + run.calls
    {
      var reply := Perform(Allocate(command));
      if reply.Raised? {
        return Threw(reply.fault);
      }
      var release := reply.summary;
      if release.Terminal() {
        return Released(release);
      }
      reply := Perform(RequirePrepared(command));
      if reply.Raised? {
        outcome := Threw(reply.fault);
      } else {
        ghost var done;
        release, outcome, done := DrivePages(release, command.pageLimit, pages);
      }
      if outcome.Threw? && CodeOf(outcome.fault).Some? {
        var ignored := Perform(Fail(release.releaseId, release.fingerprint, CodeOf(outcome.fault).value));
      }
    }
  }
}
