/** What holds of every materialization run, whatever the repository answers. */
module MaterializerProgress {
  import opened Common
  import opened Sequences
  import ProjectionRecords
  import opened Materializer

  function Rank(p: Phase): nat {
    match p
    case Capture => 0
    case Projection => 1
    case Complete => 2
  }

  /** Contacts before leads, then by number. */
  predicate ComesBefore(a: Cursor, b: Cursor) {
    if a.kind == b.kind then a.subjectId < b.subjectId
    else a.kind == ProjectionRecords.Contact && b.kind == ProjectionRecords.Lead
  }

  /** A cursor moves on by appearing or coming later, and goes back by vanishing or coming earlier. */
  lemma CursorsRead(previous: Option<Cursor>, current: Option<Cursor>)
    ensures IsAfter(previous, current) <==>
            current.Some? && (previous == None || ComesBefore(previous.value, current.value))
    ensures IsBefore(previous, current) <==>
            previous.Some? && (current == None || ComesBefore(current.value, previous.value))
  {
  }

  /** What a page must not take back, phase by phase. */
  lemma RegressionReads(previous: Summary, current: Summary)
    requires previous.phase != Complete
    ensures Regressed(previous, current) <==>
            if previous.phase == Capture then
              current.inputCount < previous.inputCount || IsBefore(previous.captureCursor, current.captureCursor)
            else
              || current.decisionCount < previous.decisionCount || current.associationCount < previous.associationCount
              || current.supportCount < previous.supportCount
              || IsBefore(previous.projectionCursor, current.projectionCursor)
  {
  }

  /** One accepted release comes before another in the same run. */
  ghost predicate Earlier(a: Summary, b: Summary) {
    && Rank(a.phase) <= Rank(b.phase)
    && (a.phase == b.phase ==> a.phase != Complete)
    && (a.phase == b.phase == Capture ==>
          a.inputCount < b.inputCount && IsAfter(a.captureCursor, b.captureCursor))
    && (a.phase == b.phase == Projection ==>
          && a.decisionCount < b.decisionCount && IsAfter(a.projectionCursor, b.projectionCursor)
          && a.associationCount <= b.associationCount && a.supportCount <= b.supportCount)
  }

  /** A page that moves to the next phase keeps what the phase it leaves has counted. */
  ghost predicate HandsOver(a: Summary, b: Summary) {
    && (a.phase == Capture && b.phase == Projection ==>
          a.inputCount <= b.inputCount && !IsBefore(a.captureCursor, b.captureCursor))
    && (a.phase == Projection && b.phase == Complete ==>
          && a.decisionCount <= b.decisionCount && !IsBefore(a.projectionCursor, b.projectionCursor)
          && a.associationCount <= b.associationCount && a.supportCount <= b.supportCount)
  }

  /** A returned page is accepted exactly when it is a building release that makes progress of one of the two kinds. */
  lemma PageIsAccepted(a: Summary, b: Summary)
    requires a.phase != Complete
    ensures PageTurn(a, Returned(b)).Continue? <==>
            && b.state == Building && Earlier(a, b) && HandsOver(a, b)
            && Rank(b.phase) <= Rank(a.phase) + 1
  {
    assert !(IsAfter(a.captureCursor, b.captureCursor) && IsBefore(a.captureCursor, b.captureCursor));
    assert !(IsAfter(a.projectionCursor, b.projectionCursor) && IsBefore(a.projectionCursor, b.projectionCursor));
  }

  lemma EarlierTransitive(a: Summary, b: Summary, c: Summary)
    requires Earlier(a, b) && Earlier(b, c)
    ensures Earlier(a, c)
  {
  }

  ghost predicate Chain(s: seq<Summary>) {
    && (forall i, j :: 0 <= i < j < |s| ==> Earlier(s[i], s[j]))
    && (forall i :: 0 < i < |s| ==> HandsOver(s[i - 1], s[i]) && Rank(s[i].phase) <= Rank(s[i - 1].phase) + 1)
  }

  lemma ChainMore(release: Summary, rest: seq<Summary>)
    requires rest != [] && Chain(rest)
    requires Earlier(release, rest[0]) && HandsOver(release, rest[0]) && Rank(rest[0].phase) <= Rank(release.phase) + 1
    ensures Chain([release] + rest)
  {
    forall j | 0 <= j < |rest|
      ensures Earlier(release, rest[j])
    {
      if j > 0 {
        EarlierTransitive(release, rest[0], rest[j]);
      }
    }
  }

  /** The phase never goes back, and within a phase the count and the cursor strictly advance. */
  lemma {:induction false} RunOnlyAdvances(script: nat -> Reply, n: nat, release: Summary, limit: nat, pages: nat)
    ensures Chain([release] + Drive(script, n, release, limit, pages).accepted)
    decreases pages
  {
    if release.phase != Complete && pages > 0 {
      match PageTurn(release, script(n))
      case Stop(_) =>
      case Continue(next) =>
        RunOnlyAdvances(script, n + 1, next, limit, pages - 1);
        PageIsAccepted(release, next);
        ChainMore(release, [next] + Drive(script, n + 1, next, limit, pages - 1).accepted);
    }
  }

  /** Following a run further only extends it, and not at all once it has ended. */
  lemma {:induction false} RunsExtend(script: nat -> Reply, n: nat, release: Summary, limit: nat, pages: nat, more: nat)
    requires pages <= more
    ensures var early, late := Drive(script, n, release, limit, pages), Drive(script, n, release, limit, more);
            && early.accepted <= late.accepted && early.calls <= late.calls
            && (early.Finished() ==> early == late)
    decreases pages
  {
    if release.phase != Complete && pages > 0 {
      match PageTurn(release, script(n))
      case Stop(_) =>
      case Continue(next) =>
        RunsExtend(script, n + 1, next, limit, pages - 1, more - 1);
    }
  }

  // ----- Bounded counts -----

  /** How many inputs and decisions there are. */
  datatype Bounds = Bounds(inputs: nat, decisions: nat)

  ghost predicate Bounded(script: nat -> Reply, b: Bounds) {
    forall n :: script(n).Returned? ==> Within(b, script(n).summary)
  }

  predicate Within(b: Bounds, release: Summary) {
    release.inputCount <= b.inputs && release.decisionCount <= b.decisions
  }

  /** The pages a release can still be given before the counts are used up. */
  function PagesLeft(b: Bounds, release: Summary): (pages: nat)
    requires Within(b, release)
  {
    match release.phase
    case Capture => b.inputs - release.inputCount + 1 + b.decisions + 1
    case Projection => b.decisions - release.decisionCount + 1
    case Complete => 0
  }

  /** With bounded counts every run ends, after at most the pages left. */
  lemma {:induction false} PagesAreBounded(script: nat -> Reply, b: Bounds, n: nat, release: Summary, limit: nat,
                                           pages: nat)
    requires Bounded(script, b) && Within(b, release) && pages >= PagesLeft(b, release)
    ensures Drive(script, n, release, limit, pages).Finished()
    ensures |Drive(script, n, release, limit, pages).accepted| <= PagesLeft(b, release)
    decreases pages
  {
    if release.phase != Complete {
      match PageTurn(release, script(n))
      case Stop(_) =>
      case Continue(next) =>
        PagesAreBounded(script, b, n + 1, next, limit, pages - 1);
    }
  }

  function CursorAt(k: nat): Option<Cursor> {
    if k == 0 then None else Some(Cursor(ProjectionRecords.Contact, k))
  }

  /**
    The n-th release of a repository that gives one subject a page: the inputs, the hand-over, the
    decisions, the completion.
   */
  function OneSubjectAPage(b: Bounds, n: nat): Summary {
    if n <= b.inputs then Summary("r", "f", Building, Capture, CursorAt(n), None, n, 0, 0, 0)
    else if n <= b.inputs + 1 + b.decisions then
      var d := n - b.inputs - 1;
      Summary("r", "f", Building, Projection, CursorAt(b.inputs), CursorAt(d), b.inputs, d, 0, 0)
    else Summary("r", "f", Building, Complete, CursorAt(b.inputs), CursorAt(b.decisions), b.inputs, b.decisions, 0, 0)
  }

  function OneSubjectScript(b: Bounds): nat -> Reply {
    (n: nat) => Returned(OneSubjectAPage(b, n + 1))
  }

  /** The bound is reached for all bounds: from an empty capture, `inputs + decisions + 2` pages. */
  lemma BoundIsReached(b: Bounds, limit: nat)
    ensures var first := OneSubjectAPage(b, 0);
            && Bounded(OneSubjectScript(b), b) && Within(b, first) && first.phase == Capture && first.inputCount == 0
            && |Drive(OneSubjectScript(b), 0, first, limit, PagesLeft(b, first)).accepted|
               == PagesLeft(b, first) == b.inputs + b.decisions + 2
  {
    BoundIsReachedFrom(b, 0, limit);
  }

  lemma {:induction false} BoundIsReachedFrom(b: Bounds, n: nat, limit: nat)
    requires n <= b.inputs + b.decisions + 2
    ensures var release := OneSubjectAPage(b, n);
            && PagesLeft(b, release) == b.inputs + b.decisions + 2 - n
            && |Drive(OneSubjectScript(b), n, release, limit, PagesLeft(b, release)).accepted| == PagesLeft(b, release)
    decreases b.inputs + b.decisions + 2 - n
  {
    if n < b.inputs + b.decisions + 2 {
      var release, next := OneSubjectAPage(b, n), OneSubjectAPage(b, n + 1);
      assert OneSubjectScript(b)(n) == Returned(next);
      assert PageTurn(release, Returned(next)) == Continue(next);
      BoundIsReachedFrom(b, n + 1, limit);
    }
  }

  // ----- Calls -----

  predicate IsFail(c: Call) {
    c.Fail?
  }

  function CallsFor(chain: seq<Summary>, limit: nat): (calls: seq<Call>)
    ensures |calls| == |chain|
  {
    if chain == [] then [] else [CallFor(chain[0], limit)] + CallsFor(chain[1..], limit)
  }

  lemma {:induction false} PageCallsAreNoFailures(chain: seq<Summary>, limit: nat)
    ensures forall c :: c in CallsFor(chain, limit) ==> !IsFail(c)
  {
    if chain != [] {
      PageCallsAreNoFailures(chain[1..], limit);
    }
  }

  /** The releases a run has made its calls for: all of them, but the last one of a run cut short. */
  function Called(release: Summary, run: Run): seq<Summary> {
    if run.Finished() then [release] + run.accepted else ([release] + run.accepted)[..|run.accepted|]
  }

  lemma CallsForMore(release: Summary, called: seq<Summary>, limit: nat, failure: seq<Call>)
    ensures CallsFor([release] + called, limit) + failure ==
            [CallFor(release, limit)] + (CallsFor(called, limit) + failure)
  {
    assert ([release] + called)[1..] == called;
  }

  lemma CalledMore(release: Summary, next: Summary, run: Run, rest: Run)
    requires run.accepted == [next] + rest.accepted && run.outcome == rest.outcome
    ensures Called(release, run) == [release] + Called(next, rest)
  {
  }

  lemma LastOfMore(release: Summary, next: Summary, accepted: seq<Summary>)
    ensures Last(release, [next] + accepted) == Last(next, accepted)
  {
  }

  /** Each call is the one the last accepted release calls for, and a failure is recorded once, at the end. */
  lemma {:induction false} CallsFollowReleases(script: nat -> Reply, n: nat, release: Summary, limit: nat, pages: nat)
    ensures var run := Drive(script, n, release, limit, pages);
            run.calls == CallsFor(Called(release, run), limit) + FailureCalls(Last(release, run.accepted), run.outcome)
    decreases pages
  {
    var run := Drive(script, n, release, limit, pages);
    var failure := FailureCalls(Last(release, run.accepted), run.outcome);
    if release.phase != Complete && pages > 0 && PageTurn(release, script(n)).Continue? {
      var next := PageTurn(release, script(n)).next;
      var rest := Drive(script, n + 1, next, limit, pages - 1);
      CallsFollowReleases(script, n + 1, next, limit, pages - 1);
      CalledMore(release, next, run, rest);
      CallsForMore(release, Called(next, rest), limit, failure);
      LastOfMore(release, next, rest.accepted);
    } else if run.Finished() {
      CallsForMore(release, [], limit, failure);
      assert CallsFor([], limit) == [];
      assert [release] + [] == [release];
    } else {
      assert Called(release, run) == [];
    }
  }

  // ----- Which release the calls name -----

  predicate Names(c: Call, releaseId: string, fingerprint: string) {
    match c
    case CapturePage(id, f, _) => id == releaseId && f == fingerprint
    case ProjectPage(id, f, _) => id == releaseId && f == fingerprint
    case CompleteRelease(id, f) => id == releaseId && f == fingerprint
    case Fail(id, f, _) => id == releaseId && f == fingerprint
    case _ => false
  }

  predicate Carries(s: Summary, releaseId: string, fingerprint: string) {
    s.releaseId == releaseId && s.fingerprint == fingerprint
  }

  ghost predicate AllName(calls: seq<Call>, releaseId: string, fingerprint: string) {
    forall c :: c in calls ==> Names(c, releaseId, fingerprint)
  }

  ghost predicate AllCarry(chain: seq<Summary>, releaseId: string, fingerprint: string) {
    forall s :: s in chain ==> Carries(s, releaseId, fingerprint)
  }

  lemma {:induction false} CallsNameTheirReleases(chain: seq<Summary>, limit: nat, releaseId: string,
                                                  fingerprint: string)
    ensures AllName(CallsFor(chain, limit), releaseId, fingerprint) <==> AllCarry(chain, releaseId, fingerprint)
  {
    if chain != [] {
      CallsNameTheirReleases(chain[1..], limit, releaseId, fingerprint);
      assert Names(CallFor(chain[0], limit), releaseId, fingerprint) <==> Carries(chain[0], releaseId, fingerprint);
      assert forall s :: s in chain <==> s == chain[0] || s in chain[1..];
    }
  }

  /**
    All calls of a finished run name the release it started from exactly when every accepted release
    carries its identity.
   */
  lemma CallsKeepTheIdentityExactly(script: nat -> Reply, n: nat, release: Summary, limit: nat, pages: nat)
    requires Drive(script, n, release, limit, pages).Finished()
    ensures var run := Drive(script, n, release, limit, pages);
            AllName(run.calls, release.releaseId, release.fingerprint)
            <==> AllCarry(run.accepted, release.releaseId, release.fingerprint)
  {
    var run := Drive(script, n, release, limit, pages);
    var chain := [release] + run.accepted;
    var failure := FailureCalls(Last(release, run.accepted), run.outcome);
    CallsFollowReleases(script, n, release, limit, pages);
    CallsNameTheirReleases(chain, limit, release.releaseId, release.fingerprint);
    assert forall s :: s in chain <==> s == release || s in run.accepted;
    assert forall c :: c in run.calls <==> c in CallsFor(chain, limit) || c in failure;
    assert Last(release, run.accepted) in chain;
  }

  /** Two replies, the second page under another identity: accepted, and completed under it. */
  lemma PageCanChangeTheIdentity()
    ensures var first := Summary("one", "f", Building, Capture, None, None, 0, 0, 0, 0);
            var other := Summary("two", "f", Building, Projection, None, None, 0, 0, 0, 0);
            var done := other.(phase := Complete);
            var run := Drive(n => Returned(if n == 0 then other else done), 0, first, 1, 2);
            run.accepted == [other, done] && run.Finished() && CompleteRelease("two", "f") in run.calls
  {
    var first := Summary("one", "f", Building, Capture, None, None, 0, 0, 0, 0);
    var other := Summary("two", "f", Building, Projection, None, None, 0, 0, 0, 0);
    var done := other.(phase := Complete);
    var script := n => Returned(if n == 0 then other else done);
    assert PageTurn(first, script(0)) == Continue(other);
    assert PageTurn(other, script(1)) == Continue(done);
    assert Drive(script, 2, done, 1, 0).accepted == [];
    assert Drive(script, 1, other, 1, 1).accepted == [done];
    CallsFollowReleases(script, 2, done, 1, 0);
  }

  // ----- How a run ends -----

  /** Why a run ended as it did, from the last accepted release and the reply that ended it. */
  ghost predicate EndsWith(last: Summary, reply: Reply, outcome: Outcome) {
    match outcome
    case Released(s) =>
      && reply == Returned(s)
      && (last.phase != Complete ==> s.state.Failed? && s.phase == last.phase && !Regressed(last, s))
    case Threw(fault) =>
      || reply == Raised(fault)
      || (reply.Returned? && last.phase != Complete && fault == ProjectionCancelled && reply.summary.state == Cancelled)
      || (reply.Returned? && last.phase != Complete && fault == ProjectionIntegrity && reply.summary.state != Cancelled
          && PageIsWrong(last, reply.summary))
    case StillPaging => false
  }

  /** Neither progress nor a recorded failure of the same phase. */
  ghost predicate PageIsWrong(last: Summary, s: Summary) {
    && !(s.state == Building && Earlier(last, s) && HandsOver(last, s) && Rank(s.phase) <= Rank(last.phase) + 1)
    && !(s.state.Failed? && s.phase == last.phase && !Regressed(last, s))
  }

  /** The accepted releases are the replies, in order. */
  lemma {:induction false} RunAcceptsReplies(script: nat -> Reply, n: nat, release: Summary, limit: nat,
                                             pages: nat, i: nat)
    requires i < |Drive(script, n, release, limit, pages).accepted|
    ensures script(n + i) == Returned(Drive(script, n, release, limit, pages).accepted[i])
    decreases i
  {
    var next := PageTurn(release, script(n)).next;
    if i > 0 {
      RunAcceptsReplies(script, n + 1, next, limit, pages - 1, i - 1);
    }
  }

  /**
    The first reply that is not accepted is what ends the run; a run without an end has accepted
    every page followed.
   */
  lemma {:induction false} RunEnds(script: nat -> Reply, n: nat, release: Summary, limit: nat, pages: nat)
    ensures var run := Drive(script, n, release, limit, pages);
            if run.Finished() then EndsWith(Last(release, run.accepted), script(n + |run.accepted|), run.outcome)
            else |run.accepted| == pages
    decreases pages
  {
    if release.phase != Complete && pages > 0 {
      match PageTurn(release, script(n))
      case Stop(outcome) =>
        StoppedPage(release, script(n));
      case Continue(next) =>
        RunEnds(script, n + 1, next, limit, pages - 1);
        LastOfMore(release, next, Drive(script, n + 1, next, limit, pages - 1).accepted);
    }
  }

  lemma StoppedPage(release: Summary, reply: Reply)
    requires release.phase != Complete && PageTurn(release, reply).Stop?
    ensures EndsWith(release, reply, PageTurn(release, reply).outcome)
  {
    if reply.Returned? {
      PageIsAccepted(release, reply.summary);
    }
  }

  // ----- Whole materializations -----

  /** After a building release was allocated, the calls are ones that are no failure and then the failure, if any. */
  lemma CallsBeforeFailure(script: nat -> Reply, n: nat, command: Command, pages: nat) returns (body: seq<Call>)
    requires Materialization(script, n, command, pages).accepted != []
    ensures var run := Materialization(script, n, command, pages);
            run.calls == body + FailureCalls(Last(run.accepted[0], run.accepted), run.outcome)
    ensures body != [] && forall c :: c in body ==> !IsFail(c)
  {
    var run := Materialization(script, n, command, pages);
    body := [Allocate(command), RequirePrepared(command)];
    if script(n + 1).Returned? {
      var first := script(n).summary;
      var rest := Drive(script, n + 2, first, command.pageLimit, pages);
      CallsFollowReleases(script, n + 2, first, command.pageLimit, pages);
      LastOfMore(first, first, rest.accepted);
      PageCallsAreNoFailures(Called(first, rest), command.pageLimit);
      body := body + CallsFor(Called(first, rest), command.pageLimit);
    }
  }

  /**
    A failure is recorded exactly for an exception other than cancellation that leaves the run
    after a building release was allocated: once, last, with that exception's code, and for the
    last accepted release.
   */
  lemma FailsExactlyOnce(script: nat -> Reply, n: nat, command: Command, pages: nat)
    ensures var run := Materialization(script, n, command, pages);
            var fails := Filter(IsFail, run.calls);
            if run.outcome.Threw? && run.accepted != [] && run.outcome.fault != ProjectionCancelled then
              var last := run.accepted[|run.accepted| - 1];
              && fails == [Fail(last.releaseId, last.fingerprint, CodeOf(run.outcome.fault).value)]
              && run.calls[|run.calls| - 1] == fails[0]
            else fails == []
    ensures Materialization(script, n, command, pages).accepted != [] <==>
            script(n).Returned? && !script(n).summary.Terminal()
  {
    var run := Materialization(script, n, command, pages);
    if run.accepted != [] {
      var body := CallsBeforeFailure(script, n, command, pages);
      var failure := FailureCalls(Last(run.accepted[0], run.accepted), run.outcome);
      FilterNone(IsFail, body);
      FilterAll(IsFail, failure);
      FilterConcat(IsFail, body, failure);
    }
  }

  /** A terminal release is returned as it is, and nothing but the allocation is called. */
  lemma TerminalReplayIsReadOnly(script: nat -> Reply, n: nat, command: Command, first: Summary, pages: nat)
    requires script(n) == Returned(first)
    ensures first.Terminal() <==> Materialization(script, n, command, pages).calls == [Allocate(command)]
    ensures first.Terminal() ==> Materialization(script, n, command, pages).outcome == Released(first)
  {
  }

  /** Whatever the repository answers, the releases a materialization accepts only advance. */
  lemma MaterializationOnlyAdvances(script: nat -> Reply, n: nat, command: Command, pages: nat)
    ensures Chain(Materialization(script, n, command, pages).accepted)
  {
    if script(n).Returned? && script(n + 1).Returned? && !script(n).summary.Terminal() {
      RunOnlyAdvances(script, n + 2, script(n).summary, command.pageLimit, pages);
    }
  }

  /** With bounded counts every materialization ends. */
  lemma MaterializationEnds(script: nat -> Reply, b: Bounds, n: nat, command: Command, pages: nat)
    requires Bounded(script, b) && pages >= b.inputs + b.decisions + 2
    ensures var run := Materialization(script, n, command, pages);
            run.Finished() && |run.accepted| <= b.inputs + b.decisions + 3
  {
    if script(n).Returned? && script(n + 1).Returned? && !script(n).summary.Terminal() {
      PagesAreBounded(script, b, n + 2, script(n).summary, command.pageLimit, pages);
    }
  }
}
