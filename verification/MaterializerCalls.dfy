/** Which calls a materialization makes: one for each accepted release, by its phase. */
module MaterializerCalls {
  import opened Common
  import opened Sequences
  import opened Materializer
  import opened MaterializerProgress

  /** The page call made after a release was accepted. */
  ghost predicate MadeFor(call: Call, release: Summary, limit: nat) {
    && (release.phase == Capture <==> call == CapturePage(release.releaseId, release.fingerprint, limit))
    && (release.phase == Projection <==> call == ProjectPage(release.releaseId, release.fingerprint, limit))
    && (release.phase == Complete <==> call == CompleteRelease(release.releaseId, release.fingerprint))
  }

  /** The codes by which the handler tells the exception classes apart. */
  ghost predicate CodeSays(fault: Fault, code: FailureCode) {
    && (code == BoundaryConflict <==> fault == ProjectionConflict || fault == MappingConflict)
    && (code == IntegrityError <==> fault == ProjectionIntegrity || fault == MappingIntegrity)
    && (code == MaterializationError <==> fault == OtherFault)
  }

  lemma CallIsMade(release: Summary, limit: nat)
    ensures MadeFor(CallFor(release, limit), release, limit)
  {
  }

  lemma {:induction false} CallsAreMade(chain: seq<Summary>, limit: nat)
    ensures forall i :: 0 <= i < |chain| ==> MadeFor(CallsFor(chain, limit)[i], chain[i], limit)
  {
    if chain != [] {
      CallIsMade(chain[0], limit);
      CallsAreMade(chain[1..], limit);
    }
  }

  /** A failure call, if there is one, is the last call; it names the last accepted release and the fault. */
  ghost predicate FailsAtTheEnd(calls: seq<Call>, last: Summary, outcome: Outcome, n: nat) {
    if outcome.Threw? && outcome.fault != ProjectionCancelled then
      && |calls| == n + 1
      && calls[n].Fail? && calls[n].releaseId == last.releaseId && calls[n].fingerprint == last.fingerprint
      && CodeSays(outcome.fault, calls[n].code)
    else |calls| == n
  }

  lemma FailureIsAtTheEnd(made: seq<Call>, last: Summary, outcome: Outcome)
    ensures FailsAtTheEnd(made + FailureCalls(last, outcome), last, outcome, |made|)
  {
  }

  /** The releases that calls were made for, in order, and the failure behind those calls. */
  ghost predicate PagesMade(calls: seq<Call>, called: seq<Summary>, last: Summary, outcome: Outcome, limit: nat) {
    && |calls| >= |called|
    && (forall i :: 0 <= i < |called| ==> MadeFor(calls[i], called[i], limit))
    && FailsAtTheEnd(calls, last, outcome, |called|)
  }

  lemma DriveMakesItsCalls(script: nat -> Reply, n: nat, release: Summary, limit: nat, pages: nat)
    ensures var run := Drive(script, n, release, limit, pages);
            PagesMade(run.calls, Called(release, run), Last(release, run.accepted), run.outcome, limit)
  {
    var run := Drive(script, n, release, limit, pages);
    CallsFollowReleases(script, n, release, limit, pages);
    CallsAreMade(Called(release, run), limit);
    FailureIsAtTheEnd(CallsFor(Called(release, run), limit), Last(release, run.accepted), run.outcome);
  }

  /** How many page calls a run of so many accepted releases has made, once the boundary was prepared. */
  function PageCalls(run: Run): nat
    requires run.accepted != []
  {
    if run.Finished() then |run.accepted| else |run.accepted| - 1
  }

  /**
    The allocation, the preparation of the boundary before any page, then one call for each accepted
    release by its phase, and a failure, if any, at the end.
   */
  ghost predicate MakesItsCalls(run: Run, prepared: bool, command: Command) {
    if run.accepted == [] then run.calls == [Allocate(command)]
    else
      var made := if prepared then PageCalls(run) else 0;
      && |run.calls| >= 2 + made
      && run.calls[0] == Allocate(command) && run.calls[1] == RequirePrepared(command)
      && PagesMade(run.calls[2..], run.accepted[..made], run.accepted[|run.accepted| - 1], run.outcome,
                   command.pageLimit)
  }

  lemma OpeningShifts(run: Run, command: Command, first: Summary, rest: Run)
    requires run.accepted == [first] + rest.accepted && run.outcome == rest.outcome
    requires run.calls == [Allocate(command), RequirePrepared(command)] + rest.calls
    requires PagesMade(rest.calls, Called(first, rest), Last(first, rest.accepted), rest.outcome, command.pageLimit)
    ensures MakesItsCalls(run, true, command)
  {
    assert run.calls[2..] == rest.calls;
    assert run.accepted[..PageCalls(run)] == Called(first, rest);
    assert run.accepted[|run.accepted| - 1] == Last(first, rest.accepted);
  }

  lemma UnpreparedMakesNoPage(run: Run, command: Command, first: Summary)
    requires run.accepted == [first]
    requires run.calls == [Allocate(command), RequirePrepared(command)] + FailureCalls(first, run.outcome)
    ensures MakesItsCalls(run, false, command)
  {
    assert run.calls[2..] == [] + FailureCalls(first, run.outcome);
    FailureIsAtTheEnd([], first, run.outcome);
  }

  /** Of every run, whole or cut short. */
  lemma RunMakesItsCalls(script: nat -> Reply, n: nat, command: Command, pages: nat)
    ensures MakesItsCalls(Materialization(script, n, command, pages), script(n + 1).Returned?, command)
  {
    var run := Materialization(script, n, command, pages);
    if run.accepted != [] {
      var first := run.accepted[0];
      if script(n + 1).Raised? {
        UnpreparedMakesNoPage(run, command, first);
      } else {
        var rest := Drive(script, n + 2, first, command.pageLimit, pages);
        DriveMakesItsCalls(script, n + 2, first, command.pageLimit, pages);
        OpeningShifts(run, command, first, rest);
      }
    }
  }

  /** Which phase a page call belongs to. */
  function CallRank(call: Call): nat {
    match call
    case Allocate(_) => 0
    case RequirePrepared(_) => 1
    case CapturePage(_, _, _) => 2
    case ProjectPage(_, _, _) => 3
    case CompleteRelease(_, _) => 4
    case Fail(_, _, _) => 5
  }

  /** The ranks of the calls of a run that has made so many page calls. */
  ghost predicate Ranked(run: Run, made: nat) {
    && made <= |run.accepted| && 2 + made <= |run.calls| <= 3 + made
    && CallRank(run.calls[0]) == 0 && CallRank(run.calls[1]) == 1
    && (forall k :: 2 <= k < 2 + made ==> CallRank(run.calls[k]) == 2 + Rank(run.accepted[k - 2].phase))
    && (|run.calls| == 3 + made ==> CallRank(run.calls[2 + made]) == 5)
  }

  lemma CallsAreRanked(run: Run, prepared: bool, command: Command) returns (made: nat)
    requires run.accepted != [] && MakesItsCalls(run, prepared, command)
    ensures Ranked(run, made)
  {
    made := if prepared then PageCalls(run) else 0;
    forall k | 2 <= k < 2 + made
      ensures CallRank(run.calls[k]) == 2 + Rank(run.accepted[k - 2].phase)
    {
      assert MadeFor(run.calls[2..][k - 2], run.accepted[..made][k - 2], command.pageLimit);
    }
    assert |run.calls| == 3 + made ==> run.calls[2 + made] == run.calls[2..][made];
  }

  lemma RanksAreInOrder(run: Run, made: nat, i: nat, j: nat)
    requires Ranked(run, made) && Chain(run.accepted) && i < j < |run.calls|
    ensures CallRank(run.calls[i]) <= CallRank(run.calls[j])
    ensures CallRank(run.calls[i]) == CallRank(run.calls[j]) ==> CallRank(run.calls[i]) in {2, 3}
  {
    if 2 <= i && j < 2 + made {
      assert Earlier(run.accepted[i - 2], run.accepted[j - 2]);
    }
  }

  /** Preparation precedes every page, capture every projection, projection the completion, and a failure is last. */
  lemma CallsAreInOrder(script: nat -> Reply, n: nat, command: Command, pages: nat)
    ensures var calls := Materialization(script, n, command, pages).calls;
            forall i, j :: 0 <= i < j < |calls| ==>
              CallRank(calls[i]) <= CallRank(calls[j])
              && (CallRank(calls[i]) == CallRank(calls[j]) ==> CallRank(calls[i]) in {2, 3})
  {
    var run := Materialization(script, n, command, pages);
    RunMakesItsCalls(script, n, command, pages);
    if run.accepted != [] {
      var made := CallsAreRanked(run, script(n + 1).Returned?, command);
      MaterializationOnlyAdvances(script, n, command, pages);
      forall i, j | 0 <= i < j < |run.calls|
        ensures CallRank(run.calls[i]) <= CallRank(run.calls[j])
        ensures CallRank(run.calls[i]) == CallRank(run.calls[j]) ==> CallRank(run.calls[i]) in {2, 3}
      {
        RanksAreInOrder(run, made, i, j);
      }
    }
  }
}
