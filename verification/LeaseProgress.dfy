/** What a thread achieves whose lease nobody disturbs, and how leases change hands in any run. */
module LeaseProgress {
  import opened Common
  import opened LeaseQueries
  import opened LeaseProtocol

  /** One more step of the thread, if it can take one. */
  function Then(x: (Person, Worker), i: Input): (Person, Worker) {
    if CanStep(x.1) then WorkerStep(x.0, x.1, i) else x
  }

  /** The Person and the thread after the thread took one step for each input. */
  function Play(p: Person, w: Worker, inputs: seq<Input>): (Person, Worker) {
    if inputs == [] then (p, w) else Then(Play(p, w, inputs[..|inputs| - 1]), inputs[|inputs| - 1])
  }

  lemma PlayMore(p: Person, w: Worker, inputs: seq<Input>, i: Input)
    ensures Play(p, w, inputs + [i]) == Then(Play(p, w, inputs), i)
  {
    assert (inputs + [i])[..|inputs|] == inputs;
  }

  lemma {:induction false} PlaysOn(p: Person, w: Worker, a: seq<Input>, b: seq<Input>)
    ensures Play(p, w, a + b) == Play(Play(p, w, a).0, Play(p, w, a).1, b)
  {
    if b == [] {
      assert a + b == a;
    } else {
      var n := |b| - 1;
      assert a + b == (a + b[..n]) + [b[n]];
      PlaysOn(p, w, a, b[..n]);
      PlayMore(p, w, a + b[..n], b[n]);
    }
  }

  lemma PlayOne(p: Person, w: Worker, s: seq<Input>)
    requires |s| == 1
    ensures Play(p, w, s) == Then((p, w), s[0])
  {
    assert s == [] + [s[0]];
    PlayMore(p, w, [], s[0]);
  }

  lemma PlayTwo(p: Person, w: Worker, s: seq<Input>)
    requires |s| == 2
    ensures Play(p, w, s) == Then(Then((p, w), s[0]), s[1])
  {
    assert s == s[..1] + [s[1]];
    PlayOne(p, w, s[..1]);
    PlayMore(p, w, s[..1], s[1]);
  }

  lemma PlayThree(p: Person, w: Worker, s: seq<Input>)
    requires |s| == 3
    ensures Play(p, w, s) == Then(Then(Then((p, w), s[0]), s[1]), s[2])
  {
    assert s == s[..2] + [s[2]];
    PlayTwo(p, w, s[..2]);
    PlayMore(p, w, s[..2], s[2]);
  }

  lemma PlayFour(p: Person, w: Worker, s: seq<Input>)
    requires |s| == 4
    ensures Play(p, w, s) == Then(Then(Then(Then((p, w), s[0]), s[1]), s[2]), s[3])
  {
    assert s == s[..3] + [s[3]];
    PlayThree(p, w, s[..3]);
    PlayMore(p, w, s[..3], s[3]);
  }

  /** A call that is answered, by a thread whose lease setting is a positive time. */
  predicate Calm(i: Input) {
    i.outcome == Answered && i.leaseIsPositive
  }

  predicate AllCalm(inputs: seq<Input>) {
    forall i :: i in inputs ==> Calm(i)
  }

  /** The claim succeeds for the thread's request. */
  predicate CanClaim(p: Person, id: RequestId, now: int) {
    && p.active && id in p.requests
    && (p.requests[id].status == Queued || p.requests[id].status == Running)
    && LeaseIsOpen(p, now)
  }

  /** What a thread that has claimed knows and holds. */
  ghost predicate Holds(p: Person, q: Person, w: Worker, v: Worker, until: int) {
    && w.requestId in p.requests && w.requestId in q.requests
    && var t := p.requests[w.requestId].analysisType;
    && v.claimed == Some(Claimed(Revision(p), DueAnalysis(t, CountRows(p.history, t, Revision(p)) + 1)))
    && v.token == w.token && v.requestId == w.requestId
    && q.claimToken == Some(w.token) && q.claimUntil == Some(until) && q.active && Revision(q) == Revision(p)
    && q.history == p.history && q.current == p.current
    && q.requests[w.requestId].status == Running && q.requests[w.requestId].analysisType == t
  }

  lemma ClaimStage(p: Person, w: Worker, i: Input)
    requires w.pc == Claiming && Calm(i) && CanClaim(p, w.requestId, i.now)
    ensures var (q, v) := Play(p, w, [i]);
            v.pc == FirstRenew && Holds(p, q, w, v, i.until) && v.counts == w.counts && v.unsettled == w.unsettled
  {
    PlayOne(p, w, [i]);
    ClaimHasOneDue(p, w.requestId, w.token, i.now, i.until);
  }

  /** From the first renewal to the persist call, by a fetched snapshot and a generated text or failure. */
  lemma GenerateStage(p: Person, q: Person, w: Worker, v: Worker, until: int, inputs: seq<Input>)
    requires v.pc == FirstRenew && Holds(p, q, w, v, until) && v.counts == NO_COUNTS
    requires |inputs| == 4 && Calm(inputs[0]) && Calm(inputs[1]) && Calm(inputs[2]) && Calm(inputs[3])
    requires inputs[1].snapshot == Fetched && inputs[2].generation != GenerationRaised
    ensures var (r, u) := Play(q, v, inputs);
            && Holds(p, r, w, u, inputs[3].until) && u.counts == NO_COUNTS.Attempted()
            && u.pc == PersistCall(AttemptFor(v.claimed.value,
                                     if inputs[2].generation == GeneratedText then Succeeded else Failed,
                                     inputs[2].completedAt))
  {
    PlayFour(q, v, inputs);
  }

  /** From the first renewal to the persist call, when the snapshot cannot be analysed. */
  lemma InvalidStage(p: Person, q: Person, w: Worker, v: Worker, until: int, inputs: seq<Input>)
    requires v.pc == FirstRenew && Holds(p, q, w, v, until) && v.counts == NO_COUNTS
    requires |inputs| == 4 && Calm(inputs[0]) && Calm(inputs[1]) && Calm(inputs[2]) && Calm(inputs[3])
    requires inputs[1].snapshot == InvalidSnapshot && inputs[3].generation != GenerationRaised
    ensures var (r, u) := Play(q, v, inputs);
            && Holds(p, r, w, u, inputs[2].until) && u.counts == NO_COUNTS.Attempted()
            && u.pc == PersistCall(AttemptFor(v.claimed.value, Failed, inputs[3].completedAt))
  {
    PlayFour(q, v, inputs);
  }

  /** The status an attempt ends with, its lease still running at the persist call or not. */
  function Kept(status: AttemptStatus, dbNow: int, until: int): AttemptStatus {
    if dbNow < until then status else Obsolete
  }

  /** What a finished thread leaves: its row, its request's status, the pointer for a success, and no lease. */
  ghost predicate Finished(p: Person, r: Person, w: Worker, u: Worker, actual: AttemptStatus) {
    && u.pc == Returned
    && u.counts == Counts(1, if actual == Succeeded then 1 else 0, if actual == Failed then 1 else 0,
                          if actual == Obsolete then 1 else 0, 0, 1)
    && w.requestId in p.requests && w.requestId in r.requests
    && var t := p.requests[w.requestId].analysisType;
    && r.claimToken == None && r.claimUntil == None
    && r.requests[w.requestId].status ==
       (match actual case Succeeded => RequestSucceeded case Failed => RequestFailed case Obsolete => RequestObsolete)
    && r.history == p.history + [Analysis(t, actual, Revision(p), CountRows(p.history, t, Revision(p)) + 1, w.token)]
    && (if actual == Succeeded then Repointed(p, r, t) else r.current == p.current)
  }

  /** The thread's one attempt is recorded, and its lease is still held. */
  ghost predicate Recorded(p: Person, r: Person, w: Worker, u: Worker, actual: AttemptStatus) {
    && u.pc == Summarize && u.claimed.Some? && u.token == w.token && u.requestId == w.requestId
    && u.counts == Counts(1, if actual == Succeeded then 1 else 0, if actual == Failed then 1 else 0,
                          if actual == Obsolete then 1 else 0, 0, 0)
    && w.requestId in p.requests && w.requestId in r.requests
    && var t := p.requests[w.requestId].analysisType;
    && r.claimToken == Some(w.token) && r.requests[w.requestId].status == Running
    && r.history == p.history + [Analysis(t, actual, Revision(p), CountRows(p.history, t, Revision(p)) + 1, w.token)]
    && (if actual == Succeeded then Repointed(p, r, t) else r.current == p.current)
  }

  lemma PersistStage(p: Person, q: Person, w: Worker, v: Worker, until: int, status: AttemptStatus, i: Input)
    requires Holds(p, q, w, v, until) && v.counts == NO_COUNTS.Attempted() && status != Obsolete
    requires v.pc.PersistCall? && v.pc.attempt == AttemptFor(v.claimed.value, status, v.pc.attempt.completedAt)
    requires Calm(i)
    ensures var (r, u) := Then((q, v), i); Recorded(p, r, w, u, Kept(status, i.dbNow, until))
  {
    PersistSaysExactly(q, v.pc.attempt, v.token, i.dbNow);
  }

  lemma CloseStage(p: Person, q: Person, w: Worker, v: Worker, actual: AttemptStatus, inputs: seq<Input>)
    requires Recorded(p, q, w, v, actual)
    requires |inputs| == 3 && Calm(inputs[0]) && Calm(inputs[1]) && Calm(inputs[2])
    ensures var (r, u) := Play(q, v, inputs); Finished(p, r, w, u, actual)
  {
    PlayThree(q, v, inputs);
  }

  lemma FinishStage(p: Person, q: Person, w: Worker, v: Worker, until: int, status: AttemptStatus, inputs: seq<Input>)
    requires Holds(p, q, w, v, until) && v.counts == NO_COUNTS.Attempted() && status != Obsolete
    requires v.pc.PersistCall? && v.pc.attempt == AttemptFor(v.claimed.value, status, v.pc.attempt.completedAt)
    requires |inputs| == 4 && Calm(inputs[0]) && Calm(inputs[1]) && Calm(inputs[2]) && Calm(inputs[3])
    ensures var (r, u) := Play(q, v, inputs); Finished(p, r, w, u, Kept(status, inputs[0].dbNow, until))
  {
    var (r, u) := Then((q, v), inputs[0]);
    PersistStage(p, q, w, v, until, status, inputs[0]);
    CloseStage(p, r, w, u, Kept(status, inputs[0].dbNow, until), inputs[1..]);
    assert inputs == inputs[..1] + inputs[1..];
    PlayOne(q, v, inputs[..1]);
    PlaysOn(q, v, inputs[..1], inputs[1..]);
  }

  /**
    A thread alone: it claims, renews, generates, renews again, persists, completes and releases. The
    attempt is kept while the renewed lease has not run out, and is published if it succeeded.
   */
  lemma OneThreadAnalyses(p: Person, w: Worker, inputs: seq<Input>)
    requires |inputs| == 9 && AllCalm(inputs)
    requires w.pc == Claiming && w.counts == NO_COUNTS && CanClaim(p, w.requestId, inputs[0].now)
    requires inputs[2].snapshot == Fetched && inputs[3].generation != GenerationRaised
    ensures var (r, u) := Play(p, w, inputs);
            var status := if inputs[3].generation == GeneratedText then Succeeded else Failed;
            Finished(p, r, w, u, Kept(status, inputs[5].dbNow, inputs[4].until))
  {
    var i := inputs;
    assert inputs == [i[0]] + (i[1..5] + i[5..]);
    ClaimStage(p, w, i[0]);
    PlaysOn(p, w, [i[0]], i[1..5] + i[5..]);
    var (q, v) := Play(p, w, [i[0]]);
    GenerateStage(p, q, w, v, i[0].until, i[1..5]);
    PlaysOn(q, v, i[1..5], i[5..]);
    var (q2, v2) := Play(q, v, i[1..5]);
    FinishStage(p, q2, w, v2, i[4].until, v2.pc.attempt.status, i[5..]);
  }

  /** A thread alone with a snapshot that cannot be analysed records a failed attempt. */
  lemma OneThreadRecordsAFailure(p: Person, w: Worker, inputs: seq<Input>)
    requires |inputs| == 9 && AllCalm(inputs)
    requires w.pc == Claiming && w.counts == NO_COUNTS && CanClaim(p, w.requestId, inputs[0].now)
    requires inputs[2].snapshot == InvalidSnapshot && inputs[4].generation != GenerationRaised
    ensures var (r, u) := Play(p, w, inputs); Finished(p, r, w, u, Kept(Failed, inputs[5].dbNow, inputs[3].until))
  {
    var i := inputs;
    assert inputs == [i[0]] + (i[1..5] + i[5..]);
    ClaimStage(p, w, i[0]);
    PlaysOn(p, w, [i[0]], i[1..5] + i[5..]);
    var (q, v) := Play(p, w, [i[0]]);
    InvalidStage(p, q, w, v, i[0].until, i[1..5]);
    PlaysOn(q, v, i[1..5], i[5..]);
    var (q2, v2) := Play(q, v, i[1..5]);
    FinishStage(p, q2, w, v2, i[3].until, v2.pc.attempt.status, i[5..]);
  }

  // ----- The other ways -----

  /** A refused thread asks whether its request still waits: then it claims again, else it retires it and returns. */
  lemma RefusedThreadWaitsOrLeaves(p: Person, w: Worker, i: Input, j: Input, k: Input)
    requires w.pc == Claiming && Calm(i) && Calm(j) && Calm(k) && !CanClaim(p, w.requestId, i.now)
    ensures var (q, v) := Play(p, w, [i, j]);
            && q == p.(claimUntil := q.claimUntil) && (p.claimUntil.Some? ==> q == p)
            && v == w.(pc := if p.active && w.requestId in p.requests && p.requests[w.requestId].status == Queued
                             then Claiming else ObsoleteCall)
    ensures var (q, v) := Play(p, w, [i, j, k]);
            Play(p, w, [i, j]).1.pc == ObsoleteCall ==>
              && v == w.(pc := Returned) && q.claimToken == p.claimToken && q.history == p.history
              && (w.requestId in q.requests ==> q.requests[w.requestId].status != Queued)
  {
    PlayTwo(p, w, [i, j]);
    PlayThree(p, w, [i, j, k]);
    ClaimSucceedsExactly(p, w.requestId, w.token, i.now, i.until);
  }

  /** What the except branch and the final release leave of a Person when both calls are answered. */
  ghost predicate Abandoned(p: Person, q: Person, w: Worker, v: Worker) {
    && v.pc == Raised && v.counts == w.counts && !v.unsettled
    && q.history == p.history && q.current == p.current
    && (if p.claimToken == Some(w.token) then q.claimToken == None && q.claimUntil == None
        else q.claimToken == p.claimToken && q.claimUntil == p.claimUntil)
    && q.requests == if p.claimToken == Some(w.token) && w.requestId in p.requests
                        && p.requests[w.requestId].status == Running
                     then p.requests[w.requestId := p.requests[w.requestId].(status := RequestFailed)]
                     else p.requests
  }

  /** A thread whose lease setting is no positive time fails its request before it does anything. */
  lemma BadSettingFails(p: Person, w: Worker, i: Input, j: Input, k: Input)
    requires w.pc == FirstRenew && w.claimed.Some? && !i.leaseIsPositive && Calm(j) && Calm(k)
    ensures var (q, v) := Play(p, w, [i, j, k]); Abandoned(p, q, w, v)
  {
    PlayThree(p, w, [i, j, k]);
  }

  /** A thread that summarises anything but one attempt without surprises fails its request and gives the lease up. */
  lemma SurpriseFails(p: Person, w: Worker, i: Input, j: Input, k: Input)
    requires w.pc == Summarize && w.claimed.Some? && Calm(j) && Calm(k)
    requires w.counts.attempted != 1 || w.counts.unexpected > 0
    ensures var (q, v) := Play(p, w, [i, j, k]); Abandoned(p, q, w, v)
  {
    PlayThree(p, w, [i, j, k]);
  }

  /** A renewal that is refused, or raises, ends the work on the claim; a raised one counts as a surprise. */
  lemma RefusedRenewalEndsTheWork(p: Person, w: Worker, i: Input)
    requires w.pc in {FirstRenew, InvalidRenew} && w.claimed.Some? && i.leaseIsPositive
    ensures var (_, v) := WorkerStep(p, w, i);
            v.pc == Summarize <==>
              || i.outcome != Answered || p.claimToken != Some(w.token) || !p.active
              || Revision(p) != w.claimed.value.inputRevision
    ensures WorkerStep(p, w, i).1.counts.unexpected == w.counts.unexpected + if i.outcome == Answered then 0 else 1
    ensures WorkerStep(p, w, i).1.pc == Summarize ==> WorkerStep(p, w, i).1.counts.attempted == w.counts.attempted
  {
  }

  /** Every exception inside the work is a surprise, and the thread goes on to summarise. */
  lemma ExceptionsAreSurprises(p: Person, w: Worker, i: Input)
    requires CanStep(w)
    requires || (w.pc == FetchSnapshot && i.snapshot == FetchRaised)
             || (w.pc in {BuildFailure, Generate} && i.generation == GenerationRaised)
             || (w.pc.PersistCall? && i.outcome != Answered)
    ensures var (_, v) := WorkerStep(p, w, i);
            v.pc == Summarize && v.counts.unexpected == w.counts.unexpected + 1
  {
  }

  /** The second renewal stops nothing: the persist call follows whatever it answered; a raise is a surprise. */
  lemma SecondRenewalStopsNothing(p: Person, w: Worker, i: Input)
    requires w.pc.SecondRenew? && w.claimed.Some?
    ensures var (q, v) := WorkerStep(p, w, i);
            && v.pc == PersistCall(w.pc.attempt)
            && v.counts == (if i.outcome == Answered then w.counts else w.counts.Unexpected())
            && (i.outcome == RaisedUncommitted ==> q == p)
  {
  }

  /** A raise of the claim, of a wait or of the retirement leaves the thread raised without a summary. */
  lemma RaisedBeforeTheClaim(p: Person, w: Worker, i: Input)
    requires BeforeClaim(w.pc) && i.outcome != Answered
    ensures var (q, v) := WorkerStep(p, w, i);
            && v == w.(pc := Raised, unsettled := v.unsettled) && (v.unsettled <==> w.unsettled || w.pc == Claiming)
            && (i.outcome == RaisedUncommitted ==> q == p)
  {
  }

  /** A call that raised has changed the Person exactly when its transaction had committed. */
  lemma RaisedCallsCommitOrNot(p: Person, w: Worker, i: Input)
    requires CanStep(w) && i.outcome != Answered
    ensures i.outcome == RaisedUncommitted ==> WorkerStep(p, w, i).0 == p
    ensures i.outcome == RaisedCommitted && w.pc != CheckWaiting ==>
              WorkerStep(p, w, i).0 == WorkerStep(p, w, i.(outcome := Answered)).0
  {
    if w.pc == Claiming && Claim(p, w.requestId, w.token, i.now, i.until).1.Some? {
      ClaimSucceedsExactly(p, w.requestId, w.token, i.now, i.until);
      ClaimHasOneDue(p, w.requestId, w.token, i.now, i.until);
    }
  }

  /** An answered release returns the summary, and counts a lease only if it was still the thread's. */
  lemma ReleaseReturns(p: Person, w: Worker, i: Input)
    requires CanStep(w) && w.pc == ReleaseCall && i.outcome == Answered
    ensures var (q, v) := WorkerStep(p, w, i);
            if p.claimToken == Some(w.token) then
              && q == p.(claimToken := None, claimUntil := None)
              && v == w.(pc := Returned, counts := w.counts.(released := w.counts.released + 1))
            else q == p && v == w.(pc := Returned)
  {
  }

  /** A raise while completing, or while releasing, leads through the except branch to the final release. */
  lemma RaisedAtTheEnd(p: Person, w: Worker, i: Input)
    requires CanStep(w) && i.outcome != Answered
    ensures w.pc.CompleteCall? || w.pc == ReleaseCall ==> WorkerStep(p, w, i).1 == w.(pc := FailCall)
    ensures w.pc == FailCall ==> WorkerStep(p, w, i).1 == w.(pc := FinalRelease)
    ensures w.pc == FinalRelease ==> WorkerStep(p, w, i).1 == w.(pc := Raised, unsettled := true)
  {
  }

  /** Events that are no call: a thread starts under a new token or is lost, or the Person's data change. */
  lemma OtherEventsSay(s: World, e: Event)
    requires !e.Act?
    ensures var p, q := s.person, Step(s, e).person;
            && q == p.(inputRevision := q.inputRevision, active := q.active, requests := q.requests)
            && q.inputRevision == (if e.SetRevision? then Some(e.revision) else p.inputRevision)
            && q.active == (if e.SetActive? then e.active else p.active)
            && (forall id :: id in q.requests <==> id in p.requests || (e.CreateRequest? && id == e.id))
            && (forall id :: id in p.requests && q.requests[id] != p.requests[id] <==>
                  e == Requeue(id) && id in p.requests && p.requests[id].status == RequestFailed)
            && (forall id :: id in p.requests ==>
                  q.requests[id] == p.requests[id] || q.requests[id] == p.requests[id].(status := Queued))
            && (e.CreateRequest? && e.id !in p.requests ==>
                  q.requests[e.id] == Request(e.analysisType, Queued, Revision(p), None))
    ensures var before, now := s.workers, Step(s, e).workers;
            && (forall k :: k in now <==> k in before || (e.Start? && k == e.worker && e.token !in s.issued))
            && (forall k :: k in before ==> now[k] == if e == Lose(k) then before[k].(pc := Lost) else before[k])
            && (forall k :: k in now && k !in before ==>
                  now[k].token == e.token && now[k].requestId == e.id && now[k].pc == Claiming && now[k].claimed == None
                  && now[k].counts == NO_COUNTS && !now[k].unsettled)
  {
  }

  // ----- Changing hands -----

  /** A step by which the lease gets another owner is a claim whose reading has reached the lease's end. */
  lemma LeaseIsTakenWhenOpen(p: Person, w: Worker, i: Input)
    requires CanStep(w)
    ensures var q := WorkerStep(p, w, i).0;
            q.claimToken != p.claimToken && q.claimToken.Some? ==>
              && w.pc == Claiming && q.claimToken == Some(w.token) && q.claimUntil == Some(i.until)
              && CanClaim(p, w.requestId, i.now)
  {
    ClaimSucceedsExactly(p, w.requestId, w.token, i.now, i.until);
  }

  lemma LeaseIsGivenUpByItsOwner(p: Person, w: Worker, i: Input)
    requires CanStep(w)
    ensures var q := WorkerStep(p, w, i).0;
            q.claimToken != p.claimToken && q.claimToken.None? ==>
              p.claimToken == Some(w.token) && w.pc in {ReleaseCall, FinalRelease} && q.claimUntil.None?
  {
  }

  lemma LeaseIsMovedByItsOwner(p: Person, w: Worker, i: Input)
    requires CanStep(w)
    ensures var q := WorkerStep(p, w, i).0;
            q.claimToken == p.claimToken && p.claimToken.Some? && p.claimUntil.Some? && q.claimUntil != p.claimUntil ==>
              p.claimToken == Some(w.token) && q.claimUntil == Some(i.until)
  {
  }

  ghost predicate HeldLeaseHasAnEnd(p: Person) {
    p.claimToken.Some? ==> p.claimUntil.Some?
  }

  lemma StepKeepsTheEnd(p: Person, w: Worker, i: Input)
    requires CanStep(w) && HeldLeaseHasAnEnd(p)
    ensures HeldLeaseHasAnEnd(WorkerStep(p, w, i).0)
  {
  }

  lemma {:induction false} RunKeepsTheEnd(s: World, events: seq<Event>)
    requires Initial(s)
    ensures HeldLeaseHasAnEnd(Run(s, events).person)
  {
    if events != [] {
      var init, e := events[..|events| - 1], events[|events| - 1];
      RunKeepsTheEnd(s, init);
      var now := Run(s, init);
      if e.Act? && e.worker in now.workers && CanStep(now.workers[e.worker]) {
        StepKeepsTheEnd(now.person, now.workers[e.worker], e.input);
      }
    }
  }

  /**
    Over every run: a held lease passes to another token only by that token's thread claiming at a
    reading that has reached the lease's end, for a queued or running request of an active Person;
    the new end is the one that claim asked for.
   */
  lemma LeaseChangesHandsAtItsEnd(s: World, events: seq<Event>, e: Event)
    requires Initial(s)
    ensures var now := Run(s, events);
            var p, q := now.person, Step(now, e).person;
            p.claimToken.Some? && q.claimToken.Some? && q.claimToken != p.claimToken ==>
              && e.Act? && e.worker in now.workers && now.workers[e.worker].pc == Claiming
              && q.claimToken == Some(now.workers[e.worker].token) && q.claimUntil == Some(e.input.until)
              && p.claimUntil.Some? && p.claimUntil.value <= e.input.now
              && CanClaim(p, now.workers[e.worker].requestId, e.input.now)
  {
    var now := Run(s, events);
    RunKeepsTheEnd(s, events);
    if e.Act? && e.worker in now.workers && CanStep(now.workers[e.worker]) {
      LeaseIsTakenWhenOpen(now.person, now.workers[e.worker], e.input);
    }
  }

  /** Over every run: only its owner gives a lease up, by releasing it, or moves its end, by renewing. */
  lemma LeaseIsItsOwners(s: World, events: seq<Event>, e: Event)
    requires Initial(s)
    ensures var now := Run(s, events);
            var p, q := now.person, Step(now, e).person;
            p.claimToken.Some?
            && (q.claimToken.None? || (q.claimToken == p.claimToken && q.claimUntil != p.claimUntil)) ==>
              && e.Act? && e.worker in now.workers && p.claimToken == Some(now.workers[e.worker].token)
              && (q.claimToken.None? ==>
                    q.claimUntil.None? && now.workers[e.worker].pc in {ReleaseCall, FinalRelease})
              && (q.claimToken.Some? ==> q.claimUntil == Some(e.input.until))
  {
    var now := Run(s, events);
    RunKeepsTheEnd(s, events);
    if e.Act? && e.worker in now.workers && CanStep(now.workers[e.worker]) {
      LeaseIsGivenUpByItsOwner(now.person, now.workers[e.worker], e.input);
      LeaseIsMovedByItsOwner(now.person, now.workers[e.worker], e.input);
    }
  }
}
