/** The promises of the lease protocol, for every initial Person and every interleaving of events. */
module LeaseSafety {
  import opened Common
  import opened LeaseQueries
  import opened LeaseProtocol
  import opened LeaseInvariant
  import opened LeaseSteps

  lemma ReachableInv(s: World, events: seq<Event>)
    requires Initial(s)
    ensures Inv(Run(s, events))
  {
    InitialInv(s);
    RunKeepsInv(s, events);
  }

  // ----- Fencing -----

  /** A token nobody can take the lease with any more. */
  ghost predicate Spent(s: World, t: Token) {
    && t in s.issued && !Owns(s.person, t)
    && (forall k :: k in s.workers && s.workers[k].token == t ==> !BeforeClaim(s.workers[k].pc))
  }

  /** Only a thread still claiming can make its own token the owner. */
  lemma StepMakesNoOwner(p: Person, w: Worker, i: Input, t: Token)
    requires CanStep(w)
    requires !Owns(p, t)
    requires w.token == t ==> !BeforeClaim(w.pc)
    ensures !Owns(WorkerStep(p, w, i).0, t)
    ensures WorkerStep(p, w, i).1.token == w.token
    ensures !BeforeClaim(w.pc) ==> !BeforeClaim(WorkerStep(p, w, i).1.pc)
  {
  }

  lemma StepKeepsSpent(s: World, e: Event, t: Token)
    requires Spent(s, t)
    ensures Spent(Step(s, e), t)
  {
    if e.Act? && e.worker in s.workers && CanStep(s.workers[e.worker]) {
      StepMakesNoOwner(s.person, s.workers[e.worker], e.input, t);
    }
  }

  lemma {:induction false} RunKeepsSpent(s: World, events: seq<Event>, t: Token)
    requires Spent(s, t)
    ensures Spent(Run(s, events), t)
  {
    if events != [] {
      var init := events[..|events| - 1];
      RunKeepsSpent(s, init, t);
      StepKeepsSpent(Run(s, init), events[|events| - 1], t);
    }
  }

  lemma OwnerIsPastItsClaim(s: World, t: Token)
    requires Inv(s) && Owns(s.person, t)
    ensures t in s.issued
    ensures forall k :: k in s.workers && s.workers[k].token == t ==> !BeforeClaim(s.workers[k].pc)
  {
    forall k | k in s.workers && s.workers[k].token == t
      ensures !BeforeClaim(s.workers[k].pc)
    {
      assert WorkerInv(s.person, s.workers[k]);
    }
  }

  lemma StepKeepsPastClaims(s: World, e: Event, t: Token)
    requires t in s.issued
    requires forall k :: k in s.workers && s.workers[k].token == t ==> !BeforeClaim(s.workers[k].pc)
    requires !Owns(Step(s, e).person, t)
    ensures Spent(Step(s, e), t)
  {
    if e.Act? && e.worker in s.workers && CanStep(s.workers[e.worker]) {
      var w := s.workers[e.worker];
      assert WorkerStep(s.person, w, e.input).1.token == w.token;
      assert !BeforeClaim(w.pc) ==> !BeforeClaim(WorkerStep(s.person, w, e.input).1.pc);
    }
  }

  /** The Person after a fenced call: at most one obsolete row and the last-attempt time are new. */
  ghost predicate OnlyAnObsoleteRow(p: Person, q: Person, t: Token) {
    && q == p.(lastAttemptAt := q.lastAttemptAt, history := q.history)
    && (q == p || (&& |q.history| == |p.history| + 1 && p.history <= q.history
                   && q.history[|p.history|].status == Obsolete && q.history[|p.history|].writer == t))
  }

  lemma FencedStep(p: Person, w: Worker, i: Input)
    requires CanStep(w) && !BeforeClaim(w.pc) && !Owns(p, w.token)
    ensures OnlyAnObsoleteRow(p, WorkerStep(p, w, i).0, w.token)
  {
    FencedCalls(p, w.token);
    if w.pc.PersistCall? {
      var q := Persist(p, w.pc.attempt, w.token, i.dbNow).0;
      assert q.history == p.history + [Row(w.pc.attempt, Obsolete, w.token)];
    }
  }

  lemma SpentThreadIsFenced(s: World, k: WorkerId, i: Input)
    requires k in s.workers && Spent(s, s.workers[k].token)
    ensures OnlyAnObsoleteRow(s.person, Step(s, Act(k, i)).person, s.workers[k].token)
  {
    if CanStep(s.workers[k]) {
      FencedStep(s.person, s.workers[k], i);
    }
  }

  /**
    Once a step takes the lease away from a token, by release or by another claim, then
    after any further events the token does not own the lease, and whatever its thread
    does next changes nothing but the last-attempt time and one obsolete history row.
   */
  lemma LeaseFencing(s: World, before: seq<Event>, e: Event, after: seq<Event>, t: Token, k: WorkerId, i: Input)
    requires Initial(s)
    requires Owns(Run(s, before).person, t) && !Owns(Step(Run(s, before), e).person, t)
    ensures var later := Run(Step(Run(s, before), e), after);
            && !Owns(later.person, t)
            && (k in later.workers && later.workers[k].token == t ==>
                  OnlyAnObsoleteRow(later.person, Step(later, Act(k, i)).person, t))
  {
    var now := Run(s, before);
    ReachableInv(s, before);
    OwnerIsPastItsClaim(now, t);
    StepKeepsPastClaims(now, e, t);
    RunKeepsSpent(Step(now, e), after, t);
    var later := Run(Step(now, e), after);
    if k in later.workers && later.workers[k].token == t {
      SpentThreadIsFenced(later, k, i);
    }
  }

  // ----- Publication -----

  /**
    A step that changes the pointers is a persist call under the current, unexpired token at the
    revision its claim saw.
   */
  ghost predicate PublishesUnderLease(s: World, e: Event, r: World) {
    && e.Act? && e.worker in s.workers
    && var p, w := s.person, s.workers[e.worker];
    && w.pc.PersistCall? && w.claimed.Some?
    && Owns(p, w.token) && Unexpired(p, e.input.dbNow) && p.active
    && Revision(p) == w.claimed.value.inputRevision
    && r.person.history == p.history + [Analysis(w.claimed.value.due.analysisType, Succeeded,
                                          w.claimed.value.inputRevision, w.claimed.value.due.attemptNumber, w.token)]
    && r.person.current == OtherTypes(p.current, w.claimed.value.due.analysisType)
                           + {Pointer(w.claimed.value.due.analysisType, |p.history|)}
  }

  lemma PublishingStep(p: Person, w: Worker, i: Input)
    requires CanStep(w)
    requires w.pc.PersistCall? ==> AttemptOf(w.pc.attempt, w.claimed.value)
    ensures var q := WorkerStep(p, w, i).0;
            q.current != p.current ==>
              && w.pc.PersistCall? && ClaimOwned(p, w.token, w.claimed.value.inputRevision, i.dbNow)
              && w.pc.attempt.status == Succeeded
              && q == PersistAndPublish(p, w.pc.attempt, w.token, i.dbNow).0
  {
  }

  lemma ThreadKnowsItsAttempt(s: World, k: WorkerId)
    requires Inv(s) && k in s.workers
    ensures CanStep(s.workers[k])
    ensures var w := s.workers[k]; w.pc.PersistCall? ==> AttemptOf(w.pc.attempt, w.claimed.value)
  {
    assert WorkerInv(s.person, s.workers[k]);
  }

  lemma PublishOnlyUnderLease(s: World, events: seq<Event>, e: Event)
    requires Initial(s)
    ensures var now := Run(s, events);
            Step(now, e).person.current != now.person.current ==> PublishesUnderLease(now, e, Step(now, e))
  {
    var now := Run(s, events);
    ReachableInv(s, events);
    if e.Act? && e.worker in now.workers {
      ThreadKnowsItsAttempt(now, e.worker);
      PublishingStep(now.person, now.workers[e.worker], e.input);
    }
  }

  /** Per type there is at most one current pointer, and it targets the newest succeeded analysis of that type. */
  lemma CurrentPointers(s: World, events: seq<Event>)
    requires Initial(s)
    ensures var p := Run(s, events).person;
            && (forall c, d :: c in p.current && d in p.current && c.analysisType == d.analysisType ==> c == d)
            && CurrentIsNewest(p)
  {
    ReachableInv(s, events);
    var p := Run(s, events).person;
    forall c, d | c in p.current && d in p.current && c.analysisType == d.analysisType
      ensures c == d
    {
      assert IsSuccess(p.history[d.target], c.analysisType);
      assert IsSuccess(p.history[c.target], d.analysisType);
    }
  }

  // ----- Revisions of successive current analyses -----

  predicate RevisionNeverDecreases(s: World, events: seq<Event>) {
    forall i :: 0 <= i < |events| && events[i].SetRevision? ==>
                  events[i].revision >= Revision(Run(s, events[..i]).person)
  }

  ghost predicate SuccessesAscend(p: Person) {
    && (forall i :: 0 <= i < |p.history| && p.history[i].status == Succeeded ==>
                      p.history[i].inputRevision <= Revision(p))
    && (forall i, j :: 0 <= i < j < |p.history| && p.history[i].status == Succeeded && p.history[j].status == Succeeded
          ==> p.history[i].inputRevision <= p.history[j].inputRevision)
  }

  lemma RowOfStep(p: Person, w: Worker, i: Input)
    requires CanStep(w)
    ensures var q := WorkerStep(p, w, i).0;
            && Revision(q) == Revision(p)
            && (q.history == p.history
                || (|q.history| == |p.history| + 1 && p.history <= q.history
                    && (q.history[|p.history|].status == Succeeded ==>
                          q.history[|p.history|].inputRevision == Revision(p))))
  {
  }

  lemma GrowthKeepsAscent(p: Person, q: Person)
    requires SuccessesAscend(p)
    requires Revision(q) >= Revision(p)
    requires q.history == p.history
             || (|q.history| == |p.history| + 1 && p.history <= q.history
                 && (q.history[|p.history|].status == Succeeded ==>
                       q.history[|p.history|].inputRevision == Revision(p)))
    ensures SuccessesAscend(q)
  {
    forall i | 0 <= i < |p.history|
      ensures p.history[i] == q.history[i]
    {
    }
  }

  lemma StepKeepsAscent(s: World, e: Event)
    requires SuccessesAscend(s.person)
    requires e.SetRevision? ==> e.revision >= Revision(s.person)
    ensures SuccessesAscend(Step(s, e).person)
  {
    if e.Act? && e.worker in s.workers && CanStep(s.workers[e.worker]) {
      RowOfStep(s.person, s.workers[e.worker], e.input);
      GrowthKeepsAscent(s.person, Step(s, e).person);
    } else {
      GrowthKeepsAscent(s.person, Step(s, e).person);
    }
  }

  lemma {:induction false} SuccessesAscendOnRuns(s: World, events: seq<Event>)
    requires Initial(s) && RevisionNeverDecreases(s, events)
    ensures SuccessesAscend(Run(s, events).person)
  {
    if events != [] {
      var init, e := events[..|events| - 1], events[|events| - 1];
      assert forall i :: 0 <= i < |init| ==> init[..i] == events[..i] && init[i] == events[i];
      SuccessesAscendOnRuns(s, init);
      StepKeepsAscent(Run(s, init), e);
    }
  }

  lemma StepAppends(s: World, e: Event)
    ensures s.person.history <= Step(s, e).person.history
  {
    if e.Act? && e.worker in s.workers && CanStep(s.workers[e.worker]) {
      RowOfStep(s.person, s.workers[e.worker], e.input);
    }
  }

  lemma {:induction false} HistoryIsAppendOnly(s: World, events: seq<Event>)
    ensures s.person.history <= Run(s, events).person.history
  {
    if events != [] {
      var init := events[..|events| - 1];
      HistoryIsAppendOnly(s, init);
      StepAppends(Run(s, init), events[|events| - 1]);
    }
  }

  lemma NewerPointerIsNoOlder(p: Person, q: Person, c: Pointer, d: Pointer)
    requires CurrentIsNewest(p) && CurrentIsNewest(q) && SuccessesAscend(q)
    requires p.history <= q.history
    requires c in p.current && d in q.current && c.analysisType == d.analysisType
    ensures c.target <= d.target < |q.history| && c.target < |p.history|
    ensures p.history[c.target].inputRevision <= q.history[d.target].inputRevision
  {
    assert p.history[c.target] == q.history[c.target];
    assert IsSuccess(q.history[c.target], d.analysisType);
  }

  /**
    While the Person's revision never decreases, the current analysis of a type never goes back to
    an older revision.
   */
  lemma CurrentNeverGoesBack(s: World, first: seq<Event>, second: seq<Event>, c: Pointer, d: Pointer)
    requires Initial(s) && RevisionNeverDecreases(s, first + second)
    requires c in Run(s, first).person.current && d in Run(s, first + second).person.current
    requires c.analysisType == d.analysisType
    ensures var p, q := Run(s, first).person, Run(s, first + second).person;
            c.target <= d.target < |q.history| && c.target < |p.history|
            && p.history[c.target].inputRevision <= q.history[d.target].inputRevision
  {
    ReachableInv(s, first);
    ReachableInv(s, first + second);
    RunSplits(s, first, second);
    HistoryIsAppendOnly(Run(s, first), second);
    SuccessesAscendOnRuns(s, first + second);
    NewerPointerIsNoOlder(Run(s, first).person, Run(s, first + second).person, c, d);
  }

  // ----- Attempt numbers -----

  /** Kept attempts of one series are numbered strictly upwards, and no claim ever leaves two rows. */
  lemma AttemptNumbersIncrease(s: World, events: seq<Event>)
    requires Initial(s)
    ensures NumbersIncrease(Run(s, events).person.history)
    ensures OneRowPerClaim(Run(s, events).person.history)
  {
    ReachableInv(s, events);
  }

  // ----- Requests -----

  /**
    A request is succeeded only when the claim that ran it published an analysis of its type at its
    recorded revision.
   */
  lemma SucceededMeansPublished(s: World, events: seq<Event>, id: RequestId)
    requires Initial(s)
    requires id in Run(s, events).person.requests
    requires Run(s, events).person.requests[id].status == RequestSucceeded
    ensures var p := Run(s, events).person; var r := p.requests[id];
            r.claimedBy.Some? && Published(p.history, r.claimedBy.value, r.analysisType, r.inputRevision)
  {
    ReachableInv(s, events);
  }

  lemma AtMostOneRunningPerType(s: World, events: seq<Event>)
    requires Initial(s)
    ensures OneRunning(Run(s, events).person.requests)
  {
    ReachableInv(s, events);
  }

  lemma WorkerStepKeepsTerminal(p: Person, w: Worker, i: Input, id: RequestId)
    requires CanStep(w)
    requires id in p.requests && Terminal(p.requests[id].status)
    ensures var q := WorkerStep(p, w, i).0; id in q.requests && q.requests[id].status == p.requests[id].status
  {
  }

  /** Nothing but an operator's requeue ever changes a terminal status. */
  lemma {:induction false} TerminalStatusStays(s: World, events: seq<Event>, id: RequestId)
    requires id in s.person.requests && Terminal(s.person.requests[id].status)
    requires Requeue(id) !in events
    ensures id in Run(s, events).person.requests
    ensures Run(s, events).person.requests[id].status == s.person.requests[id].status
  {
    if events != [] {
      var init, e := events[..|events| - 1], events[|events| - 1];
      TerminalStatusStays(s, init, id);
      var now := Run(s, init);
      if e.Act? && e.worker in now.workers && CanStep(now.workers[e.worker]) {
        WorkerStepKeepsTerminal(now.person, now.workers[e.worker], e.input, id);
      }
    }
  }

  // ----- Leaving -----

  /**
    A thread that returned never holds the lease, nor does one that raised, unless its
    claim call or its last release call was the call that raised. Two live threads never
    hold it at once.
   */
  lemma FinishedThreadsHoldNothing(s: World, events: seq<Event>, k: WorkerId)
    requires Initial(s)
    requires k in Run(s, events).workers
    ensures var r := Run(s, events); var w := r.workers[k];
            && (w.pc == Returned || (w.pc == Raised && !w.unsettled) ==> !Owns(r.person, w.token))
            && (Owns(r.person, w.token) ==>
                  forall l :: l in r.workers && l != k ==> !Owns(r.person, r.workers[l].token))
  {
    ReachableInv(s, events);
    var r := Run(s, events);
    assert WorkerInv(r.person, r.workers[k]);
  }

  /** A thread completes its request only after recording exactly one attempt, with that attempt's status. */
  lemma CompletionMatchesTheRecord(s: World, events: seq<Event>, k: WorkerId)
    requires Initial(s)
    requires k in Run(s, events).workers && Run(s, events).workers[k].pc.CompleteCall?
    ensures var w := Run(s, events).workers[k];
            && w.counts.attempted == 1 && w.counts.unexpected == 0
            && w.counts.succeeded + w.counts.failed + w.counts.obsolete == 1
            && (w.pc.status == RequestSucceeded <==> w.counts.succeeded == 1)
            && (w.pc.status == RequestFailed <==> w.counts.failed == 1)
            && (w.pc.status == RequestObsolete <==> w.counts.obsolete == 1)
  {
    ReachableInv(s, events);
    var r := Run(s, events);
    assert WorkerInv(r.person, r.workers[k]);
  }
}
