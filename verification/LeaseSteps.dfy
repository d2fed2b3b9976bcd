/** Every step of every thread, and every step of the environment, keeps the lease invariant. */
module LeaseSteps {
  import opened Common
  import opened LeaseQueries
  import opened LeaseProtocol
  import opened LeaseInvariant

  ghost predicate Kept(p: Person, w: Worker, q: Person, v: Worker) {
    && PersonInv(q) && WorkerInv(q, v)
    && Foreign(p, q, w.token)
    && v.token == w.token && v.requestId == w.requestId
  }

  lemma NothingIsForeign(p: Person, t: Token)
    ensures Foreign(p, p, t)
  {
  }

  /** What a successful claim establishes for its caller. */
  lemma ClaimEstablishes(p: Person, w: Worker, now: int, until: int)
    requires PersonInv(p) && WorkerInv(p, w) && w.pc == Claiming
    requires Claimable(p, w.requestId, now)
    ensures var (q, row) := Claim(p, w.requestId, w.token, now, until);
            && row.Some? && |DueFromRow(row.value)| == 1
            && WorkerInv(q, w.(pc := FirstRenew,
                               claimed := Some(Claimed(row.value.inputRevision, DueFromRow(row.value)[0]))))
  {
    ClaimHasOneDue(p, w.requestId, w.token, now, until);
    var (q, row) := Claim(p, w.requestId, w.token, now, until);
    var c := Claimed(row.value.inputRevision, DueFromRow(row.value)[0]);
    assert q.history == p.history;
    ClaimNumbersNext(q, c);
    var v := w.(pc := FirstRenew, claimed := Some(c));
    assert Bound(q, v);
    assert ClaimedInv(q, v);
  }

  /** A claim that raised leaves its thread knowing nothing, whether or not the lease was taken. */
  lemma RaisedClaimKeeps(q: Person, w: Worker)
    requires w.pc == Claiming && w.claimed == None && CountsInv(w)
    ensures WorkerInv(q, w.(pc := Raised, unsettled := true))
  {
  }

  lemma MissedClaimKeeps(p: Person, w: Worker, now: int, until: int)
    requires WorkerInv(p, w) && w.pc == Claiming
    requires !Claimable(p, w.requestId, now)
    ensures var (q, row) := Claim(p, w.requestId, w.token, now, until);
            row.None? && WorkerInv(q, w.(pc := CheckWaiting))
  {
    var q := Claim(p, w.requestId, w.token, now, until).0;
    LeaseEndIsFree(p, q, w);
  }

  lemma ClaimStepKeeps(p: Person, w: Worker, i: Input)
    requires PersonInv(p) && WorkerInv(p, w) && w.pc == Claiming
    ensures var (q, v) := ClaimStep(p, w, i); Kept(p, w, q, v)
  {
    ClaimKeeps(p, w.requestId, w.token, i.now, i.until);
    NothingIsForeign(p, w.token);
    var (q, v) := ClaimStep(p, w, i);
    if i.outcome != Answered {
      RaisedClaimKeeps(q, w);
    } else if Claimable(p, w.requestId, i.now) {
      ClaimEstablishes(p, w, i.now, i.until);
    } else {
      MissedClaimKeeps(p, w, i.now, i.until);
    }
  }

  lemma WaitStepKeeps(p: Person, w: Worker, i: Input)
    requires PersonInv(p) && WorkerInv(p, w) && w.pc == CheckWaiting
    ensures var (q, v) := WaitStep(p, w, i); Kept(p, w, q, v)
  {
    NothingIsForeign(p, w.token);
  }

  lemma ObsoleteStepKeeps(p: Person, w: Worker, i: Input)
    requires PersonInv(p) && WorkerInv(p, w) && w.pc == ObsoleteCall
    ensures var (q, v) := ObsoleteStep(p, w, i); Kept(p, w, q, v)
  {
    NothingIsForeign(p, w.token);
    ObsoleteKeeps(p, w.requestId, w.token);
  }

  /** The lease's end is nothing the protocol knows about a thread. */
  lemma LeaseEndIsFree(p: Person, q: Person, w: Worker)
    requires WorkerInv(p, w)
    requires q == p.(claimUntil := q.claimUntil)
    ensures WorkerInv(q, w)
  {
  }

  lemma RenewStepKeeps(p: Person, w: Worker, i: Input)
    requires PersonInv(p) && WorkerInv(p, w) && w.claimed.Some?
    ensures var (q, v, _) := RenewStep(p, w, i);
            && PersonInv(q) && Foreign(p, q, w.token) && WorkerInv(q, w)
            && v == w.(counts := v.counts) && v.counts == w.counts.(unexpected := v.counts.unexpected)
  {
    RenewKeeps(p, w.token, w.claimed.value.inputRevision, i.until);
    NothingIsForeign(p, w.token);
    var (q, v, _) := RenewStep(p, w, i);
    LeaseEndIsFree(p, q, w);
  }

  lemma AfterFirstRenew(q: Person, w: Worker, v: Worker)
    requires WorkerInv(q, w) && w.pc == FirstRenew
    requires v == w.(pc := v.pc, counts := v.counts) && v.counts == w.counts.(unexpected := v.counts.unexpected)
    requires v.pc == FetchSnapshot || v.pc == Summarize || v.pc == FailCall
    ensures WorkerInv(q, v)
  {
    assert ClaimedInv(q, v);
  }

  lemma FirstRenewStepKeeps(p: Person, w: Worker, i: Input)
    requires PersonInv(p) && WorkerInv(p, w) && w.pc == FirstRenew
    ensures var (q, v) := FirstRenewStep(p, w, i); Kept(p, w, q, v)
  {
    RenewStepKeeps(p, w, i);
    NothingIsForeign(p, w.token);
    var (q, v) := FirstRenewStep(p, w, i);
    AfterFirstRenew(q, w, v);
  }

  lemma AfterInvalidRenew(q: Person, w: Worker, v: Worker)
    requires WorkerInv(q, w) && w.pc == InvalidRenew
    requires v == w.(pc := v.pc, counts := v.counts)
    requires v.counts == w.counts.(attempted := v.counts.attempted, unexpected := v.counts.unexpected)
    requires (v.pc == BuildFailure && v.counts.attempted == 1) || (v.pc == Summarize && v.counts.attempted == 0)
    ensures WorkerInv(q, v)
  {
    assert ClaimedInv(q, v);
  }

  lemma InvalidRenewStepKeeps(p: Person, w: Worker, i: Input)
    requires PersonInv(p) && WorkerInv(p, w) && w.pc == InvalidRenew
    ensures var (q, v) := InvalidRenewStep(p, w, i); Kept(p, w, q, v)
  {
    RenewStepKeeps(p, w, i);
    var (q, v) := InvalidRenewStep(p, w, i);
    AfterInvalidRenew(q, w, v);
  }

  lemma AfterSecondRenew(q: Person, w: Worker, v: Worker)
    requires WorkerInv(q, w) && w.pc.SecondRenew?
    requires v == w.(pc := PersistCall(w.pc.attempt), counts := v.counts)
    requires v.counts == w.counts.(unexpected := v.counts.unexpected)
    ensures WorkerInv(q, v)
  {
    assert ClaimedInv(q, v);
  }

  lemma SecondRenewStepKeeps(p: Person, w: Worker, i: Input)
    requires PersonInv(p) && WorkerInv(p, w) && w.pc.SecondRenew?
    ensures var (q, v) := SecondRenewStep(p, w, i); Kept(p, w, q, v)
  {
    RenewStepKeeps(p, w, i);
    var (q, v) := SecondRenewStep(p, w, i);
    AfterSecondRenew(q, w, v);
  }

  lemma FetchStepKeeps(p: Person, w: Worker, i: Input)
    requires WorkerInv(p, w) && w.pc == FetchSnapshot
    ensures WorkerInv(p, FetchStep(w, i))
  {
    assert ClaimedInv(p, FetchStep(w, i));
  }

  lemma BuildFailureStepKeeps(p: Person, w: Worker, i: Input)
    requires WorkerInv(p, w) && w.pc == BuildFailure
    ensures WorkerInv(p, BuildFailureStep(w, i))
  {
    assert ClaimedInv(p, BuildFailureStep(w, i));
  }

  lemma GenerateStepKeeps(p: Person, w: Worker, i: Input)
    requires WorkerInv(p, w) && w.pc == Generate
    ensures WorkerInv(p, GenerateStep(w, i))
  {
    assert ClaimedInv(p, GenerateStep(w, i));
  }

  lemma SummarizeStepKeeps(p: Person, w: Worker)
    requires WorkerInv(p, w) && w.pc == Summarize
    ensures WorkerInv(p, SummarizeStep(w))
  {
    assert ClaimedInv(p, SummarizeStep(w));
  }

  lemma PersistAside(p: Person, q: Person, w: Worker, v: Worker)
    requires WorkerInv(p, w) && w.pc.PersistCall?
    requires v == w.(pc := Summarize, counts := v.counts)
    requires q.claimToken == p.claimToken && q.requests == p.requests
    requires v.counts == w.counts.Unexpected() || (exists actual :: v.counts == w.counts.Record(actual))
    requires v.counts.succeeded > 0 ==>
               Published(q.history, w.token, w.claimed.value.due.analysisType, w.claimed.value.inputRevision)
    ensures WorkerInv(q, v)
  {
    assert Owns(q, w.token) ==> Bound(p, w);
    assert ClaimedInv(q, v);
  }

  lemma PersistStepKeeps(p: Person, w: Worker, i: Input)
    requires PersonInv(p) && WorkerInv(p, w) && w.pc.PersistCall?
    ensures var (q, v) := PersistStep(p, w, i); Kept(p, w, q, v)
  {
    PersistKeeps(p, w.pc.attempt, w.token, i.dbNow, w.claimed.value);
    NothingIsForeign(p, w.token);
    var (q, v) := PersistStep(p, w, i);
    assert || v.counts == w.counts.Unexpected()
           || v.counts == w.counts.Record(Persist(p, w.pc.attempt, w.token, i.dbNow).1);
    PersistAside(p, q, w, v);
  }

  lemma RequestsAside(p: Person, q: Person, w: Worker, v: Worker)
    requires WorkerInv(p, w) && w.claimed.Some?
    requires Working(w.pc) && !BeforePersist(w.pc)
    requires v == w.(pc := v.pc)
    requires v.pc == ReleaseCall || v.pc == FailCall || v.pc == FinalRelease
    requires q == p.(requests := q.requests) && RequestsKept(p, q, w.token)
    requires w.requestId in p.requests ==>
               q.requests[w.requestId].(status := Queued) == p.requests[w.requestId].(status := Queued)
    ensures WorkerInv(q, v)
  {
    assert Owns(q, w.token) ==> Bound(p, w);
    assert ClaimedInv(q, v);
  }

  lemma CompleteStepKeeps(p: Person, w: Worker, i: Input)
    requires PersonInv(p) && WorkerInv(p, w) && w.pc.CompleteCall?
    ensures var (q, v) := CompleteStep(p, w, i); Kept(p, w, q, v)
  {
    if Owns(p, w.token) {
      assert Bound(p, w);
    }
    CompleteKeeps(p, w.requestId, w.token, w.pc.status);
    NothingIsForeign(p, w.token);
    var (q, v) := CompleteStep(p, w, i);
    assert q == p || q == Complete(p, w.requestId, w.token, w.pc.status);
    RequestsAside(p, q, w, v);
  }

  lemma FailStepKeeps(p: Person, w: Worker, i: Input)
    requires PersonInv(p) && WorkerInv(p, w) && w.pc == FailCall
    ensures var (q, v) := FailStep(p, w, i); Kept(p, w, q, v)
  {
    CompleteKeeps(p, w.requestId, w.token, RequestFailed);
    NothingIsForeign(p, w.token);
    var (q, v) := FailStep(p, w, i);
    RequestsAside(p, q, w, v);
  }

  lemma ReleaseAside(p: Person, q: Person, w: Worker, v: Worker)
    requires WorkerInv(p, w) && w.claimed.Some?
    requires w.pc == ReleaseCall || w.pc == FinalRelease
    requires v == w.(pc := v.pc, counts := v.counts, unsettled := v.unsettled)
    requires v.counts == w.counts.(released := v.counts.released)
    requires v.pc == FailCall || ((v.pc == Returned || v.pc == Raised) && (v.unsettled || !Owns(q, w.token)))
    requires v.pc == Returned ==> !Owns(q, w.token)
    requires q == p.(claimToken := q.claimToken, claimUntil := q.claimUntil)
    requires Owns(q, w.token) ==> Owns(p, w.token)
    ensures WorkerInv(q, v)
  {
    assert Owns(q, w.token) ==> Bound(p, w);
    assert ClaimedInv(q, v);
  }

  lemma ReleaseStepKeeps(p: Person, w: Worker, i: Input)
    requires PersonInv(p) && WorkerInv(p, w) && w.pc == ReleaseCall
    ensures var (q, v) := ReleaseStep(p, w, i); Kept(p, w, q, v)
  {
    ReleaseKeeps(p, w.token);
    NothingIsForeign(p, w.token);
    var (q, v) := ReleaseStep(p, w, i);
    ReleaseAside(p, q, w, v);
  }

  lemma FinalReleaseStepKeeps(p: Person, w: Worker, i: Input)
    requires PersonInv(p) && WorkerInv(p, w) && w.pc == FinalRelease
    ensures var (q, v) := FinalReleaseStep(p, w, i); Kept(p, w, q, v)
  {
    ReleaseKeeps(p, w.token);
    NothingIsForeign(p, w.token);
    var (q, v) := FinalReleaseStep(p, w, i);
    ReleaseAside(p, q, w, v);
  }

  lemma WorkerStepKeeps(p: Person, w: Worker, i: Input)
    requires PersonInv(p) && WorkerInv(p, w)
    requires CanStep(w)
    ensures var (q, v) := WorkerStep(p, w, i); Kept(p, w, q, v)
  {
    NothingIsForeign(p, w.token);
    match w.pc
    case Claiming => ClaimStepKeeps(p, w, i);
    case CheckWaiting => WaitStepKeeps(p, w, i);
    case ObsoleteCall => ObsoleteStepKeeps(p, w, i);
    case FirstRenew => FirstRenewStepKeeps(p, w, i);
    case FetchSnapshot => FetchStepKeeps(p, w, i);
    case InvalidRenew => InvalidRenewStepKeeps(p, w, i);
    case BuildFailure => BuildFailureStepKeeps(p, w, i);
    case Generate => GenerateStepKeeps(p, w, i);
    case SecondRenew(_) => SecondRenewStepKeeps(p, w, i);
    case PersistCall(_) => PersistStepKeeps(p, w, i);
    case Summarize => SummarizeStepKeeps(p, w);
    case CompleteCall(_) => CompleteStepKeeps(p, w, i);
    case ReleaseCall => ReleaseStepKeeps(p, w, i);
    case FailCall => FailStepKeeps(p, w, i);
    case FinalRelease => FinalReleaseStepKeeps(p, w, i);
    case Returned =>
    case Raised =>
    case Lost =>
  }

  lemma ActKeeps(s: World, k: WorkerId, i: Input)
    requires Inv(s)
    ensures Inv(Step(s, Act(k, i)))
  {
    var r := Step(s, Act(k, i));
    if r != s {
      var p, w := s.person, s.workers[k];
      var (q, v) := WorkerStep(p, w, i);
      WorkerStepKeeps(p, w, i);
      assert r.person == q && r.workers == s.workers[k := v];
      forall l | l in r.workers
        ensures WorkerInv(q, r.workers[l])
      {
        if l != k {
          OthersKeep(p, q, w.token, s.workers[l]);
        }
      }
      TokensKept(s, r, w.token);
    }
  }

  lemma TokensKept(s: World, r: World, t: Token)
    requires TokensInv(s) && t in s.issued && r.issued == s.issued
    requires Foreign(s.person, r.person, t)
    requires r.workers.Keys == s.workers.Keys
    requires forall l :: l in s.workers ==> r.workers[l].token == s.workers[l].token
    ensures TokensInv(r)
  {
    var p, q := s.person, r.person;
    if q.claimToken.Some? && q.claimToken.value != t {
      assert Owns(q, q.claimToken.value);
    }
    forall i | 0 <= i < |q.history|
      ensures q.history[i].writer in r.issued
    {
      if i < |p.history| && q.history != p.history {
        assert q.history[..|p.history|][i] == p.history[i];
      }
    }
  }

  /** A change of the Person that leaves lease, history, pointers and claimed requests alone. */
  ghost predicate Outside(p: Person, q: Person) {
    && q.claimToken == p.claimToken && q.history == p.history && q.current == p.current
    && (forall id :: id in p.requests ==>
          id in q.requests && q.requests[id].(status := Queued) == p.requests[id].(status := Queued)
          && (q.requests[id].status == p.requests[id].status || q.requests[id].status == Queued))
    && (forall id :: id in q.requests && id !in p.requests ==>
          q.requests[id].status == Queued && q.requests[id].claimedBy == None)
  }

  lemma OutsideKeeps(s: World, r: World)
    requires Inv(s)
    requires r == s.(person := r.person) && Outside(s.person, r.person)
    ensures Inv(r)
  {
    var p, q := s.person, r.person;
    SameHistoryKeeps(p, q);
    assert OneRunning(q.requests);
    assert SucceededIsPublished(q);
    forall l | l in r.workers
      ensures WorkerInv(q, r.workers[l])
    {
      var t := s.workers[l].token + "'";
      assert |t| != |s.workers[l].token|;
      assert Foreign(p, q, t);
      OthersKeep(p, q, t, s.workers[l]);
    }
  }

  lemma StartKeeps(s: World, k: WorkerId, id: RequestId, t: Token)
    requires Inv(s)
    ensures Inv(Step(s, Start(k, id, t)))
  {
    var r := Step(s, Start(k, id, t));
    if r != s {
      assert NeverSeen(s.person, t);
      assert WorkerInv(r.person, r.workers[k]);
    }
  }

  lemma LosingKeeps(p: Person, w: Worker)
    requires WorkerInv(p, w)
    ensures WorkerInv(p, w.(pc := Lost))
  {
    var v := w.(pc := Lost);
    if v.claimed.Some? {
      assert ClaimedInv(p, v);
    }
  }

  lemma LoseKeeps(s: World, k: WorkerId)
    requires Inv(s)
    ensures Inv(Step(s, Lose(k)))
  {
    var r := Step(s, Lose(k));
    if k in s.workers {
      LosingKeeps(s.person, s.workers[k]);
      NothingIsForeign(s.person, s.workers[k].token);
      TokensKept(s, r, s.workers[k].token);
    }
  }

  lemma RequestEventsKeep(s: World, e: Event)
    requires Inv(s) && (e.CreateRequest? || e.Requeue?)
    ensures Inv(Step(s, e))
  {
    OutsideKeeps(s, Step(s, e));
  }

  lemma StepKeepsInv(s: World, e: Event)
    requires Inv(s)
    ensures Inv(Step(s, e))
  {
    match e
    case Start(k, id, t) => StartKeeps(s, k, id, t);
    case Act(k, i) => ActKeeps(s, k, i);
    case Lose(k) => LoseKeeps(s, k);
    case SetRevision(_) => OutsideKeeps(s, Step(s, e));
    case SetActive(_) => OutsideKeeps(s, Step(s, e));
    case CreateRequest(_, _) => RequestEventsKeep(s, e);
    case Requeue(_) => RequestEventsKeep(s, e);
  }

  /** The invariant holds after any interleaving whatsoever. */
  lemma {:induction false} RunKeepsInv(s: World, events: seq<Event>)
    requires Inv(s)
    ensures Inv(Run(s, events))
  {
    if events != [] {
      RunKeepsInv(s, events[..|events| - 1]);
      StepKeepsInv(Run(s, events[..|events| - 1]), events[|events| - 1]);
    }
  }

  lemma InitialInv(s: World)
    requires Initial(s)
    ensures Inv(s)
  {
  }
}
