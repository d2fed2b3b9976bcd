/** What every step of the lease protocol keeps. */
module LeaseInvariant {
  import opened Common
  import opened LeaseQueries
  import opened LeaseProtocol

  // ----- What holds of the Person -----

  ghost predicate Published(history: seq<Analysis>, token: Token, t: AnalysisType, revision: int) {
    exists i :: 0 <= i < |history| && history[i].writer == token && history[i].status == Succeeded
                && Matches(history[i], t, revision)
  }

  ghost predicate OneRunning(requests: map<RequestId, Request>) {
    forall a, b :: a in requests && b in requests
                   && requests[a].status == Running && requests[b].status == Running
                   && requests[a].analysisType == requests[b].analysisType
                   ==> a == b
  }

  /** A succeeded request was published by the claim that ran it, at the revision the request records. */
  ghost predicate SucceededIsPublished(p: Person) {
    forall id :: id in p.requests && p.requests[id].status == RequestSucceeded ==>
      var r := p.requests[id];
      r.claimedBy.Some? && Published(p.history, r.claimedBy.value, r.analysisType, r.inputRevision)
  }

  predicate IsSuccess(a: Analysis, t: AnalysisType) {
    a.status == Succeeded && a.analysisType == t
  }

  ghost predicate HasSuccess(h: seq<Analysis>, t: AnalysisType) {
    exists i :: 0 <= i < |h| && IsSuccess(h[i], t)
  }

  ghost predicate HasPointer(current: set<Pointer>, t: AnalysisType) {
    exists c :: c in current && c.analysisType == t
  }

  /** The pointer of a type targets the newest succeeded analysis of that type, whenever there is one. */
  ghost predicate CurrentIsNewest(p: Person) {
    && (forall c :: c in p.current ==>
          && c.target < |p.history| && IsSuccess(p.history[c.target], c.analysisType)
          && (forall j :: c.target < j < |p.history| ==> !IsSuccess(p.history[j], c.analysisType)))
    && (forall t :: HasSuccess(p.history, t) ==> HasPointer(p.current, t))
  }

  predicate SameSeries(a: Analysis, b: Analysis) {
    a.analysisType == b.analysisType && a.inputRevision == b.inputRevision
  }

  ghost predicate NumbersBounded(h: seq<Analysis>) {
    forall i :: 0 <= i < |h| && h[i].status != Obsolete ==>
      1 <= h[i].attemptNumber <= CountRows(h[..i + 1], h[i].analysisType, h[i].inputRevision)
  }

  ghost predicate NumbersIncrease(h: seq<Analysis>) {
    forall i, j :: 0 <= i < j < |h| && h[i].status != Obsolete && h[j].status != Obsolete && SameSeries(h[i], h[j])
      ==> h[i].attemptNumber < h[j].attemptNumber
  }

  ghost predicate OneRowPerClaim(h: seq<Analysis>) {
    forall i, j :: 0 <= i < j < |h| ==> h[i].writer != h[j].writer
  }

  ghost predicate PersonInv(p: Person) {
    && OneRunning(p.requests)
    && SucceededIsPublished(p)
    && CurrentIsNewest(p)
    && NumbersBounded(p.history)
    && NumbersIncrease(p.history)
    && OneRowPerClaim(p.history)
  }

  // ----- What holds between the Person and one thread -----

  ghost predicate NoRow(h: seq<Analysis>, token: Token) {
    forall i :: 0 <= i < |h| ==> h[i].writer != token
  }

  ghost predicate NeverSeen(p: Person, token: Token) {
    && !Owns(p, token)
    && NoRow(p.history, token)
    && (forall id :: id in p.requests ==> p.requests[id].claimedBy != Some(token))
  }

  /** While the lease is held, the request is still the one the claim set running. */
  ghost predicate Bound(p: Person, w: Worker)
    requires w.claimed.Some?
  {
    && w.requestId in p.requests
    && p.requests[w.requestId].analysisType == w.claimed.value.due.analysisType
    && p.requests[w.requestId].inputRevision == w.claimed.value.inputRevision
    && p.requests[w.requestId].claimedBy == Some(w.token)
  }

  /** The number fixed at claim time is still the next one of its series. */
  ghost predicate NextNumber(h: seq<Analysis>, c: Claimed) {
    && 1 <= c.due.attemptNumber <= CountRows(h, c.due.analysisType, c.inputRevision) + 1
    && (forall i :: 0 <= i < |h| && h[i].status != Obsolete && Matches(h[i], c.due.analysisType, c.inputRevision)
          ==> h[i].attemptNumber < c.due.attemptNumber)
  }

  predicate AttemptOf(a: Attempt, c: Claimed) {
    && a.analysisType == c.due.analysisType && a.inputRevision == c.inputRevision
    && a.attemptNumber == c.due.attemptNumber && a.status != Obsolete
  }

  ghost predicate ClaimedInv(p: Person, w: Worker)
    requires w.claimed.Some?
  {
    var c := w.claimed.value;
    && (Working(w.pc) && Owns(p, w.token) ==> Bound(p, w))
    && (BeforePersist(w.pc) ==> NoRow(p.history, w.token))
    && (BeforePersist(w.pc) && Owns(p, w.token) ==> NextNumber(p.history, c))
    && (w.pc.SecondRenew? ==> AttemptOf(w.pc.attempt, c))
    && (w.pc.PersistCall? ==> AttemptOf(w.pc.attempt, c))
    && (w.counts.succeeded > 0 ==> Published(p.history, w.token, c.due.analysisType, c.inputRevision))
  }

  predicate CountsInv(w: Worker) {
    && (BeforeClaim(w.pc) ==> w.counts == NO_COUNTS)
    && (BeforePersist(w.pc) ==> w.counts.succeeded == w.counts.failed == w.counts.obsolete == 0)
    && (w.pc == FirstRenew || w.pc == FetchSnapshot || w.pc == InvalidRenew || w.pc == Generate ==>
          w.counts.attempted == 0)
    && (w.pc == BuildFailure || w.pc.SecondRenew? || w.pc.PersistCall? ==> w.counts.attempted == 1)
    && w.counts.attempted <= 1
    && (w.pc == Summarize && w.counts.attempted == 1 && w.counts.unexpected == 0 ==> Recorded(w.counts))
    && (w.pc.CompleteCall? ==> Recorded(w.counts) && w.pc.status == TerminalStatus(w.counts)
                               && w.counts.attempted == 1 && w.counts.unexpected == 0)
  }

  /** Exactly one attempt was recorded. */
  predicate Recorded(c: Counts) {
    c.succeeded + c.failed + c.obsolete == 1
  }

  ghost predicate WorkerInv(p: Person, w: Worker) {
    && (BeforeClaim(w.pc) ==> w.claimed == None && NeverSeen(p, w.token))
    && (Working(w.pc) ==> w.claimed.Some?)
    && (w.claimed.Some? ==> ClaimedInv(p, w))
    && CountsInv(w)
    && (w.pc == Returned ==> !Owns(p, w.token))
    && (w.pc == Raised && !w.unsettled ==> !Owns(p, w.token))
  }

  // ----- What holds of tokens -----

  ghost predicate TokensInv(s: World) {
    && (forall k :: k in s.workers ==> s.workers[k].token in s.issued)
    && (forall k, l :: k in s.workers && l in s.workers && k != l ==> s.workers[k].token != s.workers[l].token)
    && (s.person.claimToken.Some? ==> s.person.claimToken.value in s.issued)
    && (forall i :: 0 <= i < |s.person.history| ==> s.person.history[i].writer in s.issued)
    && (forall id :: id in s.person.requests && s.person.requests[id].claimedBy.Some?
          ==> s.person.requests[id].claimedBy.value in s.issued)
  }

  ghost predicate Inv(s: World) {
    && PersonInv(s.person)
    && TokensInv(s)
    && (forall k :: k in s.workers ==> WorkerInv(s.person, s.workers[k]))
  }

  // ----- What a step by one token leaves to the others -----

  ghost predicate HistoryGrows(p: Person, q: Person, t: Token) {
    || q.history == p.history
    || (|q.history| == |p.history| + 1
        && q.history[..|p.history|] == p.history
        && q.history[|p.history|].writer == t
        && (q.history[|p.history|].status == Obsolete || Owns(p, t)))
  }

  ghost predicate RequestsKept(p: Person, q: Person, t: Token) {
    && (forall id :: id in p.requests ==> id in q.requests)
    && (forall id :: id in p.requests ==>
          q.requests[id].analysisType == p.requests[id].analysisType
          && ((q.requests[id].inputRevision == p.requests[id].inputRevision
               && q.requests[id].claimedBy == p.requests[id].claimedBy)
              || (q.requests[id].claimedBy == Some(t) && Owns(q, t))))
    && (forall id :: id in q.requests && id !in p.requests ==> q.requests[id].claimedBy == None)
  }

  ghost predicate Foreign(p: Person, q: Person, t: Token) {
    && (forall u :: u != t && Owns(q, u) ==> Owns(p, u))
    && HistoryGrows(p, q, t)
    && RequestsKept(p, q, t)
  }

  lemma CountAppend(h: seq<Analysis>, a: Analysis, t: AnalysisType, revision: int)
    ensures CountRows(h + [a], t, revision) == CountRows(h, t, revision) + if Matches(a, t, revision) then 1 else 0
  {
    assert (h + [a])[..|h + [a]| - 1] == h;
  }

  lemma PublishedStays(p: Person, q: Person, t: Token, token: Token, a: AnalysisType, revision: int)
    requires HistoryGrows(p, q, t)
    requires Published(p.history, token, a, revision)
    ensures Published(q.history, token, a, revision)
  {
    var i :| 0 <= i < |p.history| && p.history[i].writer == token && p.history[i].status == Succeeded
             && Matches(p.history[i], a, revision);
    if q.history != p.history {
      assert q.history[..|p.history|][i] == p.history[i];
    }
    assert q.history[i] == p.history[i];
  }

  lemma NextNumberStays(p: Person, q: Person, t: Token, c: Claimed)
    requires HistoryGrows(p, q, t) && !Owns(p, t)
    requires NextNumber(p.history, c)
    ensures NextNumber(q.history, c)
  {
    if q.history != p.history {
      var a := q.history[|p.history|];
      assert q.history == p.history + [a];
      CountAppend(p.history, a, c.due.analysisType, c.inputRevision);
    }
  }

  /** A step by another token keeps everything the protocol knows about a thread. */
  lemma OthersKeep(p: Person, q: Person, t: Token, v: Worker)
    requires WorkerInv(p, v)
    requires Foreign(p, q, t) && v.token != t
    ensures WorkerInv(q, v)
  {
    if q.history != p.history {
      assert q.history == p.history + [q.history[|p.history|]];
    }
    assert NoRow(p.history, v.token) ==> NoRow(q.history, v.token);
    if v.claimed.Some? {
      var c := v.claimed.value;
      if v.counts.succeeded > 0 {
        PublishedStays(p, q, t, v.token, c.due.analysisType, c.inputRevision);
      }
      if Owns(q, v.token) {
        assert Owns(p, v.token) && !Owns(p, t) && !Owns(q, t);
        if BeforePersist(v.pc) {
          NextNumberStays(p, q, t, c);
        }
      }
    }
  }

  // ----- The effect of each query on the Person -----

  lemma ReleaseKeeps(p: Person, t: Token)
    requires PersonInv(p)
    ensures var q := Release(p, t).0; PersonInv(q) && Foreign(p, q, t) && !Owns(q, t)
  {
  }

  lemma RenewKeeps(p: Person, t: Token, revision: int, until: int)
    requires PersonInv(p)
    ensures var q := Renew(p, t, revision, until).0;
            PersonInv(q) && Foreign(p, q, t) && q == p.(claimUntil := q.claimUntil)
  {
  }

  lemma SameHistoryKeeps(p: Person, q: Person)
    requires CurrentIsNewest(p)
    requires q.history == p.history && q.current == p.current
    ensures CurrentIsNewest(q)
  {
  }

  /** Ending one request: the others keep their status, so nothing new runs and nothing else succeeds. */
  lemma EndingKeepsRequests(p: Person, q: Person, id: RequestId, status: RequestStatus)
    requires OneRunning(p.requests) && SucceededIsPublished(p)
    requires id in p.requests && Terminal(status)
    requires q == p.(requests := p.requests[id := p.requests[id].(status := status)])
    requires status == RequestSucceeded ==>
               var r := p.requests[id];
               r.claimedBy.Some? && Published(p.history, r.claimedBy.value, r.analysisType, r.inputRevision)
    ensures OneRunning(q.requests)
    ensures SucceededIsPublished(q)
  {
    forall a, b | a in q.requests && b in q.requests
                  && q.requests[a].status == Running && q.requests[b].status == Running
                  && q.requests[a].analysisType == q.requests[b].analysisType
      ensures a == b
    {
      assert a != id && b != id;
      assert q.requests[a] == p.requests[a] && q.requests[b] == p.requests[b];
    }
    forall k | k in q.requests && q.requests[k].status == RequestSucceeded
      ensures q.requests[k].claimedBy.Some?
      ensures Published(q.history, q.requests[k].claimedBy.value, q.requests[k].analysisType,
                        q.requests[k].inputRevision)
    {
      if k != id {
        assert q.requests[k] == p.requests[k];
      }
    }
  }

  lemma CompleteKeeps(p: Person, id: RequestId, t: Token, status: RequestStatus)
    requires PersonInv(p)
    requires Terminal(status)
    requires status == RequestSucceeded && Owns(p, t) && id in p.requests ==>
               var r := p.requests[id];
               r.claimedBy == Some(t) && Published(p.history, t, r.analysisType, r.inputRevision)
    ensures var q := Complete(p, id, t, status);
            PersonInv(q) && Foreign(p, q, t) && q == p.(requests := q.requests)
  {
    var q := Complete(p, id, t, status);
    if q != p {
      EndingKeepsRequests(p, q, id, status);
      SameHistoryKeeps(p, q);
    }
  }

  lemma ObsoleteKeeps(p: Person, id: RequestId, t: Token)
    requires PersonInv(p)
    ensures var q := ObsoleteInactive(p, id);
            PersonInv(q) && Foreign(p, q, t) && q == p.(requests := q.requests)
  {
  }

  lemma ClaimKeeps(p: Person, id: RequestId, t: Token, now: int, until: int)
    requires PersonInv(p)
    requires NeverSeen(p, t)
    ensures var q := Claim(p, id, t, now, until).0; PersonInv(q) && Foreign(p, q, t) && q.history == p.history
  {
    if Claimable(p, id, now) {
      var q := Claim(p, id, t, now, until).0;
      forall r | r in q.requests && q.requests[r].status == RequestSucceeded
        ensures q.requests[r] == p.requests[r]
      {
      }
    }
  }

  lemma SeriesBound(h: seq<Analysis>, t: AnalysisType, revision: int, n: nat)
    requires n <= |h|
    ensures CountRows(h[..n], t, revision) <= CountRows(h, t, revision)
    decreases |h|
  {
    if n < |h| {
      assert h[..|h| - 1][..n] == h[..n];
      SeriesBound(h[..|h| - 1], t, revision, n);
    } else {
      assert h[..n] == h;
    }
  }

  /** A fresh claim numbers its attempt past every kept row of its series. */
  lemma ClaimNumbersNext(p: Person, c: Claimed)
    requires NumbersBounded(p.history)
    requires c.due.attemptNumber == CountRows(p.history, c.due.analysisType, c.inputRevision) + 1
    ensures NextNumber(p.history, c)
  {
    forall i | 0 <= i < |p.history| && p.history[i].status != Obsolete
               && Matches(p.history[i], c.due.analysisType, c.inputRevision)
      ensures p.history[i].attemptNumber < c.due.attemptNumber
    {
      SeriesBound(p.history, c.due.analysisType, c.inputRevision, i + 1);
    }
  }

  lemma RowsKeepNumbers(h: seq<Analysis>, row: Analysis, c: Claimed)
    requires NumbersBounded(h) && NumbersIncrease(h)
    requires row.status != Obsolete ==>
               && NextNumber(h, c) && Matches(row, c.due.analysisType, c.inputRevision)
               && row.attemptNumber == c.due.attemptNumber
    ensures NumbersBounded(h + [row]) && NumbersIncrease(h + [row])
  {
    var k := h + [row];
    CountAppend(h, row, row.analysisType, row.inputRevision);
    forall i | 0 <= i < |k| && k[i].status != Obsolete
      ensures 1 <= k[i].attemptNumber <= CountRows(k[..i + 1], k[i].analysisType, k[i].inputRevision)
    {
      if i < |h| {
        assert k[..i + 1] == h[..i + 1];
      } else {
        assert k[..i + 1] == k;
      }
    }
  }

  lemma PublishKeepsCurrent(p: Person, q: Person, row: Analysis)
    requires CurrentIsNewest(p)
    requires row.status == Succeeded
    requires q.history == p.history + [row]
    requires q.current == OtherTypes(p.current, row.analysisType) + {Pointer(row.analysisType, |p.history|)}
    ensures CurrentIsNewest(q)
  {
    var n := |p.history|;
    assert Pointer(row.analysisType, n) in q.current;
    forall c | c in q.current
      ensures c.target < |q.history| && IsSuccess(q.history[c.target], c.analysisType)
      ensures forall j :: c.target < j < |q.history| ==> !IsSuccess(q.history[j], c.analysisType)
    {
      if c.target != n || c.analysisType != row.analysisType {
        assert c in p.current && c.analysisType != row.analysisType;
      }
    }
    forall t | HasSuccess(q.history, t)
      ensures HasPointer(q.current, t)
    {
      if t != row.analysisType {
        var i :| 0 <= i < |q.history| && IsSuccess(q.history[i], t);
        assert IsSuccess(p.history[i], t);
        assert HasPointer(p.current, t);
        var c :| c in p.current && c.analysisType == t;
        assert c in q.current;
      }
    }
  }

  lemma RowKeepsCurrent(p: Person, q: Person, row: Analysis)
    requires CurrentIsNewest(p)
    requires row.status != Succeeded
    requires q.history == p.history + [row] && q.current == p.current
    ensures CurrentIsNewest(q)
  {
    forall t | HasSuccess(q.history, t)
      ensures HasSuccess(p.history, t)
    {
      var i :| 0 <= i < |q.history| && IsSuccess(q.history[i], t);
      assert IsSuccess(p.history[i], t);
    }
  }

  lemma RowKeepsRequests(p: Person, q: Person, t: Token)
    requires SucceededIsPublished(p)
    requires q.requests == p.requests && HistoryGrows(p, q, t)
    ensures SucceededIsPublished(q)
  {
    forall id | id in q.requests && q.requests[id].status == RequestSucceeded
      ensures q.requests[id].claimedBy.Some?
      ensures Published(q.history, q.requests[id].claimedBy.value, q.requests[id].analysisType,
                        q.requests[id].inputRevision)
    {
      var r := p.requests[id];
      PublishedStays(p, q, t, r.claimedBy.value, r.analysisType, r.inputRevision);
    }
  }

  lemma PersistKeeps(p: Person, a: Attempt, t: Token, dbNow: int, c: Claimed)
    requires PersonInv(p)
    requires NoRow(p.history, t)
    requires AttemptOf(a, c)
    requires Owns(p, t) ==> NextNumber(p.history, c)
    ensures var (q, actual) := Persist(p, a, t, dbNow);
            && PersonInv(q) && Foreign(p, q, t)
            && q.claimToken == p.claimToken && q.requests == p.requests
            && (actual == Succeeded ==> Published(q.history, t, c.due.analysisType, c.inputRevision))
  {
    var (q, actual) := Persist(p, a, t, dbNow);
    var row := Row(a, actual, t);
    assert q.history == p.history + [row];
    RowsKeepNumbers(p.history, row, c);
    if actual == Succeeded {
      PublishKeepsCurrent(p, q, row);
    } else {
      RowKeepsCurrent(p, q, row);
    }
    RowKeepsRequests(p, q, t);
    assert q.history[|p.history|] == row;
  }
}
