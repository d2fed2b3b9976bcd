/** The repository's methods: each runs one query as a transaction on the graph and returns what the query returns. */
module LeaseGraph {
  import opened Common
  import opened LeaseQueries
  import opened LeaseInvariant
  import opened LeaseProtocol

  function Retired(requests: map<RequestId, Request>, id: RequestId): map<RequestId, Request>
    requires id in requests
  {
    map r | r in requests ::
      if Duplicate(requests, id, r) then requests[r].(status := RequestObsolete) else requests[r]
  }

  lemma ClaimedThenRetired(requests: map<RequestId, Request>, id: RequestId, token: Token, revision: int)
    requires id in requests
    ensures var claimed := requests[id].(status := Running, inputRevision := revision, claimedBy := Some(token));
            Retired(requests[id := claimed], id) == RequestsAfterClaim(requests, id, token, revision)
  {
  }

  /** A terminal status, and for success a published analysis of the claim that completes. */
  ghost predicate Earned(p: Person, id: RequestId, token: Token, status: RequestStatus) {
    && Terminal(status)
    && (status == RequestSucceeded && Owns(p, token) && id in p.requests ==>
          var r := p.requests[id];
          r.claimedBy == Some(token) && Published(p.history, token, r.analysisType, r.inputRevision))
  }

  /** The token has recorded nothing, and the attempt is the one its claim numbered. */
  ghost predicate KnowsItsClaim(p: Person, a: Attempt, token: Token, c: Claimed) {
    NoRow(p.history, token) && AttemptOf(a, c) && (Owns(p, token) ==> NextNumber(p.history, c))
  }

  class ProfileAnalysisGraph {
    var active: bool
    var claimToken: Option<Token>
    var claimUntil: Option<int>
    var inputRevision: Option<int>
    var lastAttemptAt: Option<int>
    var requests: map<RequestId, Request>
    var history: seq<Analysis>
    var current: set<Pointer>

    /** The nodes as one value. */
    function Node(): Person
      reads this
    {
      Person(active, claimToken, claimUntil, inputRevision, lastAttemptAt, requests, history, current)
    }

    constructor (active: bool)
      ensures Node() == Person(active, None, None, None, None, map[], [], {})
    {
      this.active := active;
      claimToken, claimUntil, inputRevision, lastAttemptAt := None, None, None, None;
      requests, history, current := map[], [], {};
    }

    method ReleaseClaim(token: Token) returns (released: bool)
      modifies this`claimToken, this`claimUntil
      ensures (Node(), released) == Release(old(Node()), token)
      ensures PersonInv(old(Node())) ==> PersonInv(Node())
    {
      if PersonInv(Node()) {
        ReleaseKeeps(Node(), token);
      }
      released := claimToken == Some(token);
      if released {
        claimToken := None;
        claimUntil := None;
      }
    }

    method RenewClaim(token: Token, revision: int, until: int) returns (renewed: bool)
      modifies this`claimUntil
      ensures (Node(), renewed) == Renew(old(Node()), token, revision, until)
      ensures PersonInv(old(Node())) ==> PersonInv(Node())
    {
      if PersonInv(Node()) {
        RenewKeeps(Node(), token, revision, until);
      }
      renewed := claimToken == Some(token) && active && Coalesce(inputRevision, 0) == revision;
      if renewed {
        claimUntil := Some(until);
      }
    }

    method PersistOneAttempt(a: Attempt, token: Token, dbNow: int) returns (actual: AttemptStatus)
      modifies this`lastAttemptAt, this`history, this`current
      ensures (Node(), actual) == Persist(old(Node()), a, token, dbNow)
      ensures forall c :: PersonInv(old(Node())) && KnowsItsClaim(old(Node()), a, token, c) ==>
                            && PersonInv(Node())
                            && (actual == Succeeded ==>
                                  Published(history, token, c.due.analysisType, c.inputRevision))
    {
      forall c | PersonInv(Node()) && KnowsItsClaim(Node(), a, token, c)
        ensures var (q, status) := Persist(Node(), a, token, dbNow);
                && PersonInv(q)
                && (status == Succeeded ==> Published(q.history, token, c.due.analysisType, c.inputRevision))
      {
        PersistKeeps(Node(), a, token, dbNow, c);
      }
      if lastAttemptAt.None? || lastAttemptAt.value < a.completedAt {
        lastAttemptAt := Some(a.completedAt);
      }
      var owned := claimToken == Some(token) && claimUntil.Some? && claimUntil.value > dbNow
                   && active && Coalesce(inputRevision, 0) == a.inputRevision;
      actual := if owned then a.status else Obsolete;
      history := history + [Row(a, actual, token)];
      if owned && a.status == Succeeded {
        DropPointers(a.analysisType);
        current := current + {Pointer(a.analysisType, |history| - 1)};
      }
    }

    /** Delete every current relationship of one type. */
    method DropPointers(analysisType: AnalysisType)
      modifies this`current
      ensures current == OtherTypes(old(current), analysisType)
    {
      var stale := set c | c in current && c.analysisType == analysisType;
      while stale != {}
        invariant forall c :: c in stale <==> c in current && c.analysisType == analysisType
        invariant OtherTypes(current, analysisType) == OtherTypes(old(current), analysisType)
        decreases |stale|
      {
        var c :| c in stale;
        current := current - {c};
        stale := stale - {c};
      }
      assert current == OtherTypes(current, analysisType);
    }

    method ClaimRequest(id: RequestId, token: Token, now: int, until: int) returns (row: Option<ClaimRow>)
      modifies this`claimToken, this`claimUntil, this`requests
      ensures (Node(), row) == Claim(old(Node()), id, token, now, until)
      ensures PersonInv(old(Node())) && NeverSeen(old(Node()), token) ==> PersonInv(Node())
    {
      if PersonInv(Node()) && NeverSeen(Node(), token) {
        ClaimKeeps(Node(), id, token, now, until);
      }
      row := None;
      if !active || id !in requests {
        return;
      }
      claimUntil := Some(Coalesce(claimUntil, 0));
      if !(requests[id].status in {Queued, Running} && claimUntil.value <= now) {
        return;
      }
      var revision := Coalesce(inputRevision, 0);
      claimToken := Some(token);
      claimUntil := Some(until);
      requests := requests[id := requests[id].(status := Running, inputRevision := revision, claimedBy := Some(token))];
      ObsoleteDuplicates(id);
      var t := requests[id].analysisType;
      var count := CountHistory(t, revision);
      row := Some(ClaimRow(revision, t == Sales, if t == Sales then count + 1 else 1,
                           t == ContactTracing, if t == ContactTracing then count + 1 else 1));
      ClaimedThenRetired(old(requests), id, token, revision);
    }

    /** Retire every other active request of the claimed request's type. */
    method ObsoleteDuplicates(id: RequestId)
      requires id in requests
      modifies this`requests
      ensures requests == Retired(old(requests), id)
    {
      var duplicates := set r | r in requests && Duplicate(requests, id, r);
      ghost var before := requests;
      ghost var all := duplicates;
      while duplicates != {}
        invariant duplicates <= all
        invariant requests.Keys == before.Keys
        invariant forall r :: r in before ==>
                    requests[r] == if r in all - duplicates then before[r].(status := RequestObsolete) else before[r]
        decreases |duplicates|
      {
        var stale :| stale in duplicates;
        requests := requests[stale := requests[stale].(status := RequestObsolete)];
        duplicates := duplicates - {stale};
      }
    }

    method CountHistory(analysisType: AnalysisType, revision: int) returns (count: nat)
      ensures count == CountRows(history, analysisType, revision)
    {
      count := 0;
      var i := 0;
      while i < |history|
        invariant i <= |history|
        invariant count == CountRows(history[..i], analysisType, revision)
      {
        assert history[..i + 1][..i] == history[..i];
        if Matches(history[i], analysisType, revision) {
          count := count + 1;
        }
        i := i + 1;
      }
      assert history[..i] == history;
    }

    method CompleteRequest(id: RequestId, token: Token, status: RequestStatus)
      modifies this`requests
      ensures Node() == Complete(old(Node()), id, token, status)
      ensures PersonInv(old(Node())) && Earned(old(Node()), id, token, status) ==> PersonInv(Node())
    {
      if PersonInv(Node()) && Earned(Node(), id, token, status) {
        CompleteKeeps(Node(), id, token, status);
      }
      if id in requests && requests[id].status == Running && claimToken == Some(token) {
        requests := requests[id := requests[id].(status := status)];
      }
    }

    method ObsoleteInactiveRequest(id: RequestId)
      modifies this`requests
      ensures Node() == ObsoleteInactive(old(Node()), id)
      ensures PersonInv(old(Node())) ==> PersonInv(Node())
    {
      if PersonInv(Node()) {
        ObsoleteKeeps(Node(), id, "");
      }
      if id in requests && requests[id].status == Queued && !active {
        requests := requests[id := requests[id].(status := RequestObsolete)];
      }
    }

    method RequestIsWaiting(id: RequestId) returns (waiting: bool)
      ensures waiting == Waiting(Node(), id)
      ensures waiting ==> forall token, now, until ::
                Claim(Node(), id, token, now, until).1.None? <==> Coalesce(claimUntil, 0) > now
      ensures !waiting ==> var q := ObsoleteInactive(Node(), id); id in q.requests ==> q.requests[id].status != Queued
    {
      waiting := id in requests && requests[id].status == Queued && active;
    }
  }
}
