/** What every reachable state of the control plane satisfies, and that the log alone tells it. */
module ControlPlaneInvariants {
  import opened Options
  import opened Lists
  import opened ControlPlane

  function RequestOfDecision(d: Decision): string { d.requestId }

  function RequestOfGrant(g: Grant): string { g.requestId }

  ghost function DecisionCount(s: State, id: string): nat {
    KeyCounts(RequestOfDecision, s.decisions)[id]
  }

  ghost function GrantCount(s: State, id: string): nat {
    KeyCounts(RequestOfGrant, s.grants)[id]
  }

  /** Pending: nothing decided. Denied: one decision and no grant. Approved: one decision and one grant. */
  ghost predicate CountsFit(s: State, r: Request) {
    match r.status
    case Pending => DecisionCount(s, r.requestId) == 0 && GrantCount(s, r.requestId) == 0
    case Denied => DecisionCount(s, r.requestId) == 1 && GrantCount(s, r.requestId) == 0
    case Approved => DecisionCount(s, r.requestId) == 1 && GrantCount(s, r.requestId) == 1
  }

  /** The decision that settled a request agrees with its status and its subject. */
  predicate DecisionFits(d: Decision, r: Request) {
    d.subjectId == r.subjectId && r.status == if d.decision == Approve then Approved else Denied
  }

  /** A grant copies the request's parties, dataset and scope. */
  predicate GrantCopies(g: Grant, r: Request) {
    && r.status == Approved
    && g.subjectId == r.subjectId && g.requesterId == r.requesterId && g.datasetId == r.datasetId && g.scope == r.requestedScope
  }

  predicate DecisionPlaced(d: Decision, requests: seq<Request>) {
    exists r | r in requests :: r.requestId == d.requestId && DecisionFits(d, r)
  }

  predicate GrantPlaced(g: Grant, requests: seq<Request>) {
    exists r | r in requests :: r.requestId == g.requestId && GrantCopies(g, r)
  }

  ghost predicate RecordsFit(s: State) {
    && DistinctRequests(s.requests)
    && DistinctGrants(s.grants)
    && (forall r | r in s.requests :: CountsFit(s, r))
    && (forall d | d in s.decisions :: DecisionPlaced(d, s.requests))
    && (forall g | g in s.grants :: GrantPlaced(g, s.requests))
  }

  predicate LogTellsStatuses(s: State) {
    Replay(s.auditEvents) == View(RequestStatuses(s.requests), GrantStatuses(s.grants))
  }

  function RevokedCount(grants: seq<Grant>): nat {
    if grants == [] then 0 else RevokedCount(grants[..|grants| - 1]) + if grants[|grants| - 1].status == Revoked then 1 else 0
  }

  predicate LogCountsRecords(s: State) {
    |s.auditEvents| == |s.requests| + |s.decisions| + |s.grants| + RevokedCount(s.grants)
  }

  ghost predicate Invariant(s: State) {
    RecordsFit(s) && LogTellsStatuses(s) && LogCountsRecords(s)
  }

  // ---- Creating -------------------------------------------------------------------

  lemma CreateKeepsRecords(s: State, c: Call)
    requires RecordsFit(s) && c.Create? && Fresh(s, c)
    ensures RecordsFit(AfterCreate(s, c))
  {
    var after, request := AfterCreate(s, c), NewRequest(c);
    forall r ensures r in after.requests <==> r in s.requests || r == request { }
    KeyIsCounted(RequestOfDecision, s.decisions, request.requestId);
    KeyIsCounted(RequestOfGrant, s.grants, request.requestId);
    assert CountsFit(after, request);
    forall r | r in s.requests ensures CountsFit(after, r) { assert CountsFit(s, r); }
    forall d | d in s.decisions ensures DecisionPlaced(d, after.requests) { assert DecisionPlaced(d, s.requests); }
    forall g | g in s.grants ensures GrantPlaced(g, after.requests) { assert GrantPlaced(g, s.requests); }
  }

  lemma CreateKeepsLog(s: State, c: Call)
    requires Invariant(s) && c.Create?
    ensures LogTellsStatuses(AfterCreate(s, c)) && LogCountsRecords(AfterCreate(s, c))
  {
    var after, request := AfterCreate(s, c), NewRequest(c);
    ReplaySnoc(s.auditEvents, after.auditEvents[|s.auditEvents|]);
    assert after.requests[..|after.requests| - 1] == s.requests;
  }

  // ---- Deciding ---------------------------------------------------------------------

  lemma RequestsAfterUpdate(requests: seq<Request>, i: nat, r: Request)
    requires DistinctRequests(requests) && i < |requests| && r.requestId == requests[i].requestId
    ensures DistinctRequests(requests[i := r])
    ensures forall x :: x in requests[i := r] <==> x == r || (x in requests && x.requestId != r.requestId)
  {
    var updated := requests[i := r];
    forall x ensures x in updated <==> x == r || (x in requests && x.requestId != r.requestId) {
      if x in updated {
        var k :| 0 <= k < |updated| && updated[k] == x;
      }
      if x in requests && x.requestId != r.requestId {
        var k :| 0 <= k < |requests| && requests[k] == x;
        assert updated[k] == x;
      }
      assert updated[i] == r;
    }
  }

  lemma NothingDecidedYet(s: State, c: Call)
    requires RecordsFit(s) && c.Decide? && DecideError(s, c).None?
    ensures DecisionCount(s, c.requestId) == 0 && GrantCount(s, c.requestId) == 0
    ensures forall d | d in s.decisions :: d.requestId != c.requestId
    ensures forall g | g in s.grants :: g.requestId != c.requestId
  {
    assert CountsFit(s, s.requests[FindRequest(s.requests, c.requestId)]);
    KeyIsCounted(RequestOfDecision, s.decisions, c.requestId);
    KeyIsCounted(RequestOfGrant, s.grants, c.requestId);
    forall d | d in s.decisions ensures d.requestId != c.requestId { assert RequestOfDecision(d) == d.requestId; }
    forall g | g in s.grants ensures g.requestId != c.requestId { assert RequestOfGrant(g) == g.requestId; }
  }

  lemma DecideKeepsCounts(s: State, c: Call)
    requires RecordsFit(s) && c.Decide? && DecideError(s, c).None?
    ensures var after := AfterDecide(s, c); forall r | r in after.requests :: CountsFit(after, r)
  {
    var after, i := AfterDecide(s, c), FindRequest(s.requests, c.requestId);
    var request := Decided(s.requests[i], c);
    NothingDecidedYet(s, c);
    RequestsAfterUpdate(s.requests, i, request);
    KeyCountsSnoc(RequestOfDecision, s.decisions, NewDecision(c));
    KeyCountsSnoc(RequestOfGrant, s.grants, NewGrant(request, c));
    forall r | r in after.requests ensures CountsFit(after, r) {
      if r != request { assert CountsFit(s, r); }
    }
  }

  lemma DecideKeepsDecisionsPlaced(s: State, c: Call)
    requires RecordsFit(s) && c.Decide? && DecideError(s, c).None?
    ensures var after := AfterDecide(s, c); forall d | d in after.decisions :: DecisionPlaced(d, after.requests)
  {
    var after, i := AfterDecide(s, c), FindRequest(s.requests, c.requestId);
    var request := Decided(s.requests[i], c);
    NothingDecidedYet(s, c);
    RequestsAfterUpdate(s.requests, i, request);
    forall d | d in after.decisions ensures DecisionPlaced(d, after.requests) {
      if d in s.decisions {
        assert DecisionPlaced(d, s.requests);
      } else {
        assert d == NewDecision(c) && DecisionFits(d, request);
      }
    }
  }

  lemma DecideKeepsGrantsPlaced(s: State, c: Call)
    requires RecordsFit(s) && c.Decide? && Fresh(s, c) && DecideError(s, c).None?
    ensures var after := AfterDecide(s, c); DistinctGrants(after.grants) && forall g | g in after.grants :: GrantPlaced(g, after.requests)
  {
    var after, i := AfterDecide(s, c), FindRequest(s.requests, c.requestId);
    var request := Decided(s.requests[i], c);
    NothingDecidedYet(s, c);
    RequestsAfterUpdate(s.requests, i, request);
    forall g | g in after.grants ensures GrantPlaced(g, after.requests) {
      if g in s.grants {
        assert GrantPlaced(g, s.requests);
      } else {
        assert g == NewGrant(request, c) && GrantCopies(g, request);
      }
    }
  }

  lemma DecideKeepsRecords(s: State, c: Call)
    requires RecordsFit(s) && c.Decide? && Fresh(s, c) && DecideError(s, c).None?
    ensures RecordsFit(AfterDecide(s, c))
  {
    var i := FindRequest(s.requests, c.requestId);
    RequestsAfterUpdate(s.requests, i, Decided(s.requests[i], c));
    DecideKeepsCounts(s, c);
    DecideKeepsDecisionsPlaced(s, c);
    DecideKeepsGrantsPlaced(s, c);
  }

  /** The statuses the records carry after a decision. */
  lemma StatusesAfterDecide(s: State, c: Call)
    requires DistinctRequests(s.requests) && c.Decide? && DecideError(s, c).None?
    ensures var after := AfterDecide(s, c);
      && RequestStatuses(after.requests) == RequestStatuses(s.requests)[c.requestId := if c.decision == Approve then Approved else Denied]
      && GrantStatuses(after.grants) == if c.decision == Approve then GrantStatuses(s.grants)[c.newGrantId := Active] else GrantStatuses(s.grants)
  {
    var after, i := AfterDecide(s, c), FindRequest(s.requests, c.requestId);
    RequestStatusesUpdate(s.requests, i, Decided(s.requests[i], c));
    if c.decision == Approve { assert after.grants[..|after.grants| - 1] == s.grants; }
  }

  lemma DecideKeepsLog(s: State, c: Call)
    requires Invariant(s) && c.Decide? && DecideError(s, c).None?
    ensures LogTellsStatuses(AfterDecide(s, c)) && LogCountsRecords(AfterDecide(s, c))
  {
    var after, i := AfterDecide(s, c), FindRequest(s.requests, c.requestId);
    var n := |s.auditEvents|;
    StatusesAfterDecide(s, c);
    ReplaySnoc(s.auditEvents, after.auditEvents[n]);
    if c.decision == Approve {
      ReplaySnoc(s.auditEvents + [after.auditEvents[n]], after.auditEvents[n + 1]);
      assert after.auditEvents == s.auditEvents + [after.auditEvents[n]] + [after.auditEvents[n + 1]];
      assert after.grants[..|after.grants| - 1] == s.grants;
    } else {
      assert after.auditEvents == s.auditEvents + [after.auditEvents[n]];
    }
  }

  // ---- Revoking ------------------------------------------------------------------------

  lemma RevokeKeepsRecords(s: State, c: Call)
    requires RecordsFit(s) && c.RevokeGrant? && RevokeError(s, c).None?
    ensures RecordsFit(AfterRevoke(s, c))
  {
    var after, i := AfterRevoke(s, c), FindGrant(s.grants, c.grantId);
    if s.grants[i].status != Revoked {
      KeyCountsUpdate(RequestOfGrant, s.grants, i, after.grants[i]);
      forall r | r in after.requests ensures CountsFit(after, r) { assert CountsFit(s, r); }
      forall g | g in after.grants ensures GrantPlaced(g, after.requests) {
        var k :| 0 <= k < |after.grants| && after.grants[k] == g;
        assert GrantPlaced(s.grants[k], s.requests);
      }
    }
  }

  lemma {:induction false} RevokedCountUpdate(grants: seq<Grant>, i: nat, g: Grant)
    requires i < |grants| && grants[i].status == Active && g.status == Revoked
    ensures RevokedCount(grants[i := g]) == RevokedCount(grants) + 1
  {
    var n := |grants| - 1;
    var updated := grants[i := g];
    if i < n {
      RevokedCountUpdate(grants[..n], i, g);
      assert updated[..n] == grants[..n][i := g];
    } else {
      assert updated[..n] == grants[..n];
    }
  }

  lemma RevokeKeepsLog(s: State, c: Call)
    requires Invariant(s) && c.RevokeGrant? && RevokeError(s, c).None?
    ensures LogTellsStatuses(AfterRevoke(s, c)) && LogCountsRecords(AfterRevoke(s, c))
  {
    var after, i := AfterRevoke(s, c), FindGrant(s.grants, c.grantId);
    if s.grants[i].status != Revoked {
      GrantStatusesUpdate(s.grants, i, after.grants[i]);
      RevokedCountUpdate(s.grants, i, after.grants[i]);
      ReplaySnoc(s.auditEvents, after.auditEvents[|s.auditEvents|]);
    }
  }

  // ---- Every call, every run ----------------------------------------------------------------

  lemma ApplyKeepsInvariant(s: State, c: Call)
    requires Invariant(s) && Fresh(s, c)
    ensures Invariant(Apply(s, c))
  {
    if ErrorOf(s, c).None? {
      match c
      case Create(_, _, _, _, _, _, _, _) => CreateKeepsRecords(s, c); CreateKeepsLog(s, c);
      case Decide(_, _, _, _, _, _, _, _, _) => DecideKeepsRecords(s, c); DecideKeepsLog(s, c);
      case RevokeGrant(_, _, _, _, _) => RevokeKeepsRecords(s, c); RevokeKeepsLog(s, c);
    }
  }

  /** In every run the records fit together, and the log alone rebuilds the status of every request and every grant. */
  lemma {:induction false} EveryRunKeepsInvariant(calls: seq<Call>)
    requires FreshRun(calls)
    ensures Invariant(Run(calls))
  {
    if calls != [] {
      var front := calls[..|calls| - 1];
      forall i | 0 <= i < |front| ensures Fresh(Run(front[..i]), front[i]) {
        assert front[..i] == calls[..i];
        assert Fresh(Run(calls[..i]), calls[i]);
      }
      EveryRunKeepsInvariant(front);
      assert Fresh(Run(calls[..|calls| - 1]), calls[|calls| - 1]);
      ApplyKeepsInvariant(Run(front), calls[|calls| - 1]);
    }
  }

  /** The log only grows by suffix, a call that fails leaves everything as it was, and nothing is ever removed. */
  lemma LogGrowsBySuffix(s: State, c: Call)
    ensures s.auditEvents <= Apply(s, c).auditEvents
    ensures ErrorOf(s, c).Some? ==> Apply(s, c) == s
    ensures |s.requests| <= |Apply(s, c).requests| && s.decisions <= Apply(s, c).decisions && |s.grants| <= |Apply(s, c).grants|
  {
  }

  lemma {:induction false} LogGrowsAlongRuns(calls: seq<Call>, n: nat)
    requires n <= |calls|
    ensures Run(calls[..n]).auditEvents <= Run(calls).auditEvents
    decreases |calls|
  {
    if n < |calls| {
      var front := calls[..|calls| - 1];
      LogGrowsAlongRuns(front, n);
      assert front[..n] == calls[..n];
      LogGrowsBySuffix(Run(front), calls[|calls| - 1]);
    } else {
      assert calls[..n] == calls;
    }
  }

  lemma {:induction false} StatusIsListed(requests: seq<Request>, i: nat)
    requires DistinctRequests(requests) && i < |requests|
    ensures requests[i].requestId in RequestStatuses(requests) && RequestStatuses(requests)[requests[i].requestId] == requests[i].status
  {
    var n := |requests| - 1;
    if i < n {
      StatusIsListed(requests[..n], i);
      assert requests[i].requestId != requests[n].requestId;
    }
  }

  /** Reading the log from empty tells the exact status of every request. */
  lemma ReplayTellsEveryStatus(calls: seq<Call>, r: Request)
    requires FreshRun(calls) && r in Run(calls).requests
    ensures r.requestId in Replay(Run(calls).auditEvents).requests
    ensures Replay(Run(calls).auditEvents).requests[r.requestId] == r.status
  {
    EveryRunKeepsInvariant(calls);
    var requests := Run(calls).requests;
    var i :| 0 <= i < |requests| && requests[i] == r;
    StatusIsListed(requests, i);
  }

  lemma {:induction false} GrantStatusIsListed(grants: seq<Grant>, i: nat)
    requires DistinctGrants(grants) && i < |grants|
    ensures grants[i].grantId in GrantStatuses(grants) && GrantStatuses(grants)[grants[i].grantId] == grants[i].status
  {
    var n := |grants| - 1;
    if i < n {
      GrantStatusIsListed(grants[..n], i);
      assert grants[i].grantId != grants[n].grantId;
    }
  }

  /** And of every grant. */
  lemma ReplayTellsEveryGrantStatus(calls: seq<Call>, g: Grant)
    requires FreshRun(calls) && g in Run(calls).grants
    ensures g.grantId in Replay(Run(calls).auditEvents).grants
    ensures Replay(Run(calls).auditEvents).grants[g.grantId] == g.status
  {
    EveryRunKeepsInvariant(calls);
    var grants := Run(calls).grants;
    var i :| 0 <= i < |grants| && grants[i] == g;
    GrantStatusIsListed(grants, i);
  }
}
