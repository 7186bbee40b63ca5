/** Who may decide and revoke, what each call leaves behind, and who can have revoked a grant at the end of any run. */
module ControlPlaneEffects {
  import opened Options
  import opened Lists
  import opened ControlPlane
  import opened ControlPlaneInvariants

  // ---- Refusals ---------------------------------------------------------------------

  /** What each refusal of a decision says. */
  predicate DecideGround(s: State, c: Call, error: Error)
    requires c.Decide?
  {
    match error
    case REQUEST_NOT_FOUND => forall r | r in s.requests :: r.requestId != c.requestId
    case SUBJECT_MISMATCH => exists r | r in s.requests :: r.requestId == c.requestId && r.subjectId != c.subjectId
    case NOT_PENDING =>
      exists r | r in s.requests :: r.requestId == c.requestId && r.subjectId == c.subjectId && r.status != Pending
    case _ => false
  }

  /** And of a revocation. */
  predicate RevokeGround(s: State, c: Call, error: Error)
    requires c.RevokeGrant?
  {
    match error
    case GRANT_NOT_FOUND => forall g | g in s.grants :: g.grantId != c.grantId
    case SUBJECT_MISMATCH => exists g | g in s.grants :: g.grantId == c.grantId && c.subject.Some? && c.subject.value != g.subjectId
    case REQUESTER_MISMATCH =>
      exists g | g in s.grants ::
        && g.grantId == c.grantId && (c.subject.Some? ==> c.subject.value == g.subjectId)
        && c.requester.Some? && c.requester.value != g.requesterId
    case _ => false
  }

  /** The call names the grant, and no party but the grant's own. */
  predicate NamesItsParties(c: Call, g: Grant) {
    && c.RevokeGrant? && c.grantId == g.grantId
    && (c.subject.Some? ==> c.subject.value == g.subjectId)
    && (c.requester.Some? ==> c.requester.value == g.requesterId)
  }

  lemma OnlyRequest(requests: seq<Request>, i: nat, r: Request)
    requires DistinctRequests(requests) && i < |requests| && r in requests && r.requestId == requests[i].requestId
    ensures r == requests[i]
  {
    var k :| 0 <= k < |requests| && requests[k] == r;
    assert k == i;
  }

  lemma OnlyGrant(grants: seq<Grant>, i: nat, g: Grant)
    requires DistinctGrants(grants) && i < |grants| && g in grants && g.grantId == grants[i].grantId
    ensures g == grants[i]
  {
    var k :| 0 <= k < |grants| && grants[k] == g;
    assert k == i;
  }

  /** Every refusal of a decision, exactly when it is made; and none exactly for a pending request of that subject. */
  lemma DecideErrorIff(s: State, c: Call, error: Error)
    requires DistinctRequests(s.requests) && c.Decide?
    ensures DecideError(s, c) == Some(error) <==> DecideGround(s, c, error)
    ensures DecideError(s, c).None? <==>
      exists r | r in s.requests :: r.requestId == c.requestId && r.subjectId == c.subjectId && r.status == Pending
  {
    var i := FindRequest(s.requests, c.requestId);
    if i >= 0 {
      assert s.requests[i] in s.requests;
      forall r | r in s.requests && r.requestId == c.requestId ensures r == s.requests[i] { OnlyRequest(s.requests, i, r); }
    }
  }

  /** Every refusal of a revocation, exactly when it is made; and none exactly for a grant that is there and agrees with each party named. */
  lemma RevokeErrorIff(s: State, c: Call, error: Error)
    requires DistinctGrants(s.grants) && c.RevokeGrant?
    ensures RevokeError(s, c) == Some(error) <==> RevokeGround(s, c, error)
    ensures RevokeError(s, c).None? <==> exists g | g in s.grants :: NamesItsParties(c, g)
  {
    var i := FindGrant(s.grants, c.grantId);
    if i >= 0 {
      assert s.grants[i] in s.grants;
      forall g | g in s.grants && g.grantId == c.grantId ensures g == s.grants[i] { OnlyGrant(s.grants, i, g); }
    }
  }

  // ---- Effects -------------------------------------------------------------------------

  /** The event tells the request's own parties. */
  predicate Tells(e: Event, eventType: EventType, r: Request, eventId: string, now: int) {
    && e.eventId == eventId && e.eventType == eventType && e.occurredAt == now
    && e.requestId == r.requestId && e.subjectId == r.subjectId && e.requesterId == r.requesterId
  }

  lemma CreateEffect(s: State, c: Call)
    requires c.Create?
    ensures var after := Apply(s, c);
      && after.decisions == s.decisions && after.grants == s.grants
      && |after.requests| == |s.requests| + 1 && after.requests[..|s.requests|] == s.requests
      && |after.auditEvents| == |s.auditEvents| + 1 && after.auditEvents[..|s.auditEvents|] == s.auditEvents
      && var r, e := after.requests[|s.requests|], after.auditEvents[|s.auditEvents|];
         && r.requestId == c.requestId && r.subjectId == c.subjectId && r.requesterId == c.requesterId
         && r.datasetId == c.datasetId && r.purpose == c.purpose && r.status == Pending
         && (match c.requestedScope case None => r.requestedScope == [] case Some(scope) => r.requestedScope == scope)
         && r.createdAt == r.updatedAt == c.now
         && Tells(e, ACCESS_REQUEST_CREATED, r, c.eventId, c.now)
         && e.grantId.None? && e.metadataDecisionId.None? && e.metadataGrantId.None?
  {
  }

  /** The request as it was, but for its status and the instant of its update. */
  predicate Settles(before: Request, after: Request, c: Call)
    requires c.Decide?
  {
    && after.requestId == before.requestId == c.requestId && after.subjectId == before.subjectId && after.requesterId == before.requesterId
    && after.datasetId == before.datasetId && after.purpose == before.purpose && after.requestedScope == before.requestedScope
    && after.createdAt == before.createdAt && after.updatedAt == c.now
    && after.status == (match c.decision case Approve => Approved case Deny => Denied)
  }

  lemma DecideRecords(s: State, c: Call) returns (i: nat)
    requires c.Decide? && DecideError(s, c).None?
    ensures i < |s.requests| && i < |Apply(s, c).requests|
    ensures var after := Apply(s, c);
      && after.requests == s.requests[i := after.requests[i]] && Settles(s.requests[i], after.requests[i], c)
      && after.decisions == s.decisions + [Decision(c.decisionId, c.requestId, c.subjectId, c.decision, c.reason, c.now)]
      && after.grants == s.grants + (match c.decision
           case Deny => []
           case Approve =>
             var r := s.requests[i];
             [Grant(c.newGrantId, r.requestId, r.subjectId, r.requesterId, r.datasetId, r.requestedScope, Active, c.now, None)])
  {
    i := FindRequest(s.requests, c.requestId);
  }

  lemma DecideEvents(s: State, c: Call)
    requires c.Decide? && DecideError(s, c).None?
    ensures var n, events := |s.auditEvents|, Apply(s, c).auditEvents;
      && |events| == n + (if c.decision == Approve then 2 else 1) && events[..n] == s.auditEvents
      && exists r | r in s.requests ::
           && r.requestId == c.requestId
           && Tells(events[n], if c.decision == Approve then ACCESS_REQUEST_APPROVED else ACCESS_REQUEST_DENIED, r, c.eventId, c.now)
           && events[n].metadataDecisionId == Some(c.decisionId) && events[n].metadataGrantId.None? && events[n].grantId.None?
           && (c.decision == Approve ==>
                 && Tells(events[n + 1], GRANT_CREATED, r, c.grantEventId, c.now)
                 && events[n + 1].metadataGrantId == Some(c.newGrantId) && events[n + 1].metadataDecisionId.None? && events[n + 1].grantId.None?)
  {
    assert s.requests[FindRequest(s.requests, c.requestId)] in s.requests;
  }

  /** A grant revoked already is left as it is and nothing is logged; another is revoked at the instant of the call, and the event says whose it was. */
  lemma RevokeEffect(s: State, c: Call) returns (i: nat)
    requires c.RevokeGrant? && RevokeError(s, c).None?
    ensures i < |s.grants| && i < |Apply(s, c).grants| && s.grants[i].grantId == c.grantId
    ensures var after, g := Apply(s, c), s.grants[i];
      && after.requests == s.requests && after.decisions == s.decisions
      && (g.status == Revoked ==> after == s)
      && (g.status == Active ==>
            && after.grants == s.grants[i := after.grants[i]]
            && after.grants[i] == g.(status := Revoked, revokedAt := after.grants[i].revokedAt)
            && after.grants[i].revokedAt == Some(c.now)
            && |after.auditEvents| == |s.auditEvents| + 1 && after.auditEvents[..|s.auditEvents|] == s.auditEvents
            && var e := after.auditEvents[|s.auditEvents|];
               && e.eventId == c.eventId && e.eventType == GRANT_REVOKED && e.occurredAt == c.now
               && e.requestId == g.requestId && e.subjectId == g.subjectId && e.requesterId == g.requesterId
               && e.grantId == Some(g.grantId) && e.metadataDecisionId.None? && e.metadataGrantId.None?)
  {
    i := FindGrant(s.grants, c.grantId);
  }

  // ---- Who can have revoked a grant -----------------------------------------------------

  /** The call revoked the grant: it named the grant and no party but its own, at the instant recorded. */
  predicate RevokedBy(g: Grant, c: Call) {
    NamesItsParties(c, g) && g.revokedAt == Some(c.now)
  }

  lemma CallRevokes(s: State, c: Call, g: Grant)
    requires DistinctGrants(s.grants) && g in Apply(s, c).grants && g.status == Revoked
    ensures g in s.grants || RevokedBy(g, c)
  {
    if ErrorOf(s, c).None? && c.RevokeGrant? {
      var i := FindGrant(s.grants, c.grantId);
      var after := Apply(s, c).grants;
      var k :| 0 <= k < |after| && after[k] == g;
      if k != i { assert s.grants[k] == g; }
    }
  }

  /** A grant that is revoked was revoked by some call of the run, whose named parties are the grant's own. */
  lemma {:induction false} RevokedOnlyByItsParties(calls: seq<Call>, g: Grant) returns (i: nat)
    requires FreshRun(calls) && g in Run(calls).grants && g.status == Revoked
    ensures i < |calls| && RevokedBy(g, calls[i])
  {
    var front, last := calls[..|calls| - 1], calls[|calls| - 1];
    forall k | 0 <= k < |front| ensures Fresh(Run(front[..k]), front[k]) {
      assert front[..k] == calls[..k];
      assert Fresh(Run(calls[..k]), calls[k]);
    }
    EveryRunKeepsInvariant(front);
    CallRevokes(Run(front), last, g);
    if g in Run(front).grants {
      i := RevokedOnlyByItsParties(front, g);
    } else {
      i := |calls| - 1;
    }
  }
}
