/** The service itself: an object whose four record lists the calls change in place. */
module ControlPlaneService {
  import opened Options
  import opened ControlPlane
  import opened ControlPlaneInvariants
  import opened ControlPlaneEffects
  import opened Lists
  import Ordering

  datatype Result<T> = Ok(value: T) | Err(error: Error)

  predicate ActiveFor(subject: Option<string>, requester: Option<string>, g: Grant) {
    && g.status == Active
    && (subject.Some? ==> g.subjectId == subject.value)
    && (requester.Some? ==> g.requesterId == requester.value)
  }

  /** The grants that are active, and whose subject and requester are those named, if any. */
  ghost predicate IsListing(subject: Option<string>, requester: Option<string>, grants: seq<Grant>, found: seq<Grant>) {
    forall g :: g in found <==>
      g in grants && g.status == Active && subject in {None, Some(g.subjectId)} && requester in {None, Some(g.requesterId)}
  }

  /** The active grants of a subject and a requester, oldest record first. */
  function ActiveAmong(subject: Option<string>, requester: Option<string>, grants: seq<Grant>): (found: seq<Grant>)
    ensures forall g :: g in found <==> g in grants && ActiveFor(subject, requester, g)
  {
    if grants == [] then []
    else
      var last := grants[|grants| - 1];
      assert grants == grants[..|grants| - 1] + [last];
      ActiveAmong(subject, requester, grants[..|grants| - 1]) + if ActiveFor(subject, requester, last) then [last] else []
  }

  function GrantedAt(g: Grant): int {
    g.grantedAt
  }

  lemma PermutedListing(subject: Option<string>, requester: Option<string>, grants: seq<Grant>, found: seq<Grant>)
    requires multiset(found) == multiset(ActiveAmong(subject, requester, grants))
    ensures IsListing(subject, requester, grants, found)
  {
    forall g ensures g in found <==> g in grants && ActiveFor(subject, requester, g) {
      Ordering.MemberOfPermutation(found, ActiveAmong(subject, requester, grants), g);
    }
  }

  lemma NewestListing(subject: Option<string>, requester: Option<string>, grants: seq<Grant>)
    ensures var active := ActiveAmong(subject, requester, grants);
      var found := NewestFirst(GrantedAt, active);
      && IsListing(subject, requester, grants, found)
      && multiset(found) == multiset(active)
      && Descending(GrantedAt, found)
      && forall t :: DatedAt(GrantedAt, t, found) == DatedAt(GrantedAt, t, active)
  {
    var active := ActiveAmong(subject, requester, grants);
    var found := NewestFirst(GrantedAt, active);
    PermutedListing(subject, requester, grants, found);
    forall t ensures DatedAt(GrantedAt, t, found) == DatedAt(GrantedAt, t, active) { NewestFirstIsStable(GrantedAt, t, active); }
  }

  lemma ActiveStep(subject: Option<string>, requester: Option<string>, grants: seq<Grant>, i: nat)
    requires i < |grants|
    ensures ActiveAmong(subject, requester, grants[..i + 1])
      == ActiveAmong(subject, requester, grants[..i]) + if ActiveFor(subject, requester, grants[i]) then [grants[i]] else []
  {
    assert grants[..i + 1][..i] == grants[..i];
  }

  class Service {
    var requests: seq<Request>
    var decisions: seq<Decision>
    var grants: seq<Grant>
    var auditEvents: seq<Event>

    function Contents(): State
      reads this
    {
      State(requests, decisions, grants, auditEvents)
    }

    constructor ()
      ensures Contents() == EMPTY_STATE && Invariant(Contents())
    {
      requests, decisions, grants, auditEvents := [], [], [], [];
    }

    method CreateAccessRequest(c: Call) returns (request: Request)
      requires c.Create? && Fresh(Contents(), c) && Invariant(Contents())
      modifies this`requests, this`auditEvents
      ensures Contents() == Apply(old(Contents()), c) && Invariant(Contents())
      ensures request == NewRequest(c)
    {
      ApplyKeepsInvariant(Contents(), c);
      request := Request(c.requestId, c.subjectId, c.requesterId, c.datasetId, c.purpose,
                         if c.requestedScope.Some? then c.requestedScope.value else [], Pending, c.now, c.now);
      requests := requests + [request];
      auditEvents := auditEvents + [Audit(ACCESS_REQUEST_CREATED, request, None, None, c.eventId, c.now)];
    }

    method UpdateRequest(c: Call) returns (r: Result<(Request, Decision, Option<Grant>)>)
      requires c.Decide?
      modifies this
      ensures Contents() == Apply(old(Contents()), c)
      ensures r.Err? <==> DecideError(old(Contents()), c).Some?
      ensures r.Err? ==> Some(r.error) == DecideError(old(Contents()), c)
      ensures r.Ok? ==> var i := FindRequest(old(requests), c.requestId);
        && r.value.0 == Decided(old(requests)[i], c) && r.value.0 in requests
        && r.value.1 == NewDecision(c)
        && r.value.2 == (if c.decision == Approve then Some(NewGrant(r.value.0, c)) else None)
    {
      var i := FindRequest(requests, c.requestId);
      if i < 0 { return Err(REQUEST_NOT_FOUND); }
      if requests[i].subjectId != c.subjectId { return Err(SUBJECT_MISMATCH); }
      if requests[i].status != Pending { return Err(NOT_PENDING); }
      var request := requests[i].(status := if c.decision == Approve then Approved else Denied, updatedAt := c.now);
      assert request == Decided(requests[i], c);
      requests := requests[i := request];
      var decision := NewDecision(c);
      decisions := decisions + [decision];
      var eventType := if c.decision == Approve then ACCESS_REQUEST_APPROVED else ACCESS_REQUEST_DENIED;
      auditEvents := auditEvents + [Audit(eventType, request, Some(c.decisionId), None, c.eventId, c.now)];
      assert requests[i] == request;
      if c.decision == Approve {
        var grant := NewGrant(request, c);
        grants := grants + [grant];
        auditEvents := auditEvents + [Audit(GRANT_CREATED, request, None, Some(c.newGrantId), c.grantEventId, c.now)];
        return Ok((request, decision, Some(grant)));
      }
      return Ok((request, decision, None));
    }

    /** Refused exactly on the ground named; otherwise the pending request is settled, the decision recorded and, on approval, one grant made. */
    method DecideAccessRequest(c: Call) returns (r: Result<(Request, Decision, Option<Grant>)>)
      requires c.Decide? && Fresh(Contents(), c) && Invariant(Contents())
      modifies this
      ensures Contents() == Apply(old(Contents()), c) && Invariant(Contents())
      ensures forall error :: r == Err(error) <==> DecideGround(old(Contents()), c, error)
      ensures r.Ok? ==> exists before | before in old(requests) :: Settles(before, r.value.0, c)
      ensures r.Ok? ==> r.value.0 in requests && decisions == old(decisions) + [r.value.1]
      ensures r.Ok? ==> grants == old(grants) + if r.value.2.Some? then [r.value.2.value] else []
    {
      ghost var s := Contents();
      ApplyKeepsInvariant(s, c);
      r := UpdateRequest(c);
      forall error { DecideErrorIff(s, c, error); }
      if r.Ok? { assert s.requests[FindRequest(s.requests, c.requestId)] in s.requests; }
    }

    method UpdateGrant(c: Call) returns (r: Result<Grant>)
      requires c.RevokeGrant?
      modifies this`grants, this`auditEvents
      ensures Contents() == Apply(old(Contents()), c)
      ensures r.Err? <==> RevokeError(old(Contents()), c).Some?
      ensures r.Err? ==> Some(r.error) == RevokeError(old(Contents()), c)
      ensures r.Ok? ==> r.value in grants && NamesItsParties(c, r.value) && r.value.status == Revoked
    {
      var i := FindGrant(grants, c.grantId);
      if i < 0 { return Err(GRANT_NOT_FOUND); }
      var grant := grants[i];
      if c.subject.Some? && grant.subjectId != c.subject.value { return Err(SUBJECT_MISMATCH); }
      if c.requester.Some? && grant.requesterId != c.requester.value { return Err(REQUESTER_MISMATCH); }
      if grant.status == Revoked { return Ok(grant); }
      auditEvents := auditEvents + [RevocationEvent(grant, c)];
      grant := grant.(status := Revoked, revokedAt := Some(c.now));
      grants := grants[i := grant];
      assert grants[i] == grant;
      return Ok(grant);
    }

    /** Refused exactly on the ground named; otherwise the grant, whose parties agree with each party named, is revoked. */
    method RevokeGrantById(c: Call) returns (r: Result<Grant>)
      requires c.RevokeGrant? && Invariant(Contents())
      modifies this`grants, this`auditEvents
      ensures Contents() == Apply(old(Contents()), c) && Invariant(Contents())
      ensures forall error :: r == Err(error) <==> RevokeGround(old(Contents()), c, error)
      ensures r.Ok? ==> r.value in grants && NamesItsParties(c, r.value) && r.value.status == Revoked
    {
      ghost var s := Contents();
      ApplyKeepsInvariant(s, c);
      r := UpdateGrant(c);
      forall error { RevokeErrorIff(s, c, error); }
    }

    /** The active grants of a subject and a requester, where either may be left open: the latest first, and those of one instant in the order they were granted. */
    method ListActiveGrants(subject: Option<string>, requester: Option<string>) returns (found: seq<Grant>)
      ensures IsListing(subject, requester, grants, found)
      ensures multiset(found) == multiset(ActiveAmong(subject, requester, grants))
      ensures Descending(GrantedAt, found)
      ensures forall t :: DatedAt(GrantedAt, t, found) == DatedAt(GrantedAt, t, ActiveAmong(subject, requester, grants))
    {
      var active := [];
      for i := 0 to |grants|
        invariant active == ActiveAmong(subject, requester, grants[..i])
      {
        ActiveStep(subject, requester, grants, i);
        if grants[i].status == Active && (subject.None? || grants[i].subjectId == subject.value)
           && (requester.None? || grants[i].requesterId == requester.value)
        {
          active := active + [grants[i]];
        }
      }
      assert grants[..|grants|] == grants;
      found := NewestFirst(GrantedAt, active);
      NewestListing(subject, requester, grants);
    }
  }
}
