/**
 The control-plane service: access requests, consent decisions and grants kept as
 records that change in place, beside an audit log that only grows.
 */
module ControlPlane {
  import opened Options
  import opened Lists

  datatype RequestStatus = Pending | Approved | Denied

  datatype GrantStatus = Active | Revoked

  datatype Request = Request(
    requestId: string, subjectId: string, requesterId: string, datasetId: string, purpose: string, requestedScope: seq<string>,
    status: RequestStatus, createdAt: int, updatedAt: int)

  datatype Verdict = Approve | Deny

  datatype Decision = Decision(
    decisionId: string, requestId: string, subjectId: string, decision: Verdict, reason: Option<string>, decidedAt: int)

  datatype Grant = Grant(
    grantId: string, requestId: string, subjectId: string, requesterId: string, datasetId: string, scope: seq<string>,
    status: GrantStatus, grantedAt: int, revokedAt: Option<int>)

  datatype EventType = ACCESS_REQUEST_CREATED | ACCESS_REQUEST_APPROVED | ACCESS_REQUEST_DENIED | GRANT_CREATED | GRANT_REVOKED

  /** A grant is named in the metadata of the event that creates it, and in a field of the event that revokes it. */
  datatype Event = Event(
    eventId: string, eventType: EventType, occurredAt: int, requestId: string, subjectId: string, requesterId: string,
    grantId: Option<string>, metadataDecisionId: Option<string>, metadataGrantId: Option<string>)

  datatype State = State(requests: seq<Request>, decisions: seq<Decision>, grants: seq<Grant>, auditEvents: seq<Event>)

  const EMPTY_STATE: State := State([], [], [], [])

  datatype Error = REQUEST_NOT_FOUND | GRANT_NOT_FOUND | SUBJECT_MISMATCH | REQUESTER_MISMATCH | NOT_PENDING

  // ---- Calls, each with the identifiers it draws -----------------------------------

  datatype Call =
    | Create(subjectId: string, requesterId: string, datasetId: string, purpose: string, requestedScope: Option<seq<string>>,
             requestId: string, eventId: string, now: int)
    | Decide(requestId: string, subjectId: string, decision: Verdict, reason: Option<string>,
             decisionId: string, eventId: string, newGrantId: string, grantEventId: string, now: int)
    | RevokeGrant(grantId: string, subject: Option<string>, requester: Option<string>, eventId: string, now: int)

  function FindRequest(requests: seq<Request>, id: string): (i: int)
    ensures -1 <= i < |requests|
    ensures i >= 0 ==> requests[i].requestId == id
    ensures i == -1 ==> forall r | r in requests :: r.requestId != id
  {
    if requests == [] then -1
    else if requests[0].requestId == id then 0
    else
      var i := FindRequest(requests[1..], id);
      assert forall r | r in requests :: r == requests[0] || r in requests[1..];
      if i < 0 then -1 else i + 1
  }

  function FindGrant(grants: seq<Grant>, id: string): (i: int)
    ensures -1 <= i < |grants|
    ensures i >= 0 ==> grants[i].grantId == id
    ensures i == -1 ==> forall g | g in grants :: g.grantId != id
  {
    if grants == [] then -1
    else if grants[0].grantId == id then 0
    else
      var i := FindGrant(grants[1..], id);
      assert forall g | g in grants :: g == grants[0] || g in grants[1..];
      if i < 0 then -1 else i + 1
  }

  function Audit(eventType: EventType, r: Request, decisionId: Option<string>, grantId: Option<string>, eventId: string, now: int): Event {
    Event(eventId, eventType, now, r.requestId, r.subjectId, r.requesterId, None, decisionId, grantId)
  }

  // ---- The effect of a call -----------------------------------------------------------

  function NewRequest(c: Call): Request
    requires c.Create?
  {
    Request(c.requestId, c.subjectId, c.requesterId, c.datasetId, c.purpose,
            if c.requestedScope.Some? then c.requestedScope.value else [], Pending, c.now, c.now)
  }

  function DecideError(s: State, c: Call): Option<Error>
    requires c.Decide?
  {
    var i := FindRequest(s.requests, c.requestId);
    if i < 0 then Some(REQUEST_NOT_FOUND)
    else if s.requests[i].subjectId != c.subjectId then Some(SUBJECT_MISMATCH)
    else if s.requests[i].status != Pending then Some(NOT_PENDING)
    else None
  }

  function Decided(r: Request, c: Call): Request
    requires c.Decide?
  {
    r.(status := if c.decision == Approve then Approved else Denied, updatedAt := c.now)
  }

  function NewDecision(c: Call): Decision
    requires c.Decide?
  {
    Decision(c.decisionId, c.requestId, c.subjectId, c.decision, c.reason, c.now)
  }

  /** The grant copies its parties, its dataset and its scope from the request. */
  function NewGrant(r: Request, c: Call): Grant
    requires c.Decide?
  {
    Grant(c.newGrantId, r.requestId, r.subjectId, r.requesterId, r.datasetId, r.requestedScope, Active, c.now, None)
  }

  function RevokeError(s: State, c: Call): Option<Error>
    requires c.RevokeGrant?
  {
    var i := FindGrant(s.grants, c.grantId);
    if i < 0 then Some(GRANT_NOT_FOUND)
    else if c.subject.Some? && s.grants[i].subjectId != c.subject.value then Some(SUBJECT_MISMATCH)
    else if c.requester.Some? && s.grants[i].requesterId != c.requester.value then Some(REQUESTER_MISMATCH)
    else None
  }

  function ErrorOf(s: State, c: Call): Option<Error> {
    match c
    case Create(_, _, _, _, _, _, _, _) => None
    case Decide(_, _, _, _, _, _, _, _, _) => DecideError(s, c)
    case RevokeGrant(_, _, _, _, _) => RevokeError(s, c)
  }

  function AfterCreate(s: State, c: Call): State
    requires c.Create?
  {
    s.(requests := s.requests + [NewRequest(c)],
       auditEvents := s.auditEvents + [Audit(ACCESS_REQUEST_CREATED, NewRequest(c), None, None, c.eventId, c.now)])
  }

  function AfterDecide(s: State, c: Call): State
    requires c.Decide? && DecideError(s, c).None?
  {
    var i := FindRequest(s.requests, c.requestId);
    var request := Decided(s.requests[i], c);
    var requests, decisions := s.requests[i := request], s.decisions + [NewDecision(c)];
    if c.decision == Deny then
      State(requests, decisions, s.grants,
            s.auditEvents + [Audit(ACCESS_REQUEST_DENIED, request, Some(c.decisionId), None, c.eventId, c.now)])
    else
      State(requests, decisions, s.grants + [NewGrant(request, c)],
            s.auditEvents + [Audit(ACCESS_REQUEST_APPROVED, request, Some(c.decisionId), None, c.eventId, c.now),
                             Audit(GRANT_CREATED, request, None, Some(c.newGrantId), c.grantEventId, c.now)])
  }

  function RevocationEvent(g: Grant, c: Call): Event
    requires c.RevokeGrant?
  {
    Event(c.eventId, GRANT_REVOKED, c.now, g.requestId, g.subjectId, g.requesterId, Some(g.grantId), None, None)
  }

  /** Revoking a revoked grant changes nothing and logs nothing. */
  function AfterRevoke(s: State, c: Call): State
    requires c.RevokeGrant? && RevokeError(s, c).None?
  {
    var i := FindGrant(s.grants, c.grantId);
    var grant := s.grants[i];
    if grant.status == Revoked then s
    else s.(grants := s.grants[i := grant.(status := Revoked, revokedAt := Some(c.now))],
            auditEvents := s.auditEvents + [RevocationEvent(grant, c)])
  }

  function Apply(s: State, c: Call): State {
    if ErrorOf(s, c).Some? then s
    else match c
      case Create(_, _, _, _, _, _, _, _) => AfterCreate(s, c)
      case Decide(_, _, _, _, _, _, _, _, _) => AfterDecide(s, c)
      case RevokeGrant(_, _, _, _, _) => AfterRevoke(s, c)
  }

  /** Identifiers are drawn at random and assumed never to repeat. */
  predicate Fresh(s: State, c: Call) {
    match c
    case Create(_, _, _, _, _, requestId, _, _) => forall r | r in s.requests :: r.requestId != requestId
    case Decide(_, _, _, _, _, _, newGrantId, _, _) => forall g | g in s.grants :: g.grantId != newGrantId
    case RevokeGrant(_, _, _, _, _) => true
  }

  function Run(calls: seq<Call>): State {
    if calls == [] then EMPTY_STATE else Apply(Run(calls[..|calls| - 1]), calls[|calls| - 1])
  }

  ghost predicate FreshRun(calls: seq<Call>) {
    forall i | 0 <= i < |calls| :: Fresh(Run(calls[..i]), calls[i])
  }

  // ---- Replaying the log ------------------------------------------------------------------

  datatype View = View(requests: map<string, RequestStatus>, grants: map<string, GrantStatus>)

  function ReplayOne(v: View, e: Event): View {
    match e.eventType
    case ACCESS_REQUEST_CREATED => v.(requests := v.requests[e.requestId := Pending])
    case ACCESS_REQUEST_APPROVED => v.(requests := v.requests[e.requestId := Approved])
    case ACCESS_REQUEST_DENIED => v.(requests := v.requests[e.requestId := Denied])
    case GRANT_CREATED => if e.metadataGrantId.Some? then v.(grants := v.grants[e.metadataGrantId.value := Active]) else v
    case GRANT_REVOKED => if e.grantId.Some? then v.(grants := v.grants[e.grantId.value := Revoked]) else v
  }

  /** Statuses rebuilt from the log alone, from nothing. */
  function Replay(events: seq<Event>): View {
    if events == [] then View(map[], map[]) else ReplayOne(Replay(events[..|events| - 1]), events[|events| - 1])
  }

  lemma ReplaySnoc(events: seq<Event>, e: Event)
    ensures Replay(events + [e]) == ReplayOne(Replay(events), e)
  {
    assert (events + [e])[..|events + [e]| - 1] == events;
  }

  /** The statuses the records themselves carry. */
  function RequestStatuses(requests: seq<Request>): map<string, RequestStatus> {
    if requests == [] then map[]
    else RequestStatuses(requests[..|requests| - 1])[requests[|requests| - 1].requestId := requests[|requests| - 1].status]
  }

  function GrantStatuses(grants: seq<Grant>): map<string, GrantStatus> {
    if grants == [] then map[]
    else GrantStatuses(grants[..|grants| - 1])[grants[|grants| - 1].grantId := grants[|grants| - 1].status]
  }

  predicate DistinctRequests(requests: seq<Request>) {
    forall i, j | 0 <= i < j < |requests| :: requests[i].requestId != requests[j].requestId
  }

  predicate DistinctGrants(grants: seq<Grant>) {
    forall i, j | 0 <= i < j < |grants| :: grants[i].grantId != grants[j].grantId
  }

  lemma {:induction false} RequestStatusesUpdate(requests: seq<Request>, i: nat, r: Request)
    requires DistinctRequests(requests) && i < |requests| && r.requestId == requests[i].requestId
    ensures RequestStatuses(requests[i := r]) == RequestStatuses(requests)[r.requestId := r.status]
  {
    var n := |requests| - 1;
    var updated := requests[i := r];
    if i < n {
      RequestStatusesUpdate(requests[..n], i, r);
      assert updated[..n] == requests[..n][i := r];
    } else {
      assert updated[..n] == requests[..n];
    }
  }

  lemma {:induction false} GrantStatusesUpdate(grants: seq<Grant>, i: nat, g: Grant)
    requires DistinctGrants(grants) && i < |grants| && g.grantId == grants[i].grantId
    ensures GrantStatuses(grants[i := g]) == GrantStatuses(grants)[g.grantId := g.status]
  {
    var n := |grants| - 1;
    var updated := grants[i := g];
    if i < n {
      GrantStatusesUpdate(grants[..n], i, g);
      assert updated[..n] == grants[..n][i := g];
    } else {
      assert updated[..n] == grants[..n];
    }
  }
}
