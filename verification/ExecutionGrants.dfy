/**
 The execution-grant runtime as a protocol. A call is suspended at every
 `await`; each store, signer or sink access is one atomic step of one call, and
 a run interleaves the steps of any number of calls in any order.
 */
module ExecutionGrants {
  import opened Options
  import opened Instants

  // ---- What a caller presents --------------------------------------------

  datatype ExpectedScope = Unspecified | OneScope(scope: string) | Scopes(scopes: seq<string>)

  datatype PresentedGrant = PresentedGrant(
    grantId: string,
    keyId: Option<string>,
    expiresAt: Option<Instant>,
    requestedScope: Option<seq<string>>)

  datatype Purpose = ForValidation(expected: ExpectedScope) | ForConsumption

  datatype Request = Request(purpose: Purpose, grant: PresentedGrant)

  datatype Code =
    | KeyUntrusted
    | SignatureInvalid
    | Expired
    | Unknown
    | Revoked
    | Replayed
    | ScopeMismatch

  predicate ContainsExpectedScope(actual: Option<seq<string>>, expected: ExpectedScope) {
    match expected
    case Unspecified => true
    case OneScope(scope) => actual.Some? && scope in actual.value
    case Scopes(scopes) => forall scope | scope in scopes :: actual.Some? && scope in actual.value
  }

  predicate ScopeAccepted(req: Request) {
    req.purpose.ForConsumption? || ContainsExpectedScope(req.grant.requestedScope, req.purpose.expected)
  }

  /** An expiry that cannot be read never passes. */
  predicate IsExpired(grant: PresentedGrant, now: int) {
    grant.expiresAt.Some? && grant.expiresAt.value.At? && grant.expiresAt.value.ms <= now
  }

  predicate KeyTrusted(grant: PresentedGrant, trusted: set<string>) {
    grant.keyId.Some? && grant.keyId.value != "" && grant.keyId.value in trusted
  }

  // ---- Issuing -----------------------------------------------------------

  datatype Entity = GrantEntity | DelegationEntity | ClaimEntity

  function ScopeFor(entity: Entity): string {
    match entity
    case GrantEntity => "grant:execution"
    case DelegationEntity => "delegation:delegated-capability"
    case ClaimEntity => "claim:capability-claim"
  }

  function NonceKey(entity: Entity, nonce: string): string {
    ScopeFor(entity) + ":" + nonce
  }

  // ---- Calls -------------------------------------------------------------

  datatype Event =
    | Issued(entity: Entity, id: string)
    | DelegationDenied(id: string)
    | GrantValidated(id: string, codes: seq<Code>)
    | GrantConsumed(id: string)
    | GrantReplayed(id: string, codes: seq<Code>)
    | GrantRevoked(id: string)
    | LifecycleError

  datatype Outcome =
    | IssueResult(entity: Entity, id: string, nonce: string)
    | ValidationResult(req: Request, codes: seq<Code>)
    | ConsumptionResult(req: Request, valid: bool, codes: seq<Code>)
    | RevocationResult(id: string)

  datatype Refusal = NonceReplay | LineageBreach

  /** Where a call is suspended, with the locals it will resume with. */
  datatype Call =
    | ResolvingLineage(id: string, nonce: string)
    | RecordingNonce(entity: Entity, id: string, nonce: string)
    | Persisting(entity: Entity, id: string, nonce: string)
    | ReadingKeys(req: Request)
    | VerifyingSignature(req: Request)
    | LookingUp(req: Request, codes: seq<Code>)
    | ReadingRevoked(req: Request, codes: seq<Code>)
    | ReadingConsumed(req: Request, codes: seq<Code>)
    | Marking(req: Request)
    | Revoking(id: string)
    | Emitting(event: Event, enforced: bool, next: Call)
    | EmittingError(enforced: bool, next: Call)
    | Returned(outcome: Outcome)
    | Refused(reason: Refusal)        // threw before anything was issued
    | Abandoned(next: Call)           // threw because neither audit emission was delivered

  /** What the world answers a suspended call with. */
  datatype Answer =
    | Done
    | Lineage(contained: bool)
    | Keys(trusted: set<string>)
    | Signature(valid: bool)
    | Sink(delivered: bool)

  /** The stores behind the ports, the audit sink, the clock, and every call ever made. */
  datatype System = System(
    failClosed: bool,
    now: int,
    grants: set<string>,
    delegations: set<string>,
    claims: set<string>,
    consumed: set<string>,
    revoked: set<string>,
    nonces: set<string>,
    audit: seq<Event>,
    undelivered: seq<Event>,
    calls: seq<Call>)

  function Fresh(failClosed: bool, now: int): System {
    System(failClosed, now, {}, {}, {}, {}, {}, {}, [], [], [])
  }

  function Persist(s: System, entity: Entity, id: string): System {
    match entity
    case GrantEntity => s.(grants := s.grants + {id})
    case DelegationEntity => s.(delegations := s.delegations + {id})
    case ClaimEntity => s.(claims := s.claims + {id})
  }

  predicate Stored(s: System, entity: Entity, id: string) {
    match entity
    case GrantEntity => id in s.grants
    case DelegationEntity => id in s.delegations
    case ClaimEntity => id in s.claims
  }

  function LookupCodes(s: System, grant: PresentedGrant): seq<Code> {
    (if IsExpired(grant, s.now) then [Expired] else [])
    + (if grant.grantId in s.grants then [] else [Unknown])
  }

  function RevokedCodes(s: System, grant: PresentedGrant): seq<Code> {
    if grant.grantId in s.revoked then [Revoked] else []
  }

  function FinalCodes(s: System, req: Request): seq<Code> {
    (if req.grant.grantId in s.consumed then [Replayed] else [])
    + (if ScopeAccepted(req) then [] else [ScopeMismatch])
  }

  /** How a call goes on once `validateExecutionGrant` has its reason codes. */
  function AfterValidation(req: Request, codes: seq<Code>): Call {
    match req.purpose
    case ForValidation(_) => Returned(ValidationResult(req, codes))
    case ForConsumption =>
      if codes == [] then Marking(req)
      else
        Emitting(
          if Replayed in codes then GrantReplayed(req.grant.grantId, codes) else GrantValidated(req.grant.grantId, codes),
          false,
          Returned(ConsumptionResult(req, false, codes)))
  }

  /** One atomic step of a suspended call. An answer to some other question changes nothing. */
  function Resume(s: System, c: Call, a: Answer): (System, Call) {
    match c
    case ResolvingLineage(id, nonce) =>
      if !a.Lineage? then (s, c)
      else if a.contained then (s, RecordingNonce(DelegationEntity, id, nonce))
      else (s, Emitting(DelegationDenied(id), false, Refused(LineageBreach)))
    case RecordingNonce(entity, id, nonce) =>
      var key := NonceKey(entity, nonce);
      if key in s.nonces then (s, Refused(NonceReplay))
      else (s.(nonces := s.nonces + {key}), Persisting(entity, id, nonce))
    case Persisting(entity, id, nonce) =>
      (Persist(s, entity, id),
       Emitting(Issued(entity, id), entity.ClaimEntity?, Returned(IssueResult(entity, id, nonce))))
    case ReadingKeys(req) =>
      if !a.Keys? then (s, c)
      else if KeyTrusted(req.grant, a.trusted) then (s, VerifyingSignature(req))
      else (s, LookingUp(req, [KeyUntrusted]))
    case VerifyingSignature(req) =>
      if !a.Signature? then (s, c)
      else (s, LookingUp(req, if a.valid then [] else [SignatureInvalid]))
    case LookingUp(req, codes) =>
      (s, ReadingRevoked(req, codes + LookupCodes(s, req.grant)))
    case ReadingRevoked(req, codes) =>
      (s, ReadingConsumed(req, codes + RevokedCodes(s, req.grant)))
    case ReadingConsumed(req, codes) =>
      var all := codes + FinalCodes(s, req);
      (s, Emitting(GrantValidated(req.grant.grantId, all), false, AfterValidation(req, all)))
    case Marking(req) =>
      var id := req.grant.grantId;
      if id in s.consumed then
        (s, Emitting(GrantReplayed(id, [Replayed]), false, Returned(ConsumptionResult(req, false, [Replayed]))))
      else
        (s.(consumed := s.consumed + {id}),
         Emitting(GrantConsumed(id), false, Returned(ConsumptionResult(req, true, []))))
    case Revoking(id) =>
      (s.(revoked := s.revoked + {id}), Emitting(GrantRevoked(id), false, Returned(RevocationResult(id))))
    case Emitting(event, enforced, next) =>
      if !a.Sink? then (s, c)
      else if a.delivered then (s.(audit := s.audit + [event]), next)
      else (s.(undelivered := s.undelivered + [event]), EmittingError(enforced, next))
    case EmittingError(enforced, next) =>
      if !a.Sink? then (s, c)
      else if a.delivered then (s.(audit := s.audit + [LifecycleError]), next)
      else if enforced && !s.failClosed then (s, next)
      else (s, Abandoned(next))
    case Returned(_) => (s, c)
    case Refused(_) => (s, c)
    case Abandoned(_) => (s, c)
  }

  // ---- Runs --------------------------------------------------------------

  /** The states a call can be in when it is made. */
  predicate IsEntry(c: Call) {
    c.ResolvingLineage? || c.ReadingKeys? || c.Revoking? || (c.RecordingNonce? && !c.entity.DelegationEntity?)
  }

  datatype Action =
    | Start(call: Call)
    | Step(pid: nat, answer: Answer)
    | Tick(ms: nat)

  function Act(s: System, action: Action): System {
    match action
    case Start(call) => if IsEntry(call) then s.(calls := s.calls + [call]) else s
    case Step(pid, answer) =>
      if pid < |s.calls| then
        var (t, c) := Resume(s, s.calls[pid], answer);
        t.(calls := s.calls[pid := c])
      else s
    case Tick(ms) => s.(now := s.now + ms)
  }

  function Run(s: System, actions: seq<Action>): System {
    if actions == [] then s
    else Act(Run(s, actions[..|actions| - 1]), actions[|actions| - 1])
  }

  predicate Settled(c: Call) {
    c.Returned? || c.Refused? || c.Abandoned?
  }
}
