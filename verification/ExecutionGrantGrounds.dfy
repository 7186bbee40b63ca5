/**
 What each reason code says of a grant, on its own, and what becomes of a call
 whose events cannot be delivered.
 */
module ExecutionGrantGrounds {
  import opened Options
  import opened Instants
  import opened ExecutionGrants

  // ---- The grounds ------------------------------------------------------------------

  function ExpectedScopes(purpose: Purpose): set<string> {
    match purpose
    case ForConsumption => {}
    case ForValidation(Unspecified) => {}
    case ForValidation(OneScope(scope)) => {scope}
    case ForValidation(Scopes(scopes)) => set scope | scope in scopes
  }

  function GrantedScopes(grant: PresentedGrant): set<string> {
    match grant.requestedScope
    case None => {}
    case Some(scopes) => set scope | scope in scopes
  }

  /** Every scope that is expected was granted. */
  predicate InScope(req: Request) {
    ExpectedScopes(req.purpose) <= GrantedScopes(req.grant)
  }

  predicate Overdue(grant: PresentedGrant, now: int) {
    match grant.expiresAt
    case Some(At(ms)) => ms <= now
    case _ => false
  }

  /** The grant names a key, and that key is among the trusted ones. */
  predicate Trusted(grant: PresentedGrant, trusted: set<string>) {
    exists key | key in trusted :: key != "" && grant.keyId == Some(key)
  }

  predicate Ground(s: System, req: Request, trusted: set<string>, signatureValid: bool, code: Code) {
    var id := req.grant.grantId;
    match code
    case KeyUntrusted => !Trusted(req.grant, trusted)
    case SignatureInvalid => Trusted(req.grant, trusted) && !signatureValid
    case Expired => Overdue(req.grant, s.now)
    case Unknown => id !in s.grants
    case Revoked => id in s.revoked
    case Replayed => id in s.consumed
    case ScopeMismatch => !InScope(req)
  }

  /** The order in which codes are pushed. */
  function Position(code: Code): nat {
    match code
    case KeyUntrusted => 0
    case SignatureInvalid => 1
    case Expired => 2
    case Unknown => 3
    case Revoked => 4
    case Replayed => 5
    case ScopeMismatch => 6
  }

  predicate InPushOrder(codes: seq<Code>) {
    forall i, j | 0 <= i < j < |codes| :: Position(codes[i]) < Position(codes[j])
  }

  // ---- The checks decide exactly these ---------------------------------------------------

  /** A presented scope passes exactly when it holds every expected one. */
  lemma ScopeAcceptedIff(req: Request)
    ensures ScopeAccepted(req) <==> InScope(req)
  {
    if req.purpose.ForValidation? && req.purpose.expected.Scopes? {
      assert forall scope :: scope in req.purpose.expected.scopes <==> scope in ExpectedScopes(req.purpose);
    }
  }

  lemma ExpiredIff(grant: PresentedGrant, now: int)
    ensures IsExpired(grant, now) <==> Overdue(grant, now)
  {
  }

  lemma KeyTrustedIff(grant: PresentedGrant, trusted: set<string>)
    ensures KeyTrusted(grant, trusted) <==> Trusted(grant, trusted)
  {
  }

  // ---- Events that cannot be delivered -------------------------------------------------------

  /**
   A call that has one event left to emit ends as it was to end exactly when that event or
   its error event is delivered, or the event is enforced and the host does not fail closed.
   */
  lemma DeliveryDecides(s: System, event: Event, enforced: bool, next: Call, first: bool, second: bool)
    requires Settled(next) && !next.Abandoned?
    ensures var (t, reporting) := Resume(s, Emitting(event, enforced, next), Sink(first));
      var (u, end) := Resume(t, reporting, Sink(second));
      && end == (if first || second || (enforced && !s.failClosed) then next else Abandoned(next))
      && u.audit == s.audit + (if first then [event] else if second then [LifecycleError] else [])
      && u.undelivered == s.undelivered + (if first then [] else [event])
  {
  }

  /**
   Once persisted, an issue is reported to its caller exactly when its event or its error
   event is delivered, or it is a claim and the host does not fail closed; either way it stays issued.
   */
  lemma IssueIsReportedIff(s: System, entity: Entity, id: string, nonce: string, first: bool, second: bool)
    ensures var (persisted, emitting) := Resume(s, Persisting(entity, id, nonce), Done);
      var (t, reporting) := Resume(persisted, emitting, Sink(first));
      var (u, end) := Resume(t, reporting, Sink(second));
      && Stored(u, entity, id)
      && end == if first || second || (entity == ClaimEntity && !s.failClosed) then Returned(IssueResult(entity, id, nonce))
                else Abandoned(Returned(IssueResult(entity, id, nonce)))
  {
  }

  /** A consumption refused for its codes is reported once more, as a replay exactly when it is one. */
  lemma RefusedConsumptionIsReported(s: System, req: Request, codes: seq<Code>)
    requires req.purpose.ForConsumption? && codes != []
    ensures var (t, end) := Resume(s, AfterValidation(req, codes), Sink(true));
      && end == Returned(ConsumptionResult(req, false, codes))
      && exists event :: t == s.(audit := s.audit + [event])
           && (event == GrantReplayed(req.grant.grantId, codes) <==> Replayed in codes)
           && (event == GrantValidated(req.grant.grantId, codes) <==> Replayed !in codes)
  {
    var replayed, validated := GrantReplayed(req.grant.grantId, codes), GrantValidated(req.grant.grantId, codes);
    assert Resume(s, AfterValidation(req, codes), Sink(true)).0 == s.(audit := s.audit + [if Replayed in codes then replayed else validated]);
  }

  /** The scope each kind of nonce is kept under. */
  lemma NonceKeyReads(nonce: string)
    ensures NonceKey(GrantEntity, nonce) == "grant:execution:" + nonce
    ensures NonceKey(DelegationEntity, nonce) == "delegation:delegated-capability:" + nonce
    ensures NonceKey(ClaimEntity, nonce) == "claim:capability-claim:" + nonce
  {
  }
}
