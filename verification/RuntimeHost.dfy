/**
 The runtime host and its demonstration stores as objects whose fields change in
 place. A method runs one call from start to finish with nobody else in between;
 its effect is exactly that of driving the same call through the protocol.
 */
module RuntimeHost {
  import opened Options
  import opened Instants
  import opened ExecutionGrants
  import opened ExecutionGrantGrounds
  import opened ExecutionGrantSafety

  // ---- Driving one call ---------------------------------------------------

  /** The signer's answers and the lineage verdict, for a call that is not interrupted and a sink that delivers. */
  datatype Oracle = Oracle(trusted: set<string>, signatureValid: bool, contained: bool)

  function AnswerFor(c: Call, o: Oracle): Answer {
    match c
    case ResolvingLineage(_, _) => Lineage(o.contained)
    case ReadingKeys(_) => Keys(o.trusted)
    case VerifyingSignature(_) => Signature(o.signatureValid)
    case Emitting(_, _, _) => Sink(true)
    case EmittingError(_, _) => Sink(true)
    case _ => Done
  }

  /** An upper bound on the steps a call still has to take. */
  function StepsLeft(c: Call): nat {
    match c
    case ReadingKeys(_) => 12
    case VerifyingSignature(_) => 11
    case LookingUp(_, _) => 10
    case ReadingRevoked(_, _) => 9
    case ReadingConsumed(_, _) => 8
    case ResolvingLineage(_, _) => 8
    case RecordingNonce(_, _, _) => 5
    case Persisting(_, _, _) => 4
    case Marking(_) => 4
    case Revoking(_) => 4
    case Emitting(_, _, next) => 2 + StepsLeft(next)
    case EmittingError(_, next) => 1 + StepsLeft(next)
    case Returned(_) => 0
    case Refused(_) => 0
    case Abandoned(_) => 0
  }

  lemma CallsFinish(s: System, c: Call, o: Oracle)
    requires !Settled(c)
    ensures StepsLeft(Resume(s, c, AnswerFor(c, o)).1) < StepsLeft(c)
  {
    if c.ReadingConsumed? {
      var all := c.codes + FinalCodes(s, c.req);
      assert StepsLeft(AfterValidation(c.req, all)) <= 4;
    }
  }

  function Drive(s: System, c: Call, o: Oracle): (System, Call)
    decreases StepsLeft(c)
  {
    if Settled(c) then (s, c)
    else
      CallsFinish(s, c, o);
      var (s', c') := Resume(s, c, AnswerFor(c, o));
      Drive(s', c', o)
  }

  /** Driving a call is a run of the protocol in which only that call moves. */
  lemma {:induction false} DriveIsARun(s: System, p: nat, o: Oracle) returns (actions: seq<Action>)
    requires p < |s.calls|
    ensures forall action | action in actions :: action.Step? && action.pid == p
    ensures var (s', c') := Drive(s, s.calls[p], o);
      Settled(c') && Run(s, actions) == s'.(calls := s.calls[p := c'])
    decreases StepsLeft(s.calls[p])
  {
    var c := s.calls[p];
    if Settled(c) {
      actions := [];
      StepGrows(s, c, Done);
    } else {
      CallsFinish(s, c, o);
      StepGrows(s, c, AnswerFor(c, o));
      var first := Step(p, AnswerFor(c, o));
      var t := Act(s, first);
      var rest := DriveIsARun(t, p, o);
      DriveIgnoresCalls(Resume(s, c, AnswerFor(c, o)).0, t.calls, t.calls[p], o);
      actions := [first] + rest;
      RunAppend(s, [first], rest);
      assert [first][..0] == [];
      assert Run(s, [first]) == t;
      assert t.calls[p := Drive(t, t.calls[p], o).1] == s.calls[p := Drive(t, t.calls[p], o).1];
    }
  }

  lemma {:induction false} DriveIgnoresCalls(s: System, calls: seq<Call>, c: Call, o: Oracle)
    ensures var (s', c') := Drive(s, c, o);
      Drive(s.(calls := calls), c, o) == (s'.(calls := calls), c')
    decreases StepsLeft(c)
  {
    if !Settled(c) {
      CallsFinish(s, c, o);
      var (t, d) := Resume(s, c, AnswerFor(c, o));
      assert Resume(s.(calls := calls), c, AnswerFor(c, o)) == (t.(calls := calls), d);
      DriveIgnoresCalls(t, calls, d, o);
    }
  }

  /** An uninterrupted issuance, by whether its nonce was new. */
  lemma DriveToIssue(s: System, entity: Entity, id: string, nonce: string, o: Oracle)
    ensures Drive(s, RecordingNonce(entity, id, nonce), o)
      == if NonceKey(entity, nonce) in s.nonces then (s, Refused(NonceReplay))
         else (Persist(s.(nonces := s.nonces + {NonceKey(entity, nonce)}), entity, id).(audit := s.audit + [Issued(entity, id)]),
               Returned(IssueResult(entity, id, nonce)))
  {
    var start := RecordingNonce(entity, id, nonce);
    var (t, c) := Resume(s, start, AnswerFor(start, o));
    if !Settled(c) {
      var (u, d) := Resume(t, c, AnswerFor(c, o));
      var (v, e) := Resume(u, d, AnswerFor(d, o));
      assert Drive(v, e, o) == (v, e);
      assert Drive(u, d, o) == (v, e);
    }
  }

  /** A call that has one event to emit before it settles. */
  lemma DriveToEvent(s: System, event: Event, end: Call, o: Oracle)
    requires Settled(end)
    ensures Drive(s, Emitting(event, false, end), o) == (s.(audit := s.audit + [event]), end)
  {
    var (t, c) := Resume(s, Emitting(event, false, end), Sink(true));
    assert Drive(t, c, o) == (t, end);
  }

  /** The reason codes of an uninterrupted validation, in the order they are pushed. */
  function CodesOf(s: System, req: Request, trusted: set<string>, signatureValid: bool): seq<Code> {
    SignatureCodes(req, trusted, signatureValid) + LookupCodes(s, req.grant) + RevokedCodes(s, req.grant) + FinalCodes(s, req)
  }

  function SignatureCodes(req: Request, trusted: set<string>, signatureValid: bool): seq<Code> {
    if !KeyTrusted(req.grant, trusted) then [KeyUntrusted]
    else if !signatureValid then [SignatureInvalid]
    else []
  }

  /** Uninterrupted, the protocol reads the same state throughout and reports exactly those codes. */
  lemma DriveToVerdict(s: System, req: Request, o: Oracle)
    ensures var codes := CodesOf(s, req, o.trusted, o.signatureValid);
      Drive(s, ReadingKeys(req), o)
      == Drive(s.(audit := s.audit + [GrantValidated(req.grant.grantId, codes)]), AfterValidation(req, codes), o)
  {
    var first := SignatureCodes(req, o.trusted, o.signatureValid);
    assert Drive(s, ReadingKeys(req), o) == Drive(s, LookingUp(req, first), o);
    var second := first + LookupCodes(s, req.grant);
    assert Drive(s, LookingUp(req, first), o) == Drive(s, ReadingRevoked(req, second), o);
    var third := second + RevokedCodes(s, req.grant);
    assert Drive(s, ReadingRevoked(req, second), o) == Drive(s, ReadingConsumed(req, third), o);
    var all := third + FinalCodes(s, req);
    assert all == CodesOf(s, req, o.trusted, o.signatureValid);
    var c := Emitting(GrantValidated(req.grant.grantId, all), false, AfterValidation(req, all));
    assert Drive(s, ReadingConsumed(req, third), o) == Drive(s, c, o);
  }

  lemma PartsAreGrounds(s: System, req: Request, trusted: set<string>, signatureValid: bool, code: Code)
    ensures code in SignatureCodes(req, trusted, signatureValid) <==> Position(code) < 2 && Ground(s, req, trusted, signatureValid, code)
    ensures code in LookupCodes(s, req.grant) <==> 2 <= Position(code) < 4 && Ground(s, req, trusted, signatureValid, code)
    ensures code in RevokedCodes(s, req.grant) <==> Position(code) == 4 && Ground(s, req, trusted, signatureValid, code)
    ensures code in FinalCodes(s, req) <==> 4 < Position(code) && Ground(s, req, trusted, signatureValid, code)
  {
    ScopeAcceptedIff(req);
    ExpiredIff(req.grant, s.now);
    KeyTrustedIff(req.grant, trusted);
  }

  lemma JoinedInPushOrder(codes: seq<Code>, more: seq<Code>, n: nat)
    requires InPushOrder(codes) && forall code | code in codes :: Position(code) < n
    requires InPushOrder(more) && forall code | code in more :: n <= Position(code)
    ensures InPushOrder(codes + more)
  {
    var all := codes + more;
    forall i, j | 0 <= i < j < |all| ensures Position(all[i]) < Position(all[j]) {
      if i < |codes| <= j { assert codes[i] in codes && more[j - |codes|] in more; }
    }
  }

  lemma CodesInPushOrder(s: System, req: Request, trusted: set<string>, signatureValid: bool)
    ensures InPushOrder(CodesOf(s, req, trusted, signatureValid))
  {
    var first, second := SignatureCodes(req, trusted, signatureValid), LookupCodes(s, req.grant);
    var third, fourth := RevokedCodes(s, req.grant), FinalCodes(s, req);
    forall code { PartsAreGrounds(s, req, trusted, signatureValid, code); }
    JoinedInPushOrder(first, second, 2);
    JoinedInPushOrder(first + second, third, 4);
    JoinedInPushOrder(first + second + third, fourth, 5);
  }

  /** Uninterrupted, each code is reported exactly on its own ground, in the order of the checks and once. */
  lemma CodesAreGrounds(s: System, req: Request, trusted: set<string>, signatureValid: bool)
    ensures var codes := CodesOf(s, req, trusted, signatureValid);
      && InPushOrder(codes)
      && forall code :: code in codes <==> Ground(s, req, trusted, signatureValid, code)
  {
    CodesInPushOrder(s, req, trusted, signatureValid);
    forall code ensures code in CodesOf(s, req, trusted, signatureValid) <==> Ground(s, req, trusted, signatureValid, code) {
      PartsAreGrounds(s, req, trusted, signatureValid, code);
    }
  }

  /** An uninterrupted validation says yes exactly when nothing at all speaks against the grant. */
  lemma ValidExactlyWhenNothingSpeaksAgainst(s: System, req: Request, trusted: set<string>, signatureValid: bool)
    ensures CodesOf(s, req, trusted, signatureValid) == [] <==>
      && (exists key | key in trusted :: key != "" && req.grant.keyId == Some(key))
      && signatureValid
      && (forall ms | req.grant.expiresAt == Some(At(ms)) :: s.now < ms)
      && req.grant.grantId in s.grants - s.revoked - s.consumed
      && ExpectedScopes(req.purpose) <= GrantedScopes(req.grant)
  {
    ScopeAcceptedIff(req);
    KeyTrustedIff(req.grant, trusted);
  }

  /** Uninterrupted, a consumption reports its verdict, and then either the refusal or the mark it made. */
  lemma DriveToConsumption(s: System, req: Request, o: Oracle, codes: seq<Code>)
    requires req.purpose.ForConsumption? && codes == CodesOf(s, req, o.trusted, o.signatureValid)
    ensures Replayed in codes <==> req.grant.grantId in s.consumed
    ensures var id := req.grant.grantId;
      var events := s.audit + [GrantValidated(id, codes)];
      Drive(s, ReadingKeys(req), o) ==
        if codes == [] then
          (s.(consumed := s.consumed + {id}, audit := events + [GrantConsumed(id)]), Returned(ConsumptionResult(req, true, [])))
        else
          (s.(audit := events + [if Replayed in codes then GrantReplayed(id, codes) else GrantValidated(id, codes)]),
           Returned(ConsumptionResult(req, false, codes)))
  {
    var id := req.grant.grantId;
    var validated := s.(audit := s.audit + [GrantValidated(id, codes)]);
    DriveToVerdict(s, req, o);
    CodesAreGrounds(s, req, o.trusted, o.signatureValid);
    assert Replayed in codes <==> Ground(s, req, o.trusted, o.signatureValid, Replayed);
    if codes == [] {
      var marked, end := validated.(consumed := s.consumed + {id}), Returned(ConsumptionResult(req, true, []));
      assert Drive(validated, Marking(req), o) == Drive(marked, Emitting(GrantConsumed(id), false, end), o);
      DriveToEvent(marked, GrantConsumed(id), end, o);
    } else {
      var event := if Replayed in codes then GrantReplayed(id, codes) else GrantValidated(id, codes);
      DriveToEvent(validated, event, Returned(ConsumptionResult(req, false, codes)), o);
    }
  }

  // ---- The demonstration stores -------------------------------------------

  class DemoExecutionGrantStore {
    var grants: map<string, PresentedGrant>
    var consumed: set<string>
    var revoked: set<string>

    constructor ()
      ensures grants == map[] && consumed == {} && revoked == {}
    {
      grants, consumed, revoked := map[], {}, {};
    }

    method PersistGrant(grant: PresentedGrant)
      modifies this`grants
      ensures grants == old(grants)[grant.grantId := grant]
    {
      grants := grants[grant.grantId := grant];
    }

    method GetGrant(grantId: string) returns (grant: Option<PresentedGrant>)
      ensures grant.Some? <==> grantId in grants
      ensures grant.Some? ==> grant.value == grants[grantId]
    {
      if grantId in grants {
        return Some(grants[grantId]);
      }
      return None;
    }

    /** Test and set: the first mark of an id succeeds, every later one reports a replay and changes nothing. */
    method MarkGrantConsumed(grantId: string) returns (marked: bool, codes: seq<Code>)
      modifies this`consumed
      ensures marked <==> grantId !in old(consumed)
      ensures consumed == old(consumed) + {grantId}
      ensures codes == if marked then [] else [Replayed]
    {
      if grantId in consumed {
        return false, [Replayed];
      }
      consumed := consumed + {grantId};
      return true, [];
    }

    method RevokeGrant(grantId: string)
      modifies this`revoked
      ensures revoked == old(revoked) + {grantId}
    {
      revoked := revoked + {grantId};
    }
  }

  class DemoReplayProtection {
    var nonces: set<string>

    constructor ()
      ensures nonces == {}
    {
      nonces := {};
    }

    method RecordNonce(nonce: string, entity: Entity) returns (recorded: bool)
      modifies this
      ensures recorded <==> NonceKey(entity, nonce) !in old(nonces)
      ensures nonces == old(nonces) + {NonceKey(entity, nonce)}
    {
      var key := NonceKey(entity, nonce);
      if key in nonces {
        return false;
      }
      nonces := nonces + {key};
      return true;
    }
  }

  // ---- The runtime --------------------------------------------------------

  class AocEnterpriseRuntime {
    const store: DemoExecutionGrantStore
    const replay: DemoReplayProtection
    var delegations: set<string>
    var claims: set<string>
    var audit: seq<Event>

    constructor (store: DemoExecutionGrantStore, replay: DemoReplayProtection)
      ensures this.store == store && this.replay == replay
      ensures delegations == {} && claims == {} && audit == []
    {
      this.store, this.replay := store, replay;
      delegations, claims, audit := {}, {}, [];
    }

    /** The state of the protocol these objects represent at instant `now`. */
    ghost function Snapshot(now: int): System
      reads this, store, replay
    {
      System(true, now, store.grants.Keys, delegations, claims, store.consumed, store.revoked, replay.nonces, audit, [], [])
    }

    method IssueExecutionGrant(grant: PresentedGrant, nonce: string, ghost now: int) returns (issued: bool)
      modifies this, store, replay
      ensures var o := Oracle({}, false, false);
        var (s, c) := Drive(old(Snapshot(now)), RecordingNonce(GrantEntity, grant.grantId, nonce), o);
        && Snapshot(now) == s
        && c == if issued then Returned(IssueResult(GrantEntity, grant.grantId, nonce)) else Refused(NonceReplay)
      ensures issued <==> NonceKey(GrantEntity, nonce) !in old(replay.nonces)
      ensures store.grants == if issued then old(store.grants)[grant.grantId := grant] else old(store.grants)
      ensures audit == old(audit) + if issued then [Issued(GrantEntity, grant.grantId)] else []
    {
      DriveToIssue(Snapshot(now), GrantEntity, grant.grantId, nonce, Oracle({}, false, false));
      issued := replay.RecordNonce(nonce, GrantEntity);
      if !issued {
        assert replay.nonces == old(replay.nonces);
        return;
      }
      store.PersistGrant(grant);
      assert store.grants.Keys == old(store.grants.Keys) + {grant.grantId};
      audit := audit + [Issued(GrantEntity, grant.grantId)];
    }

    method IssueDelegatedCapability(id: string, nonce: string, contained: bool, ghost now: int) returns (outcome: Call)
      modifies this, replay
      ensures (Snapshot(now), outcome) == Drive(old(Snapshot(now)), ResolvingLineage(id, nonce), Oracle({}, false, contained))
      ensures outcome ==
        if !contained then Refused(LineageBreach)
        else if NonceKey(DelegationEntity, nonce) in old(replay.nonces) then Refused(NonceReplay)
        else Returned(IssueResult(DelegationEntity, id, nonce))
      ensures delegations == old(delegations) + if outcome.Returned? then {id} else {}
      ensures audit == old(audit) +
        if outcome.Returned? then [Issued(DelegationEntity, id)] else if contained then [] else [DelegationDenied(id)]
    {
      DriveToIssue(Snapshot(now), DelegationEntity, id, nonce, Oracle({}, false, contained));
      DriveToEvent(Snapshot(now), DelegationDenied(id), Refused(LineageBreach), Oracle({}, false, contained));
      if !contained {
        audit := audit + [DelegationDenied(id)];
        return Refused(LineageBreach);
      }
      var recorded := replay.RecordNonce(nonce, DelegationEntity);
      if !recorded {
        assert replay.nonces == old(replay.nonces);
        return Refused(NonceReplay);
      }
      delegations := delegations + {id};
      audit := audit + [Issued(DelegationEntity, id)];
      return Returned(IssueResult(DelegationEntity, id, nonce));
    }

    method CreateCapabilityClaim(id: string, nonce: string, ghost now: int) returns (outcome: Call)
      modifies this, replay
      ensures (Snapshot(now), outcome) == Drive(old(Snapshot(now)), RecordingNonce(ClaimEntity, id, nonce), Oracle({}, false, false))
      ensures outcome ==
        if NonceKey(ClaimEntity, nonce) in old(replay.nonces) then Refused(NonceReplay) else Returned(IssueResult(ClaimEntity, id, nonce))
      ensures claims == old(claims) + if outcome.Returned? then {id} else {}
      ensures audit == old(audit) + if outcome.Returned? then [Issued(ClaimEntity, id)] else []
    {
      DriveToIssue(Snapshot(now), ClaimEntity, id, nonce, Oracle({}, false, false));
      var recorded := replay.RecordNonce(nonce, ClaimEntity);
      if !recorded {
        assert replay.nonces == old(replay.nonces);
        return Refused(NonceReplay);
      }
      claims := claims + {id};
      audit := audit + [Issued(ClaimEntity, id)];
      return Returned(IssueResult(ClaimEntity, id, nonce));
    }

    method PushReasonCodes(req: Request, trusted: set<string>, signatureValid: bool, now: int) returns (codes: seq<Code>)
      ensures codes == CodesOf(Snapshot(now), req, trusted, signatureValid)
    {
      ghost var s := Snapshot(now);
      codes := [];
      if !KeyTrusted(req.grant, trusted) {
        codes := codes + [KeyUntrusted];
      } else if !signatureValid {
        codes := codes + [SignatureInvalid];
      }
      assert codes == SignatureCodes(req, trusted, signatureValid);
      ghost var first := codes;
      if IsExpired(req.grant, now) { codes := codes + [Expired]; }
      var found := store.GetGrant(req.grant.grantId);
      if found.None? { codes := codes + [Unknown]; }
      assert codes == first + LookupCodes(s, req.grant);
      ghost var second := codes;
      if req.grant.grantId in store.revoked { codes := codes + [Revoked]; }
      assert codes == second + RevokedCodes(s, req.grant);
      var last := PushFinalCodes(req);
      codes := codes + last;
    }

    method PushFinalCodes(req: Request) returns (codes: seq<Code>)
      ensures forall now :: codes == FinalCodes(Snapshot(now), req)
    {
      codes := [];
      if req.grant.grantId in store.consumed { codes := codes + [Replayed]; }
      if !ScopeAccepted(req) { codes := codes + [ScopeMismatch]; }
    }

    method ValidateExecutionGrant(req: Request, trusted: set<string>, signatureValid: bool, now: int)
      returns (codes: seq<Code>)
      modifies this`audit
      ensures Snapshot(now) == old(Snapshot(now)).(audit := old(audit) + [GrantValidated(req.grant.grantId, codes)])
      ensures codes == CodesOf(old(Snapshot(now)), req, trusted, signatureValid)
      ensures InPushOrder(codes)
      ensures forall code :: code in codes <==> Ground(old(Snapshot(now)), req, trusted, signatureValid, code)
    {
      codes := PushReasonCodes(req, trusted, signatureValid, now);
      CodesAreGrounds(Snapshot(now), req, trusted, signatureValid);
      audit := audit + [GrantValidated(req.grant.grantId, codes)];
    }

    method ConsumeExecutionGrant(grant: PresentedGrant, trusted: set<string>, signatureValid: bool, now: int)
      returns (valid: bool, codes: seq<Code>)
      modifies this`audit, store`consumed
      ensures var req := Request(ForConsumption, grant);
        (Snapshot(now), Returned(ConsumptionResult(req, valid, codes)))
        == Drive(old(Snapshot(now)), ReadingKeys(req), Oracle(trusted, signatureValid, false))
      ensures valid <==> codes == []
      ensures forall code :: code in codes <==> Ground(old(Snapshot(now)), Request(ForConsumption, grant), trusted, signatureValid, code)
      ensures store.consumed == old(store.consumed) + if valid then {grant.grantId} else {}
      ensures audit == old(audit) + [GrantValidated(grant.grantId, codes)]
        + [if valid then GrantConsumed(grant.grantId)
           else if grant.grantId in old(store.consumed) then GrantReplayed(grant.grantId, codes)
           else GrantValidated(grant.grantId, codes)]
    {
      var req := Request(ForConsumption, grant);
      var id := grant.grantId;
      codes := ValidateExecutionGrant(req, trusted, signatureValid, now);
      DriveToConsumption(old(Snapshot(now)), req, Oracle(trusted, signatureValid, false), codes);
      if codes != [] {
        audit := audit + [if Replayed in codes then GrantReplayed(id, codes) else GrantValidated(id, codes)];
        return false, codes;
      }
      valid, codes := store.MarkGrantConsumed(id);
      audit := audit + [if valid then GrantConsumed(id) else GrantReplayed(id, codes)];
    }

    method RevokeExecutionGrant(grantId: string, ghost now: int)
      modifies this`audit, store`revoked
      ensures (Snapshot(now), Returned(RevocationResult(grantId)))
        == Drive(old(Snapshot(now)), Revoking(grantId), Oracle({}, false, false))
      ensures store.revoked == old(store.revoked) + {grantId}
      ensures audit == old(audit) + [GrantRevoked(grantId)]
    {
      store.RevokeGrant(grantId);
      DriveToEvent(Snapshot(now), GrantRevoked(grantId), Returned(RevocationResult(grantId)), Oracle({}, false, false));
      audit := audit + [GrantRevoked(grantId)];
    }
  }
}
