/**
 What the verdict of one validate or consume call says about the state of the
 stores while the call was in flight, whatever other calls did meanwhile.
 */
module ExecutionGrantVerdicts {
  import opened Options
  import opened Instants
  import opened ExecutionGrants
  import opened ExecutionGrantGrounds
  import opened ExecutionGrantSafety

  // ---- Refusals that nothing can avert ------------------------------------

  /** The world already contradicts the grant, and cannot take it back. */
  predicate Contradicts(s: System, grant: PresentedGrant, code: Code) {
    match code
    case Revoked => grant.grantId in s.revoked
    case Replayed => grant.grantId in s.consumed
    case Expired => Overdue(grant, s.now)
    case _ => false
  }

  /** The call will report `code`, if it returns at all. */
  predicate Doomed(c: Call, req: Request, code: Code) {
    match c
    case ReadingKeys(r) => r == req
    case VerifyingSignature(r) => r == req
    case LookingUp(r, _) => r == req
    case ReadingRevoked(r, codes) => r == req && (code == Expired ==> code in codes)
    case ReadingConsumed(r, codes) => r == req && (code == Expired || code == Revoked ==> code in codes)
    case Emitting(_, _, next) => Doomed(next, req, code)
    case EmittingError(_, next) => Doomed(next, req, code)
    case Abandoned(_) => true
    case Returned(ValidationResult(r, codes)) => r == req && code in codes
    case Returned(ConsumptionResult(r, valid, codes)) => r == req && !valid && code in codes
    case _ => false
  }

  lemma ContradictionStays(s: System, action: Action, grant: PresentedGrant, code: Code)
    requires Contradicts(s, grant, code)
    ensures Contradicts(Act(s, action), grant, code)
  {
    if action.Step? && action.pid < |s.calls| {
      StepGrows(s, s.calls[action.pid], action.answer);
    }
  }

  lemma DoomedSteps(s: System, c: Call, a: Answer, req: Request, code: Code)
    requires Contradicts(s, req.grant, code) && Doomed(c, req, code)
    ensures Doomed(Resume(s, c, a).1, req, code)
  {
    if c.ReadingConsumed? {
      var all := c.codes + FinalCodes(s, c.req);
      assert code in all;
      assert Doomed(AfterValidation(c.req, all), req, code);
    }
  }

  lemma {:induction false} DoomedRuns(s: System, actions: seq<Action>, p: nat, req: Request, code: Code)
    requires p < |s.calls|
    requires Contradicts(s, req.grant, code) && Doomed(s.calls[p], req, code)
    ensures var s' := Run(s, actions);
      Contradicts(s', req.grant, code) && p < |s'.calls| && Doomed(s'.calls[p], req, code)
  {
    if actions != [] {
      var n := |actions| - 1;
      DoomedRuns(s, actions[..n], p, req, code);
      var t := Run(s, actions[..n]);
      ContradictionStays(t, actions[n], req.grant, code);
      DoomedSteps(t, t.calls[p], if actions[n].Step? then actions[n].answer else Done, req, code);
    }
  }

  /** The call ended without an answer, or with a refusal that names `code`. */
  predicate Refuses(c: Call, req: Request, code: Code) {
    || c.Abandoned?
    || (c.Returned? && c.outcome.ValidationResult? && c.outcome.req == req && code in c.outcome.codes)
    || (c.Returned? && c.outcome.ConsumptionResult? && c.outcome.req == req && !c.outcome.valid && code in c.outcome.codes)
  }

  /**
   A call that begins once the grant is revoked, consumed or expired is refused for
   that reason, whatever other calls are in flight and whatever they do meanwhile.
   */
  lemma BegunTooLate(s: System, req: Request, code: Code, actions: seq<Action>)
    requires Contradicts(s, req.grant, code)
    ensures var s' := Run(Act(s, Start(ReadingKeys(req))), actions);
      |s.calls| < |s'.calls| && (Settled(s'.calls[|s.calls|]) ==> Refuses(s'.calls[|s.calls|], req, code))
  {
    DoomedRuns(Act(s, Start(ReadingKeys(req))), actions, |s.calls|, req, code);
  }

  /** A revocation that has returned, or a consumption that has, is such a contradiction. */
  lemma CompletedCallsContradict(s: System, q: nat, grant: PresentedGrant)
    requires Reachable(s) && q < |s.calls|
    ensures s.calls[q] == Returned(RevocationResult(grant.grantId)) ==> Contradicts(s, grant, Revoked)
    ensures ReturnedValid(s.calls[q], grant.grantId) ==> Contradicts(s, grant, Replayed)
  {
    ReachableInvariant(s);
    assert Justified(s, s.calls[q]);
  }

  // ---- The read that decides about revocation -----------------------------

  predicate Fate(c: Call, req: Request, revoked: bool) {
    match c
    case ReadingConsumed(r, codes) => r == req && (Revoked in codes <==> revoked)
    case Marking(r) => r == req && !revoked
    case Emitting(_, _, next) => Fate(next, req, revoked)
    case EmittingError(_, next) => Fate(next, req, revoked)
    case Abandoned(_) => true
    case Returned(ValidationResult(r, codes)) => r == req && (Revoked in codes <==> revoked)
    case Returned(ConsumptionResult(r, _, codes)) => r == req && (Revoked in codes <==> revoked)
    case _ => false
  }

  lemma FateSteps(s: System, c: Call, a: Answer, req: Request, revoked: bool)
    requires Fate(c, req, revoked)
    ensures Fate(Resume(s, c, a).1, req, revoked)
  {
    if c.ReadingConsumed? {
      var all := c.codes + FinalCodes(s, c.req);
      assert Revoked in all <==> Revoked in c.codes;
      assert Fate(AfterValidation(c.req, all), req, revoked);
    }
  }

  lemma {:induction false} FateRuns(s: System, actions: seq<Action>, p: nat, req: Request, revoked: bool)
    requires p < |s.calls| && Fate(s.calls[p], req, revoked)
    ensures var s' := Run(s, actions); p < |s'.calls| && Fate(s'.calls[p], req, revoked)
  {
    if actions != [] {
      var n := |actions| - 1;
      FateRuns(s, actions[..n], p, req, revoked);
      var t := Run(s, actions[..n]);
      FateSteps(t, t.calls[p], if actions[n].Step? then actions[n].answer else Done, req, revoked);
    }
  }

  predicate Reports(c: Call, req: Request, codes: seq<Code>) {
    && c.Returned?
    && (c.outcome.ValidationResult? || c.outcome.ConsumptionResult?)
    && c.outcome.req == req && c.outcome.codes == codes
  }

  /** Whether a call reports the revocation is decided by the store at the instant of its own read, and by nothing later. */
  lemma RevocationReadDecides(s: System, p: nat, a: Answer, actions: seq<Action>, req: Request, codes: seq<Code>)
    requires Reachable(s) && p < |s.calls| && s.calls[p].ReadingRevoked? && s.calls[p].req == req
    requires var s' := Run(Act(s, Step(p, a)), actions); p < |s'.calls| && Reports(s'.calls[p], req, codes)
    ensures Revoked in codes <==> req.grant.grantId in s.revoked
  {
    ReachableInvariant(s);
    assert Justified(s, s.calls[p]);
    FateRuns(Act(s, Step(p, a)), actions, p, req, req.grant.grantId in s.revoked);
  }

  lemma RunOne(s: System, action: Action)
    ensures Run(s, [action]) == Act(s, action)
  {
    assert [action][..0] == [];
  }

  lemma ReachableStep(s: System, action: Action)
    requires Reachable(s)
    ensures Reachable(Act(s, action))
  {
    RunOne(s, action);
    ReachableExtends(s, [action]);
  }

  function RaceRequest(): Request {
    Request(ForConsumption, PresentedGrant("g", Some("k"), None, None))
  }

  /** Grant "g" is issued by call 0, and call 1 starts to consume it. */
  lemma RaceOpens() returns (s: System)
    ensures Reachable(s) && s.grants == {"g"} && s.consumed == {} && s.revoked == {}
    ensures s.calls == [Returned(IssueResult(GrantEntity, "g", "n")), ReadingKeys(RaceRequest())]
  {
    s := Fresh(true, 0);
    assert s == Run(s, []);
    s := Advance(s, Start(RecordingNonce(GrantEntity, "g", "n")));
    s := Advance(s, Step(0, Done));
    s := Advance(s, Step(0, Done));
    s := Advance(s, Step(0, Sink(true)));
    s := Advance(s, Start(ReadingKeys(RaceRequest())));
  }

  /** Call 1 gets past its revocation read. */
  lemma RaceReads() returns (s: System)
    ensures Reachable(s) && s.grants == {"g"} && s.consumed == {} && s.revoked == {}
    ensures s.calls == [Returned(IssueResult(GrantEntity, "g", "n")), ReadingConsumed(RaceRequest(), [])]
  {
    s := RaceOpens();
    s := Advance(s, Step(1, Keys({"k"})));
    s := Advance(s, Step(1, Signature(true)));
    assert s.calls[1] == LookingUp(RaceRequest(), []);
    assert [] + LookupCodes(s, RaceRequest().grant) == [];
    s := Advance(s, Step(1, Done));
    assert [] + RevokedCodes(s, RaceRequest().grant) == [];
    s := Advance(s, Step(1, Done));
  }

  /** Call 2 revokes the grant and returns. */
  lemma RaceRevokes() returns (s: System)
    ensures Reachable(s) && s.consumed == {}
    ensures s.calls == [
      Returned(IssueResult(GrantEntity, "g", "n")),
      ReadingConsumed(RaceRequest(), []),
      Returned(RevocationResult("g"))]
  {
    s := RaceReads();
    s := Advance(s, Start(Revoking("g")));
    s := Advance(s, Step(2, Done));
    s := Advance(s, Step(2, Sink(true)));
  }

  /**
   The guarantee stops there: a revocation that returns after the call's own read, but
   before its mark, does not prevent the consumption from succeeding.
   */
  lemma RevocationBetweenReadAndMark() returns (s: System, actions: seq<Action>)
    ensures Reachable(s) && |s.calls| == 3
    ensures s.calls[2] == Returned(RevocationResult("g")) && !Settled(s.calls[1])
    ensures |Run(s, actions).calls| == 3 && ReturnedValid(Run(s, actions).calls[1], "g")
  {
    s := RaceRevokes();
    actions := [Step(1, Done), Step(1, Sink(true)), Step(1, Done), Step(1, Sink(true))];
    RunFour(s, actions[0], actions[1], actions[2], actions[3]);
    RaceMarks(s);
  }

  lemma RaceMarks(s: System)
    requires s.consumed == {} && |s.calls| == 3 && s.calls[1] == ReadingConsumed(RaceRequest(), [])
    ensures var t := Act(Act(Act(Act(s, Step(1, Done)), Step(1, Sink(true))), Step(1, Done)), Step(1, Sink(true)));
      |t.calls| == 3 && t.calls[1] == Returned(ConsumptionResult(RaceRequest(), true, []))
  {
    var req := RaceRequest();
    assert [] + FinalCodes(s, req) == [];
    var a := Act(s, Step(1, Done));
    assert a.calls[1] == Emitting(GrantValidated("g", []), false, Marking(req)) && a.consumed == {};
    var b := Act(a, Step(1, Sink(true)));
    assert b.calls[1] == Marking(req) && b.consumed == {};
    var c := Act(b, Step(1, Done));
    assert c.calls[1] == Emitting(GrantConsumed("g"), false, Returned(ConsumptionResult(req, true, [])));
  }

  lemma Advance(s: System, action: Action) returns (s': System)
    requires Reachable(s)
    ensures s' == Act(s, action) && Reachable(s')
  {
    s' := Act(s, action);
    ReachableStep(s, action);
  }

  lemma RunFour(s: System, a: Action, b: Action, c: Action, d: Action)
    ensures Run(s, [a, b, c, d]) == Act(Act(Act(Act(s, a), b), c), d)
  {
    assert [a, b, c, d] == [a] + [b] + [c] + [d];
    RunOne(s, a);
    RunAppend(s, [a], [b]);
    RunOne(Act(s, a), b);
    RunAppend(s, [a] + [b], [c]);
    RunOne(Act(Act(s, a), b), c);
    RunAppend(s, [a] + [b] + [c], [d]);
    RunOne(Act(Act(Act(s, a), b), c), d);
  }

  // ---- Everything a yes stands for ----------------------------------------

  /** How many of its six checks the call has passed, reading for `req`. */
  function Level(c: Call, req: Request): nat {
    match c
    case VerifyingSignature(r) => if r == req then 1 else 0
    case LookingUp(r, codes) => if r == req && codes == [] then 2 else 0
    case ReadingRevoked(r, codes) => if r == req && codes == [] then 3 else 0
    case ReadingConsumed(r, codes) => if r == req && codes == [] then 4 else 0
    case Marking(r) => if r == req then 5 else 0
    case Emitting(_, _, next) => Level(next, req)
    case EmittingError(_, next) => Level(next, req)
    case Abandoned(next) => Level(next, req)
    case Returned(ValidationResult(r, codes)) => if r == req && codes == [] then 5 else 0
    case Returned(ConsumptionResult(r, valid, _)) => if r == req && valid then 6 else 0
    case _ => 0
  }

  /** The step by which a call passes check number `level`, and what that step finds. */
  predicate Passes(s: System, c: Call, a: Answer, req: Request, level: nat) {
    var id := req.grant.grantId;
    match level
    case 1 => c == ReadingKeys(req) && a.Keys? && Trusted(req.grant, a.trusted)
    case 2 => c == VerifyingSignature(req) && a == Signature(true)
    case 3 => c == LookingUp(req, []) && !Overdue(req.grant, s.now) && id in s.grants
    case 4 => c == ReadingRevoked(req, []) && id !in s.revoked
    case 5 => c == ReadingConsumed(req, []) && id !in s.consumed && InScope(req)
    case 6 => c == Marking(req) && id !in s.consumed
    case _ => false
  }

  ghost predicate PassedDuring(s: System, actions: seq<Action>, p: nat, req: Request, level: nat) {
    exists k :: 0 <= k < |actions| && PassedAt(s, actions, k, p, req, level)
  }

  ghost predicate PassedAt(s: System, actions: seq<Action>, k: nat, p: nat, req: Request, level: nat)
    requires k < |actions|
  {
    && actions[k].Step? && actions[k].pid == p
    && var t := Run(s, actions[..k]);
       p < |t.calls| && Passes(t, t.calls[p], actions[k].answer, req, level)
  }

  lemma LevelAfterValidation(s: System, req: Request, r: Request, codes: seq<Code>)
    ensures var level := Level(AfterValidation(r, codes), req); level <= 5 && (level > 0 ==> r == req && codes == [])
  {
  }

  /** A step either passes the next check or gets no further. */
  predicate Climbs(s: System, c: Call, a: Answer, req: Request) {
    var level := Level(Resume(s, c, a).1, req);
    level <= Level(c, req) || (level == Level(c, req) + 1 && Passes(s, c, a, req, level))
  }

  lemma SignatureStepsClimb(s: System, c: Call, a: Answer, req: Request)
    requires c.ReadingKeys? || c.VerifyingSignature?
    ensures Climbs(s, c, a, req)
  {
    if a.Keys? { KeyTrustedIff(req.grant, a.trusted); }
  }

  lemma StoreReadsClimb(s: System, c: Call, a: Answer, req: Request)
    requires c.LookingUp? || c.ReadingRevoked?
    ensures Climbs(s, c, a, req)
  {
    ExpiredIff(req.grant, s.now);
  }

  lemma LastReadClimbs(s: System, c: Call, a: Answer, req: Request)
    requires c.ReadingConsumed?
    ensures Climbs(s, c, a, req)
  {
    ScopeAcceptedIff(req);
    LevelAfterValidation(s, req, c.req, c.codes + FinalCodes(s, c.req));
  }

  lemma MarkingClimbs(s: System, c: Call, a: Answer, req: Request)
    requires c.Marking?
    ensures Climbs(s, c, a, req)
  {
  }

  /** Issuing, revoking and emitting pass no check. */
  lemma OtherStepsDoNotClimb(s: System, c: Call, a: Answer, req: Request)
    requires c.ResolvingLineage? || c.RecordingNonce? || c.Persisting? || c.Revoking? || c.Emitting? || c.EmittingError? || Settled(c)
    ensures Level(Resume(s, c, a).1, req) <= Level(c, req)
  {
  }

  lemma LevelSteps(s: System, c: Call, a: Answer, req: Request)
    ensures Climbs(s, c, a, req)
  {
    if c.ReadingKeys? || c.VerifyingSignature? {
      SignatureStepsClimb(s, c, a, req);
    } else if c.LookingUp? || c.ReadingRevoked? {
      StoreReadsClimb(s, c, a, req);
    } else if c.ReadingConsumed? {
      LastReadClimbs(s, c, a, req);
    } else if c.Marking? {
      MarkingClimbs(s, c, a, req);
    } else {
      OtherStepsDoNotClimb(s, c, a, req);
    }
  }

  lemma PassedEarlier(s: System, actions: seq<Action>, n: nat, p: nat, req: Request, level: nat)
    requires n <= |actions| && PassedDuring(s, actions[..n], p, req, level)
    ensures PassedDuring(s, actions, p, req, level)
  {
    var k :| 0 <= k < n && PassedAt(s, actions[..n], k, p, req, level);
    assert actions[..n][..k] == actions[..k];
    assert PassedAt(s, actions, k, p, req, level);
  }

  /** A call only gets as far as the checks it has actually passed, each at an instant of its own run. */
  lemma {:induction false} LevelsWerePassed(s: System, actions: seq<Action>, p: nat, req: Request)
    requires Invariant(s) && |s.calls| <= p < |Run(s, actions).calls|
    ensures forall level | 1 <= level <= Level(Run(s, actions).calls[p], req) :: PassedDuring(s, actions, p, req, level)
  {
    if actions != [] {
      var n := |actions| - 1;
      var t := Run(s, actions[..n]);
      var last := actions[n];
      RunKeeps(s, actions[..n]);
      if p < |t.calls| {
        LevelsWerePassed(s, actions[..n], p, req);
        assert Justified(t, t.calls[p]);
        if last.Step? && last.pid == p {
          LevelSteps(t, t.calls[p], last.answer, req);
        }
        forall level | 1 <= level <= Level(Run(s, actions).calls[p], req)
          ensures PassedDuring(s, actions, p, req, level)
        {
          if level <= Level(t.calls[p], req) {
            PassedEarlier(s, actions, n, p, req, level);
          } else {
            assert PassedAt(s, actions, n, p, req, level);
          }
        }
      }
    }
  }

  /**
   A successful consumption passed every check at some instant of the run: trusted key, signature,
   persisted and unexpired, not revoked, not consumed, and finally an unconsumed mark.
   */
  lemma ValidConsumptionPassedEveryCheck(failClosed: bool, now: int, actions: seq<Action>, p: nat, req: Request)
    requires p < |Run(Fresh(failClosed, now), actions).calls|
    requires Run(Fresh(failClosed, now), actions).calls[p] == Returned(ConsumptionResult(req, true, []))
    ensures forall level | 1 <= level <= 6 :: PassedDuring(Fresh(failClosed, now), actions, p, req, level)
  {
    FreshInvariant(failClosed, now);
    LevelsWerePassed(Fresh(failClosed, now), actions, p, req);
  }

  /** So did a successful validation, up to the mark it never makes. */
  lemma ValidValidationPassedEveryCheck(failClosed: bool, now: int, actions: seq<Action>, p: nat, req: Request)
    requires p < |Run(Fresh(failClosed, now), actions).calls|
    requires Run(Fresh(failClosed, now), actions).calls[p] == Returned(ValidationResult(req, []))
    ensures forall level | 1 <= level <= 5 :: PassedDuring(Fresh(failClosed, now), actions, p, req, level)
  {
    FreshInvariant(failClosed, now);
    LevelsWerePassed(Fresh(failClosed, now), actions, p, req);
  }
}
