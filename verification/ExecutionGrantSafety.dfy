/**
 What holds in every run of the execution-grant protocol, whatever the
 interleaving, whatever the answers, and whether or not the audit sink delivers.
 */
module ExecutionGrantSafety {
  import opened Options
  import opened Instants
  import opened ExecutionGrants

  // ---- Single-use tokens --------------------------------------------------

  /** What an atomic test-and-set hands out at most once: the mark of a grant, or a nonce. */
  datatype Token = Mark(grantId: string) | Nonce(key: string)

  predicate Taken(s: System, t: Token) {
    match t
    case Mark(id) => id in s.consumed
    case Nonce(key) => key in s.nonces
  }

  /** The call won the token: it will return on the strength of it, or already has. */
  predicate Holds(c: Call, t: Token) {
    match c
    case Persisting(entity, _, nonce) => t == Nonce(NonceKey(entity, nonce))
    case Emitting(_, _, next) => Holds(next, t)
    case EmittingError(_, next) => Holds(next, t)
    case Abandoned(next) => Holds(next, t)
    case Returned(IssueResult(entity, _, nonce)) => t == Nonce(NonceKey(entity, nonce))
    case Returned(ConsumptionResult(req, valid, _)) => valid && t == Mark(req.grant.grantId)
    case _ => false
  }

  ghost predicate Exclusive(s: System) {
    forall t: Token, i, j | 0 <= i < j < |s.calls| :: !(Holds(s.calls[i], t) && Holds(s.calls[j], t))
  }

  ghost predicate Accounted(s: System) {
    forall t: Token :: Taken(s, t) <==> exists i :: 0 <= i < |s.calls| && Holds(s.calls[i], t)
  }

  /** The two steps that test and set. */
  predicate TestsAndSets(c: Call) {
    c.RecordingNonce? || c.Marking?
  }

  lemma AfterValidationHoldsNothing(req: Request, codes: seq<Code>, t: Token)
    ensures !Holds(AfterValidation(req, codes), t)
  {
  }

  /** Nothing is won, and nothing given up. */
  predicate TakesNothing(s: System, c: Call, a: Answer, t: Token) {
    var (s', c') := Resume(s, c, a);
    (Taken(s, t) <==> Taken(s', t)) && (Holds(c', t) <==> Holds(c, t))
  }

  lemma ReadingTakesNothing(s: System, c: Call, a: Answer, t: Token)
    requires c.ResolvingLineage? || c.ReadingKeys? || c.VerifyingSignature? || c.LookingUp? || c.ReadingRevoked?
    ensures TakesNothing(s, c, a, t)
  {
  }

  lemma LastReadTakesNothing(s: System, c: Call, a: Answer, t: Token)
    requires c.ReadingConsumed?
    ensures TakesNothing(s, c, a, t)
  {
    AfterValidationHoldsNothing(c.req, c.codes + FinalCodes(s, c.req), t);
  }

  lemma StoringTakesNothing(s: System, c: Call, a: Answer, t: Token)
    requires c.Persisting? || c.Revoking?
    ensures TakesNothing(s, c, a, t)
  {
  }

  lemma EmittingTakesNothing(s: System, c: Call, a: Answer, t: Token)
    requires c.Emitting? || c.EmittingError?
    ensures TakesNothing(s, c, a, t)
  {
  }

  lemma QuietStepTakesNothing(s: System, c: Call, a: Answer, t: Token)
    requires !TestsAndSets(c)
    ensures TakesNothing(s, c, a, t)
  {
    if c.ReadingConsumed? {
      LastReadTakesNothing(s, c, a, t);
    } else if c.Persisting? || c.Revoking? {
      StoringTakesNothing(s, c, a, t);
    } else if c.Emitting? || c.EmittingError? {
      EmittingTakesNothing(s, c, a, t);
    } else if !Settled(c) {
      ReadingTakesNothing(s, c, a, t);
    }
  }

  lemma NonceStepTakes(s: System, c: Call, a: Answer, t: Token)
    requires c.RecordingNonce?
    ensures var (s', c') := Resume(s, c, a);
      (Taken(s, t) ==> Taken(s', t)) && !Holds(c, t) && (Holds(c', t) <==> Taken(s', t) && !Taken(s, t))
  {
  }

  lemma MarkStepTakes(s: System, c: Call, a: Answer, t: Token)
    requires c.Marking?
    ensures var (s', c') := Resume(s, c, a);
      (Taken(s, t) ==> Taken(s', t)) && !Holds(c, t) && (Holds(c', t) <==> Taken(s', t) && !Taken(s, t))
  {
  }

  /** A step of a call wins a token exactly when it is the step that takes it. */
  lemma StepTakesWhatItHolds(s: System, c: Call, a: Answer, t: Token)
    ensures var (s', c') := Resume(s, c, a);
      && (Taken(s, t) ==> Taken(s', t))
      && (Holds(c', t) <==> Holds(c, t) || (Taken(s', t) && !Taken(s, t)))
  {
    if c.RecordingNonce? {
      NonceStepTakes(s, c, a, t);
    } else if c.Marking? {
      MarkStepTakes(s, c, a, t);
    } else {
      QuietStepTakesNothing(s, c, a, t);
    }
  }

  // ---- What a suspended call has established ------------------------------

  predicate WillEmitConsumed(c: Call, id: string) {
    c.Emitting? && c.event == GrantConsumed(id)
  }

  ghost predicate EmitsNoConsumption(c: Call) {
    forall id :: !WillEmitConsumed(c, id)
  }

  ghost predicate Justified(s: System, c: Call)
    decreases c
  {
    match c
    case Persisting(entity, _, nonce) => NonceKey(entity, nonce) in s.nonces
    case LookingUp(_, codes) => Revoked !in codes
    case ReadingRevoked(req, codes) => (codes == [] ==> req.grant.grantId in s.grants) && Revoked !in codes
    case ReadingConsumed(req, codes) => codes == [] ==> req.grant.grantId in s.grants
    case Marking(req) => req.purpose.ForConsumption? && req.grant.grantId in s.grants
    case Emitting(_, _, next) => Justified(s, next) && EmitsNoConsumption(next)
    case EmittingError(_, next) => Justified(s, next) && EmitsNoConsumption(next)
    case Abandoned(next) => Justified(s, next)
    case Returned(IssueResult(entity, id, nonce)) => NonceKey(entity, nonce) in s.nonces && Stored(s, entity, id)
    case Returned(ConsumptionResult(req, valid, codes)) =>
      && (valid <==> codes == [])
      && (valid ==> req.grant.grantId in s.consumed && req.grant.grantId in s.grants)
    case Returned(RevocationResult(id)) => id in s.revoked
    case _ => true
  }

  ghost predicate Grows(s: System, s': System) {
    && s.grants <= s'.grants && s.delegations <= s'.delegations && s.claims <= s'.claims
    && s.consumed <= s'.consumed && s.revoked <= s'.revoked && s.nonces <= s'.nonces
    && s.now <= s'.now && s.audit <= s'.audit
  }

  lemma {:induction false} JustifiedStays(s: System, s': System, c: Call)
    requires Grows(s, s') && Justified(s, c)
    ensures Justified(s', c)
    decreases c
  {
    match c
    case Emitting(_, _, next) => JustifiedStays(s, s', next);
    case EmittingError(_, next) => JustifiedStays(s, s', next);
    case Abandoned(next) => JustifiedStays(s, s', next);
    case _ =>
  }

  lemma StepGrows(s: System, c: Call, a: Answer)
    ensures Grows(s, Resume(s, c, a).0)
    ensures Resume(s, c, a).0.calls == s.calls
  {
  }

  lemma AfterValidationIsJustified(s: System, req: Request, codes: seq<Code>)
    requires codes == [] ==> req.grant.grantId in s.grants
    ensures Justified(s, AfterValidation(req, codes))
    ensures EmitsNoConsumption(AfterValidation(req, codes))
  {
  }

  lemma StepJustifies(s: System, c: Call, a: Answer)
    requires Justified(s, c)
    ensures var (s', c') := Resume(s, c, a); Justified(s', c')
  {
    var (s', c') := Resume(s, c, a);
    StepGrows(s, c, a);
    match c
    case Emitting(_, _, next) => JustifiedStays(s, s', next);
    case EmittingError(_, next) => JustifiedStays(s, s', next);
    case LookingUp(req, codes) =>
      assert LookupCodes(s, req.grant) == [] ==> req.grant.grantId in s.grants;
    case ReadingConsumed(req, codes) =>
      AfterValidationIsJustified(s, req, codes + FinalCodes(s, req));
    case _ =>
  }

  // ---- The audit trail ----------------------------------------------------

  function Count(events: seq<Event>, e: Event): nat {
    multiset(events)[e]
  }

  function Pending(calls: seq<Call>, id: string): nat {
    if calls == [] then 0
    else (if WillEmitConsumed(calls[0], id) then 1 else 0) + Pending(calls[1..], id)
  }

  lemma {:induction false} PendingUpdate(calls: seq<Call>, p: nat, c: Call, id: string)
    requires p < |calls|
    ensures Pending(calls[p := c], id) + (if WillEmitConsumed(calls[p], id) then 1 else 0)
         == Pending(calls, id) + (if WillEmitConsumed(c, id) then 1 else 0)
  {
    if p == 0 {
      assert calls[0 := c][1..] == calls[1..];
    } else {
      assert calls[p := c][1..] == calls[1..][p - 1 := c];
      PendingUpdate(calls[1..], p - 1, c, id);
    }
  }

  lemma {:induction false} PendingAppend(calls: seq<Call>, c: Call, id: string)
    ensures Pending(calls + [c], id) == Pending(calls, id) + (if WillEmitConsumed(c, id) then 1 else 0)
  {
    if calls == [] {
      assert calls + [c] == [c];
    } else {
      assert (calls + [c])[1..] == calls[1..] + [c];
      PendingAppend(calls[1..], c, id);
    }
  }

  /** Every successful mark is in the log, on its way to the log, or was refused by the sink - once. */
  ghost predicate Conserved(s: System) {
    forall id :: Count(s.audit, GrantConsumed(id)) + Count(s.undelivered, GrantConsumed(id)) + Pending(s.calls, id)
              == if id in s.consumed then 1 else 0
  }

  function One(b: bool): nat {
    if b then 1 else 0
  }

  lemma CountSnoc(events: seq<Event>, event: Event, e: Event)
    ensures Count(events + [event], e) == Count(events, e) + One(event == e)
  {
  }

  /** What a step moves between the logs, the mark and the event still to be emitted adds up. */
  predicate Balances(s: System, c: Call, a: Answer, id: string) {
    var (s', c') := Resume(s, c, a);
    var e := GrantConsumed(id);
    Count(s'.audit, e) + Count(s'.undelivered, e) + One(WillEmitConsumed(c', id)) + One(id in s.consumed)
    == Count(s.audit, e) + Count(s.undelivered, e) + One(WillEmitConsumed(c, id)) + One(id in s'.consumed)
  }

  lemma EmittingBalances(s: System, c: Call, a: Answer, id: string)
    requires c.Emitting? && EmitsNoConsumption(c.next)
    ensures Balances(s, c, a, id)
  {
    assert !WillEmitConsumed(c.next, id);
    CountSnoc(s.audit, c.event, GrantConsumed(id));
    CountSnoc(s.undelivered, c.event, GrantConsumed(id));
  }

  lemma EmittingErrorBalances(s: System, c: Call, a: Answer, id: string)
    requires c.EmittingError? && EmitsNoConsumption(c.next)
    ensures Balances(s, c, a, id)
  {
    assert !WillEmitConsumed(c.next, id);
    CountSnoc(s.audit, LifecycleError, GrantConsumed(id));
  }

  lemma MarkingBalances(s: System, c: Call, a: Answer, id: string)
    requires c.Marking?
    ensures Balances(s, c, a, id)
  {
  }

  /** Every other step leaves both logs and the marks alone, and has no consumption to emit before or after. */
  lemma OtherStepsEmitNothing(s: System, c: Call, a: Answer, id: string)
    requires !c.Emitting? && !c.EmittingError? && !c.Marking?
    ensures var (s', c') := Resume(s, c, a);
      && s'.audit == s.audit && s'.undelivered == s.undelivered && s'.consumed == s.consumed
      && !WillEmitConsumed(c, id) && !WillEmitConsumed(c', id)
  {
  }

  lemma StepConserves(s: System, c: Call, a: Answer, id: string)
    requires Justified(s, c)
    ensures Balances(s, c, a, id)
  {
    if c.Emitting? {
      EmittingBalances(s, c, a, id);
    } else if c.EmittingError? {
      EmittingErrorBalances(s, c, a, id);
    } else if c.Marking? {
      MarkingBalances(s, c, a, id);
    } else {
      OtherStepsEmitNothing(s, c, a, id);
    }
  }

  // ---- The invariant ------------------------------------------------------

  ghost predicate Invariant(s: System) {
    && s.consumed <= s.grants
    && (forall i | 0 <= i < |s.calls| :: Justified(s, s.calls[i]))
    && Exclusive(s)
    && Accounted(s)
    && Conserved(s)
  }

  lemma EntryHoldsNothing(c: Call, t: Token)
    requires IsEntry(c)
    ensures !Holds(c, t)
  {
  }

  lemma StartKeeps(s: System, c: Call)
    requires Invariant(s) && IsEntry(c)
    ensures Invariant(Act(s, Start(c)))
  {
    var s' := Act(s, Start(c));
    forall i | 0 <= i < |s'.calls|
      ensures Justified(s', s'.calls[i])
    {
      if i < |s.calls| { JustifiedStays(s, s', s.calls[i]); }
    }
    forall t: Token ensures !Holds(c, t) { EntryHoldsNothing(c, t); }
    forall t: Token
      ensures Taken(s', t) <==> exists i :: 0 <= i < |s'.calls| && Holds(s'.calls[i], t)
    {
      if Taken(s, t) {
        var i :| 0 <= i < |s.calls| && Holds(s.calls[i], t);
        assert Holds(s'.calls[i], t);
      }
    }
    forall id
      ensures Count(s'.audit, GrantConsumed(id)) + Count(s'.undelivered, GrantConsumed(id)) + Pending(s'.calls, id)
           == if id in s'.consumed then 1 else 0
    {
      PendingAppend(s.calls, c, id);
    }
  }

  lemma StepKeepsTokens(s: System, p: nat, a: Answer)
    requires Exclusive(s) && Accounted(s) && p < |s.calls|
    ensures Exclusive(Act(s, Step(p, a))) && Accounted(Act(s, Step(p, a)))
  {
    var c := s.calls[p];
    var s' := Act(s, Step(p, a));
    forall t: Token, i, j | 0 <= i < j < |s'.calls|
      ensures !(Holds(s'.calls[i], t) && Holds(s'.calls[j], t))
    {
      StepTakesWhatItHolds(s, c, a, t);
    }
    forall t: Token
      ensures Taken(s', t) <==> exists i :: 0 <= i < |s'.calls| && Holds(s'.calls[i], t)
    {
      StepTakesWhatItHolds(s, c, a, t);
      if Taken(s, t) {
        var i :| 0 <= i < |s.calls| && Holds(s.calls[i], t);
        assert Holds(s'.calls[i], t);
      } else {
        assert Taken(s', t) ==> Holds(s'.calls[p], t);
      }
    }
  }

  lemma StepKeeps(s: System, p: nat, a: Answer)
    requires Invariant(s) && p < |s.calls|
    ensures Invariant(Act(s, Step(p, a)))
  {
    var c := s.calls[p];
    var s' := Act(s, Step(p, a));
    StepGrows(s, c, a);
    StepJustifies(s, c, a);
    StepKeepsTokens(s, p, a);
    forall i | 0 <= i < |s'.calls|
      ensures Justified(s', s'.calls[i])
    {
      if i != p { JustifiedStays(s, s', s.calls[i]); } else { JustifiedStays(Resume(s, c, a).0, s', s'.calls[p]); }
    }
    forall id
      ensures Count(s'.audit, GrantConsumed(id)) + Count(s'.undelivered, GrantConsumed(id)) + Pending(s'.calls, id)
           == if id in s'.consumed then 1 else 0
    {
      PendingUpdate(s.calls, p, s'.calls[p], id);
      StepConserves(s, c, a, id);
    }
  }

  lemma ActKeeps(s: System, action: Action)
    requires Invariant(s)
    ensures Invariant(Act(s, action))
    ensures Grows(s, Act(s, action))
  {
    match action
    case Start(call) =>
      if IsEntry(call) { StartKeeps(s, call); }
    case Step(pid, answer) =>
      if pid < |s.calls| {
        StepKeeps(s, pid, answer);
        StepGrows(s, s.calls[pid], answer);
      }
    case Tick(ms) =>
      var s' := Act(s, action);
      forall i | 0 <= i < |s'.calls| ensures Justified(s', s'.calls[i]) {
        JustifiedStays(s, s', s.calls[i]);
      }
      assert forall t: Token :: Taken(s', t) == Taken(s, t);
  }

  lemma {:induction false} RunKeeps(s: System, actions: seq<Action>)
    requires Invariant(s)
    ensures Invariant(Run(s, actions))
    ensures Grows(s, Run(s, actions))
  {
    if actions != [] {
      var before := actions[..|actions| - 1];
      RunKeeps(s, before);
      ActKeeps(Run(s, before), actions[|actions| - 1]);
    }
  }

  lemma FreshInvariant(failClosed: bool, now: int)
    ensures Invariant(Fresh(failClosed, now))
  {
  }

  /** The states some run from empty stores ends in. */
  ghost predicate Reachable(s: System) {
    exists failClosed, now, actions :: s == Run(Fresh(failClosed, now), actions)
  }

  lemma ReachableInvariant(s: System)
    requires Reachable(s)
    ensures Invariant(s)
  {
    var failClosed, now, actions :| s == Run(Fresh(failClosed, now), actions);
    FreshInvariant(failClosed, now);
    RunKeeps(Fresh(failClosed, now), actions);
  }

  lemma {:induction false} RunAppend(s: System, before: seq<Action>, after: seq<Action>)
    ensures Run(s, before + after) == Run(Run(s, before), after)
  {
    if after == [] {
      assert before + after == before;
    } else {
      var n := |after| - 1;
      assert (before + after)[..|before + after| - 1] == before + after[..n];
      RunAppend(s, before, after[..n]);
    }
  }

  lemma ReachableExtends(s: System, actions: seq<Action>)
    requires Reachable(s)
    ensures Reachable(Run(s, actions))
  {
    var failClosed, now, before :| s == Run(Fresh(failClosed, now), before);
    RunAppend(Fresh(failClosed, now), before, actions);
    assert Run(s, actions) == Run(Fresh(failClosed, now), before + actions);
  }

  // ---- Main results -------------------------------------------------------

  predicate ReturnedValid(c: Call, id: string) {
    c.Returned? && c.outcome.ConsumptionResult? && c.outcome.valid && c.outcome.req.grant.grantId == id
  }

  /** In every run at most one consumption of a grant succeeds, and it succeeds only for a persisted, now consumed grant. */
  lemma AtMostOneConsumption(s: System, id: string, i: nat, j: nat)
    requires Reachable(s)
    requires i < |s.calls| && ReturnedValid(s.calls[i], id)
    requires j < |s.calls| && ReturnedValid(s.calls[j], id)
    ensures i == j
    ensures id in s.consumed && id in s.grants && s.calls[i].outcome.codes == []
  {
    ReachableInvariant(s);
    assert Holds(s.calls[i], Mark(id)) && Holds(s.calls[j], Mark(id));
    assert Justified(s, s.calls[i]);
  }

  /** A grant is marked consumed exactly when some one call holds the mark; nothing else marks it. */
  lemma ConsumedIffHeld(s: System, id: string)
    requires Reachable(s)
    ensures s.consumed <= s.grants
    ensures id in s.consumed <==> exists i :: 0 <= i < |s.calls| && Holds(s.calls[i], Mark(id))
  {
    ReachableInvariant(s);
    assert Taken(s, Mark(id)) <==> id in s.consumed;
  }

  /** Marks and `grant_consumed` events balance at every instant of every run, delivered or not. */
  lemma ConsumptionEventsBalance(s: System, id: string)
    requires Reachable(s)
    ensures Count(s.audit, GrantConsumed(id)) + Count(s.undelivered, GrantConsumed(id)) + Pending(s.calls, id)
         == if id in s.consumed then 1 else 0
  {
    ReachableInvariant(s);
  }

  predicate SinkNeverFails(actions: seq<Action>) {
    forall k | 0 <= k < |actions| :: actions[k].Step? && actions[k].answer.Sink? ==> actions[k].answer.delivered
  }

  lemma {:induction false} NothingUndelivered(s: System, actions: seq<Action>)
    requires SinkNeverFails(actions)
    requires s.undelivered == [] && forall c | c in s.calls :: !c.EmittingError? && !c.Abandoned? && NeverFailed(c)
    ensures var s' := Run(s, actions);
      s'.undelivered == [] && forall c | c in s'.calls :: !c.EmittingError? && !c.Abandoned? && NeverFailed(c)
  {
    if actions != [] {
      var n := |actions| - 1;
      assert SinkNeverFails(actions[..n]);
      NothingUndelivered(s, actions[..n]);
      var t := Run(s, actions[..n]);
      var last := actions[n];
      if last.Step? && last.pid < |t.calls| {
        assert t.calls[last.pid] in t.calls;
        NeverFailedSteps(t, t.calls[last.pid], last.answer);
      }
    }
  }

  predicate NeverFailed(c: Call) {
    match c
    case Emitting(_, _, next) => !next.EmittingError? && !next.Abandoned? && NeverFailed(next)
    case EmittingError(_, _) => false
    case Abandoned(_) => false
    case _ => true
  }

  lemma NeverFailedSteps(s: System, c: Call, a: Answer)
    requires NeverFailed(c) && (a.Sink? ==> a.delivered)
    ensures NeverFailed(Resume(s, c, a).1)
    ensures Resume(s, c, a).0.undelivered == s.undelivered
  {
  }

  lemma {:induction false} NothingPending(calls: seq<Call>, id: string)
    requires forall c | c in calls :: Settled(c)
    ensures Pending(calls, id) == 0
  {
    if calls != [] {
      assert calls[0] in calls;
      forall c | c in calls[1..] ensures Settled(c) { assert c in calls; }
      NothingPending(calls[1..], id);
    }
  }

  /** With a sink that delivers, once the calls have settled the log holds one event per successful consumption and no other. */
  lemma LogMatchesConsumptions(failClosed: bool, now: int, actions: seq<Action>, id: string)
    requires SinkNeverFails(actions)
    requires forall c | c in Run(Fresh(failClosed, now), actions).calls :: Settled(c)
    ensures var s := Run(Fresh(failClosed, now), actions);
      && Count(s.audit, GrantConsumed(id)) == (if id in s.consumed then 1 else 0)
      && (id in s.consumed <==> exists i :: 0 <= i < |s.calls| && ReturnedValid(s.calls[i], id))
  {
    var s := Run(Fresh(failClosed, now), actions);
    assert Reachable(s);
    NothingUndelivered(Fresh(failClosed, now), actions);
    NothingPending(s.calls, id);
    ConsumptionEventsBalance(s, id);
    ConsumedIffHeld(s, id);
    forall i | 0 <= i < |s.calls|
      ensures Holds(s.calls[i], Mark(id)) <==> ReturnedValid(s.calls[i], id)
    {
      assert s.calls[i] in s.calls;
    }
  }

  // ---- Nonces -------------------------------------------------------------

  /** Stored nonce keys determine the scope and the nonce, so the three scopes never share one. */
  lemma NonceKeyInjective(e1: Entity, n1: string, e2: Entity, n2: string)
    ensures NonceKey(e1, n1) == NonceKey(e2, n2) <==> e1 == e2 && n1 == n2
  {
    var k1, k2 := NonceKey(e1, n1), NonceKey(e2, n2);
    assert k1[0] == ScopeFor(e1)[0] && k2[0] == ScopeFor(e2)[0];
    if k1 == k2 {
      assert e1 == e2;
      var n := |ScopeFor(e1)| + 1;
      assert k1[n..] == n1 && k2[n..] == n2;
    }
  }

  predicate ReturnedIssue(c: Call, entity: Entity, nonce: string) {
    c.Returned? && c.outcome.IssueResult? && c.outcome.entity == entity && c.outcome.nonce == nonce
  }

  /** Two successful issuances in one scope never carry the same nonce, and what was issued is stored. */
  lemma IssuedNoncesDistinct(s: System, i: nat, j: nat, entity: Entity, nonce: string)
    requires Reachable(s)
    requires i < |s.calls| && ReturnedIssue(s.calls[i], entity, nonce)
    requires j < |s.calls| && ReturnedIssue(s.calls[j], entity, nonce)
    ensures i == j
    ensures Stored(s, entity, s.calls[i].outcome.id)
  {
    ReachableInvariant(s);
    assert Holds(s.calls[i], Nonce(NonceKey(entity, nonce))) && Holds(s.calls[j], Nonce(NonceKey(entity, nonce)));
    assert Justified(s, s.calls[i]);
  }
}
