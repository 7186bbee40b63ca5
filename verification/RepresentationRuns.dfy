/** Whole runs of the representation store: what a withdrawal settles for good, and what a resolved request rests on. */
module RepresentationRuns {
  import opened Options
  import opened Instants
  import opened RightsScope
  import opened RepresentativeAuthority
  import opened RepresentationStore
  import opened RepresentationResolver

  datatype Operation =
    | Granting(delegations: Delegations, caller: Caller, input: Grant, id: string)
    | Revoking(caller: Caller, tenantId: string, id: string, now: int)

  function OutcomeOf(byId: Records, op: Operation): Outcome {
    match op
    case Granting(delegations, caller, input, id) => GrantOutcome(byId, delegations, caller, input, id)
    case Revoking(caller, tenantId, id, now) => RevokeOutcome(byId, caller, tenantId, id, now)
  }

  function Apply(byId: Records, op: Operation): Records {
    Stored(byId, OutcomeOf(byId, op))
  }

  function Run(byId: Records, ops: seq<Operation>): Records {
    if ops == [] then byId else Apply(Run(byId, ops[..|ops| - 1]), ops[|ops| - 1])
  }

  lemma ApplyKeepsCoherent(byId: Records, op: Operation)
    requires Coherent(byId)
    ensures Coherent(Apply(byId, op))
  {
    match op
    case Granting(delegations, caller, input, id) => GrantKeepsCoherent(byId, delegations, caller, input, id);
    case Revoking(caller, tenantId, id, now) => RevokeKeepsCoherent(byId, caller, tenantId, id, now);
  }

  lemma {:induction false} RunKeepsCoherent(byId: Records, ops: seq<Operation>)
    requires Coherent(byId)
    ensures Coherent(Run(byId, ops)) && Rooted(Run(byId, ops))
  {
    if ops != [] {
      RunKeepsCoherent(byId, ops[..|ops| - 1]);
      ApplyKeepsCoherent(Run(byId, ops[..|ops| - 1]), ops[|ops| - 1]);
    }
    CoherentIsRooted(Run(byId, ops));
  }

  // ---- Records only ever gain a revocation, once -------------------------------------

  predicate RecordEvolves(before: Representation, after: Representation) {
    after == before || (before.revokedAt.None? && after == before.(revokedAt := after.revokedAt))
  }

  predicate Evolves(before: Records, after: Records) {
    forall id | id in before :: id in after && RecordEvolves(before[id], after[id])
  }

  lemma ApplyEvolves(byId: Records, op: Operation)
    requires Rooted(byId)
    ensures Evolves(byId, Apply(byId, op))
  {
    var outcome := OutcomeOf(byId, op);
    if op.Revoking? && op.id in byId { assert RootedAt(byId, op.id); }
    if op.Granting? && outcome.Granted? { GrantedIsNew(byId, op.delegations, op.caller, op.input, op.id); }
  }

  lemma GrantedIsNew(byId: Records, delegations: Delegations, caller: Caller, g: Grant, id: string)
    requires GrantOutcome(byId, delegations, caller, g, id).Granted?
    ensures id !in byId && GrantOutcome(byId, delegations, caller, g, id).representation.id == id
  {
  }

  lemma {:induction false} RunEvolves(byId: Records, ops: seq<Operation>)
    requires Coherent(byId)
    ensures Evolves(byId, Run(byId, ops))
  {
    if ops != [] {
      var before := Run(byId, ops[..|ops| - 1]);
      RunEvolves(byId, ops[..|ops| - 1]);
      RunKeepsCoherent(byId, ops[..|ops| - 1]);
      ApplyEvolves(before, ops[|ops| - 1]);
      forall id | id in byId ensures id in Run(byId, ops) && RecordEvolves(byId[id], Run(byId, ops)[id]) {
        assert id in before && RecordEvolves(byId[id], before[id]);
        assert RecordEvolves(before[id], Run(byId, ops)[id]);
      }
    }
  }

  lemma {:induction false} AncestryIsStored(byId: Records, id: string, i: nat)
    requires Rooted(byId) && id in byId && i < |Ancestry(byId, id)|
    ensures var r := Ancestry(byId, id)[i]; r.id in byId && byId[r.id] == r
    decreases byId[id].delegationDepth
  {
    assert RootedAt(byId, id);
    if i > 0 { AncestryIsStored(byId, byId[id].parentId.value, i - 1); }
  }

  // ---- The main results ------------------------------------------------------------------

  /** A record represents nothing at an instant by which any of its ancestors was revoked. */
  lemma RevokedAncestorDisables(byId: Records, delegations: Delegations, q: Query, id: string, ancestor: string)
    requires Coherent(byId) && Rooted(byId) && id in byId && byId[id].tenantId == q.tenantId
    requires ancestor in IdsOf(Ancestry(byId, id)) && ancestor in byId && RevokedAt(byId[ancestor], q.at)
    ensures !Assess(byId, delegations, q, byId[id]).Represented?
  {
    var chain := Ancestry(byId, id);
    var i :| 0 <= i < |chain| && IdsOf(chain)[i] == ancestor;
    AncestryIsStored(byId, id, i);
    assert RevokedAt(chain[i], q.at);
    RepresentsIff(byId, delegations, q, id);
  }

  /** A withdrawal stands, with its instant, after any later run. */
  lemma WithdrawalStands(start: Records, revoke: Operation, ops: seq<Operation>)
    requires Coherent(start) && revoke.Revoking? && OutcomeOf(start, revoke).Granted?
    ensures var after := Run(Apply(start, revoke), ops);
      revoke.id in after && after[revoke.id].revokedAt == OutcomeOf(start, revoke).representation.revokedAt
  {
    ApplyKeepsCoherent(start, revoke);
    RunEvolves(Apply(start, revoke), ops);
    WithdrawnIsRecorded(start, revoke);
    assert RecordEvolves(Apply(start, revoke)[revoke.id], Run(Apply(start, revoke), ops)[revoke.id]);
  }

  /**
   Withdrawing a representation disables its whole subtree for good. After any
   later run of grants and withdrawals, no record whose ancestry contains it
   represents anything from the withdrawal on, including records granted since.
   */
  lemma RevocationDisablesTheSubtree(
    start: Records, revoke: Operation, ops: seq<Operation>, delegations: Delegations, q: Query, id: string)
    requires Coherent(start) && revoke.Revoking? && OutcomeOf(start, revoke).Granted?
    requires var after := Run(Apply(start, revoke), ops);
      id in after && after[id].tenantId == q.tenantId && Rooted(after) && revoke.id in IdsOf(Ancestry(after, id))
    requires OutcomeOf(start, revoke).representation.revokedAt.Some?
      ==> GreaterOrEqual(q.at, OutcomeOf(start, revoke).representation.revokedAt.value)
    ensures !Assess(Run(Apply(start, revoke), ops), delegations, q, Run(Apply(start, revoke), ops)[id]).Represented?
  {
    ApplyKeepsCoherent(start, revoke);
    RunKeepsCoherent(Apply(start, revoke), ops);
    WithdrawnIsRecorded(start, revoke);
    WithdrawalStands(start, revoke, ops);
    RevokedAncestorDisables(Run(Apply(start, revoke), ops), delegations, q, id, revoke.id);
  }

  lemma WithdrawnIsRecorded(start: Records, revoke: Operation)
    requires Coherent(start) && revoke.Revoking? && OutcomeOf(start, revoke).Granted?
    ensures var r := OutcomeOf(start, revoke).representation;
      r.id == revoke.id && r.revokedAt.Some? && revoke.id in Apply(start, revoke) && Apply(start, revoke)[revoke.id] == r
  {
    assert Sound(start, revoke.id);
  }

  /** Withdrawing twice records the first instant only. */
  lemma WithdrawingAgainChangesNothing(start: Records, first: Operation, caller: Caller, later: int)
    requires Coherent(start) && first.Revoking? && OutcomeOf(start, first).Granted?
    ensures Apply(Apply(start, first), Revoking(caller, first.tenantId, first.id, later)) == Apply(start, first)
  {
    WithdrawnIsRecorded(start, first);
    var revoked := Apply(start, first);
    assert revoked[first.id := revoked[first.id]] == revoked;
  }

  /** What stands behind a represented request: some stored record for exactly this tenant, requester, holder and resource. */
  ghost predicate Warranted(byId: Records, delegations: Delegations, q: Query, id: string)
    requires Rooted(byId)
  {
    && id in byId && BindsExactly(byId[id], q.tenantId, q.representativeRef, q.holderRef, q.resource)
    && Covers(byId[id], q.governedRight, q.action, q.requestedScope)
    && InWindow(byId[id], q.at)
    && NoneRevoked(Ancestry(byId, id), q.at)
    && AllCorroborated(delegations, Ancestry(byId, id))
    && byId[id].delegationDepth < MAX_CHAIN_HOPS
  }

  lemma BestAssessment(byId: Records, delegations: Delegations, q: Query, candidates: seq<Representation>)
    ensures Best(Assessments(byId, delegations, q, candidates)).Represented?
      <==> exists r :: r in candidates && Assess(byId, delegations, q, r).Represented?
  {
    var coverages := Assessments(byId, delegations, q, candidates);
    forall c ensures c in coverages <==> exists r :: r in candidates && Assess(byId, delegations, q, r) == c {
      if c in coverages {
        var i :| 0 <= i < |coverages| && coverages[i] == c;
        assert candidates[i] in candidates;
      }
      if r :| r in candidates && Assess(byId, delegations, q, r) == c {
        var i :| 0 <= i < |candidates| && candidates[i] == r;
        assert coverages[i] in coverages;
      }
    }
    BestIsRepresentedIff(coverages);
  }

  lemma WarrantedIsRepresented(byId: Records, delegations: Delegations, q: Query, id: string)
    requires Coherent(byId) && Rooted(byId) && id in byId
    requires BindsExactly(byId[id], q.tenantId, q.representativeRef, q.holderRef, q.resource)
    ensures Warranted(byId, delegations, q, id) <==> Assess(byId, delegations, q, byId[id]).Represented?
  {
    RepresentsIff(byId, delegations, q, id);
  }

  /** Over the candidates the store lists, a request is represented exactly when some record warrants it. */
  lemma ResolvedIff(byId: Records, delegations: Delegations, q: Query, candidates: seq<Representation>)
    requires Coherent(byId) && Rooted(byId)
    requires forall r :: r in candidates <==>
      r.id in byId && byId[r.id] == r && BindsExactly(r, q.tenantId, q.representativeRef, q.holderRef, q.resource)
    ensures Best(Assessments(byId, delegations, q, candidates)).Represented? <==> exists id :: Warranted(byId, delegations, q, id)
  {
    BestAssessment(byId, delegations, q, candidates);
    if r :| r in candidates && Assess(byId, delegations, q, r).Represented? {
      WarrantedIsRepresented(byId, delegations, q, r.id);
    }
    if id :| Warranted(byId, delegations, q, id) {
      assert RootedAt(byId, id);
      assert byId[id] in candidates;
      WarrantedIsRepresented(byId, delegations, q, id);
    }
  }

  /** Bound as the query asks, and assessed so. */
  predicate AssessedAs(byId: Records, delegations: Delegations, q: Query, id: string, coverage: Coverage) {
    && id in byId && BindsExactly(byId[id], q.tenantId, q.representativeRef, q.holderRef, q.resource)
    && coverage == Assess(byId, delegations, q, byId[id])
  }

  lemma BestIsSomeAssessment(byId: Records, delegations: Delegations, q: Query, candidates: seq<Representation>)
    requires forall r | r in candidates ::
      r.id in byId && byId[r.id] == r && BindsExactly(r, q.tenantId, q.representativeRef, q.holderRef, q.resource)
    ensures var best := Best(Assessments(byId, delegations, q, candidates));
      best != NotRequired && (best == NoRepresentation || exists id :: AssessedAs(byId, delegations, q, id, best))
  {
    var coverages := Assessments(byId, delegations, q, candidates);
    forall i | 0 <= i < |coverages| ensures coverages[i] != NotRequired { }
    BestRanksHighest(coverages);
    if Best(coverages) in coverages {
      var i :| 0 <= i < |coverages| && coverages[i] == Best(coverages);
      assert candidates[i] in candidates;
      assert AssessedAs(byId, delegations, q, candidates[i].id, Best(coverages));
    }
  }

  /** Whatever is bound as the query asks, nothing assessed of it ranks above `best`. */
  ghost predicate NothingRanksAbove(byId: Records, delegations: Delegations, q: Query, best: Coverage) {
    forall id, coverage | AssessedAs(byId, delegations, q, id, coverage) :: CoverageRank(coverage) <= CoverageRank(best)
  }

  lemma BestRanksAboveAll(byId: Records, delegations: Delegations, q: Query, candidates: seq<Representation>)
    requires Rooted(byId)
    requires forall r :: r in candidates <==>
      r.id in byId && byId[r.id] == r && BindsExactly(r, q.tenantId, q.representativeRef, q.holderRef, q.resource)
    ensures NothingRanksAbove(byId, delegations, q, Best(Assessments(byId, delegations, q, candidates)))
  {
    var coverages := Assessments(byId, delegations, q, candidates);
    BestRanksHighest(coverages);
    forall id, coverage | AssessedAs(byId, delegations, q, id, coverage) ensures CoverageRank(coverage) <= CoverageRank(Best(coverages)) {
      assert RootedAt(byId, id);
      assert byId[id] in candidates;
      var i :| 0 <= i < |candidates| && candidates[i] == byId[id];
      assert coverages[i] == coverage;
    }
  }

  method ResolveAmong(byId: Records, delegations: Delegations, q: Query, candidates: seq<Representation>) returns (best: Coverage)
    requires Coherent(byId) && Rooted(byId)
    requires forall r :: r in candidates <==>
      r.id in byId && byId[r.id] == r && BindsExactly(r, q.tenantId, q.representativeRef, q.holderRef, q.resource)
    ensures best.Represented? <==> exists id :: Warranted(byId, delegations, q, id)
    ensures best != NotRequired && (best == NoRepresentation || exists id :: AssessedAs(byId, delegations, q, id, best))
    ensures NothingRanksAbove(byId, delegations, q, best)
  {
    best := BestAmong(byId, delegations, q, candidates);
    ResolvedIff(byId, delegations, q, candidates);
    BestRanksAboveAll(byId, delegations, q, candidates);
    BestIsSomeAssessment(byId, delegations, q, candidates);
  }

  /**
   The whole question, over the store as it stands: nothing is required of the holder
   itself, and anyone else is represented exactly when some stored record warrants it.
   Otherwise the answer is a verdict on a record bound to the same parties, none of
   whose verdicts ranks above it.
   */
  method Resolve(store: InMemoryRepresentationStore, delegations: Delegations, q: Query) returns (best: Coverage)
    requires store.Valid()
    ensures Rooted(store.byId)
    ensures best == NotRequired <==> q.representativeRef == q.holderRef
    ensures q.representativeRef != q.holderRef ==>
      (best.Represented? <==> exists id :: Warranted(store.byId, delegations, q, id))
    ensures best == NotRequired || best == NoRepresentation || exists id :: AssessedAs(store.byId, delegations, q, id, best)
    ensures NothingRanksAbove(store.byId, delegations, q, best)
  {
    CoherentIsRooted(store.byId);
    if q.representativeRef == q.holderRef { return NotRequired; }
    var candidates := store.ListRepresentativeAuthorities(q.tenantId, q.representativeRef, q.holderRef, q.resource);
    best := ResolveAmong(store.byId, delegations, q, candidates);
  }
}
