/**
 The question asked at evaluation: may this requester exercise that holder's
 authority? The chain is walked to its root every time, which is what lets the
 revocation of an ancestor disable its whole subtree without rewriting it.
 */
module RepresentationResolver {
  import opened Options
  import opened Instants
  import opened RightsScope
  import opened RepresentativeAuthority
  import opened RepresentationStore

  const MAX_CHAIN_HOPS: nat := 16

  datatype Query = Query(
    tenantId: string, representativeRef: string, holderRef: string, resource: (string, string),
    governedRight: string, requestedScope: Option<Scope>, action: string, at: Instant)

  datatype Withdrawal = ParentRevoked | DelegationNotLive

  datatype Coverage =
    | NotRequired
    | Represented(representativeAuthorityId: string, chain: seq<string>)
    | NoRepresentation
    | RightNotRepresented(representativeAuthorityId: string)
    | ActionNotRepresented(representativeAuthorityId: string)
    | ScopeExceeded(representativeAuthorityId: string)
    | IncompatibleScope(representativeAuthorityId: string)
    | CoverageExpired(representativeAuthorityId: string)
    | CoverageRevoked(representativeAuthorityId: string)
    | BasisWithdrawn(representativeAuthorityId: string, reason: Withdrawal)

  function CoverageRank(c: Coverage): int {
    match c
    case NotRequired => 100
    case Represented(_, _) => 100
    case ScopeExceeded(_) => 60
    case IncompatibleScope(_) => 60
    case BasisWithdrawn(_, _) => 50
    case CoverageRevoked(_) => 45
    case CoverageExpired(_) => 40
    case ActionNotRepresented(_) => 30
    case RightNotRepresented(_) => 20
    case NoRepresentation => 0
  }

  // ---- The walk ------------------------------------------------------------------

  datatype Walked = Holds(chain: seq<string>) | Fails(reason: Withdrawal)

  predicate LinkCorroborated(delegations: Delegations, r: Representation) {
    BasisCorroborated(delegations, r.basis, r.representativeRef, r.holderRef)
  }

  /** A missing ancestor is treated as a revoked one. */
  predicate LiveParent(parent: Option<Representation>, at: Instant) {
    parent.Some? && StateAt(parent.value, at) == Active && parent.value.canRedelegate
  }

  function Walk(byId: Records, delegations: Delegations, tenantId: string, current: Representation, at: Instant, hops: nat): Walked
    decreases hops
  {
    if hops == 0 then Fails(ParentRevoked)
    else if !LinkCorroborated(delegations, current) then Fails(DelegationNotLive)
    else if current.parentId.None? then Holds([current.id])
    else
      var parent := ReadById(byId, tenantId, current.parentId.value);
      if !LiveParent(parent, at) then Fails(ParentRevoked)
      else Prefixed([current.id], Walk(byId, delegations, tenantId, parent.value, at, hops - 1))
  }

  /** The bounded loop that walks it. */
  method BasisStillHolds(byId: Records, delegations: Delegations, tenantId: string, representation: Representation, at: Instant)
    returns (walked: Walked)
    ensures walked == Walk(byId, delegations, tenantId, representation, at, MAX_CHAIN_HOPS)
  {
    var below, current := [], representation;
    ghost var whole := Walk(byId, delegations, tenantId, representation, at, MAX_CHAIN_HOPS);
    PrefixedByNothing(whole);
    for hop := 0 to MAX_CHAIN_HOPS
      invariant whole == Prefixed(below, Walk(byId, delegations, tenantId, current, at, MAX_CHAIN_HOPS - hop))
    {
      if !LinkCorroborated(delegations, current) { return Fails(DelegationNotLive); }
      if current.parentId.None? { return Holds(below + [current.id]); }
      var parent := ReadById(byId, tenantId, current.parentId.value);
      if !LiveParent(parent, at) { return Fails(ParentRevoked); }
      PrefixedTwice(below, [current.id], Walk(byId, delegations, tenantId, parent.value, at, MAX_CHAIN_HOPS - hop - 1));
      below := below + [current.id];
      current := parent.value;
    }
    return Fails(ParentRevoked);
  }

  lemma PrefixedByNothing(walked: Walked)
    ensures Prefixed([], walked) == walked
  {
    if walked.Holds? { assert [] + walked.chain == walked.chain; }
  }

  function Prefixed(prefix: seq<string>, walked: Walked): Walked {
    match walked
    case Holds(chain) => Holds(prefix + chain)
    case Fails(reason) => Fails(reason)
  }

  lemma PrefixedTwice(a: seq<string>, b: seq<string>, walked: Walked)
    ensures Prefixed(a, Prefixed(b, walked)) == Prefixed(a + b, walked)
  {
    if walked.Holds? { assert a + (b + walked.chain) == a + b + walked.chain; }
  }

  // ---- One candidate, and the best of several -----------------------------------------

  /** The verdict on one candidate, given how its walk ended. The walk is made only when all else passes. */
  function Verdict(q: Query, candidate: Representation, walked: Walked): Coverage {
    var id, state := candidate.id, StateAt(candidate, q.at);
    if q.governedRight !in candidate.governedRights then RightNotRepresented(id)
    else if q.action !in candidate.actions then ActionNotRepresented(id)
    else if state == Revoked then CoverageRevoked(id)
    else if state != Active then CoverageExpired(id)
    else if q.requestedScope.Some? && candidate.scopeLimit.Bounded? && !Commensurable(q.requestedScope.value, candidate.scopeLimit.maximum) then
      IncompatibleScope(id)
    else if q.requestedScope.Some? && candidate.scopeLimit.Bounded? && !ScopeWithin(q.requestedScope.value, candidate.scopeLimit.maximum) then
      ScopeExceeded(id)
    else match walked
      case Fails(reason) => BasisWithdrawn(id, reason)
      case Holds(chain) => Represented(id, chain)
  }

  function Assess(byId: Records, delegations: Delegations, q: Query, candidate: Representation): Coverage {
    Verdict(q, candidate, Walk(byId, delegations, q.tenantId, candidate, q.at, MAX_CHAIN_HOPS))
  }

  function Better(best: Coverage, next: Coverage): Coverage {
    if CoverageRank(next) > CoverageRank(best) then next else best
  }

  function Best(coverages: seq<Coverage>): Coverage {
    if coverages == [] then NoRepresentation else Better(Best(coverages[..|coverages| - 1]), coverages[|coverages| - 1])
  }

  function Assessments(byId: Records, delegations: Delegations, q: Query, candidates: seq<Representation>): seq<Coverage> {
    seq(|candidates|, i requires 0 <= i < |candidates| => Assess(byId, delegations, q, candidates[i]))
  }

  method BestAmong(byId: Records, delegations: Delegations, q: Query, candidates: seq<Representation>) returns (best: Coverage)
    ensures best == Best(Assessments(byId, delegations, q, candidates))
  {
    best := NoRepresentation;
    for i := 0 to |candidates|
      invariant best == Best(Assessments(byId, delegations, q, candidates[..i]))
    {
      var coverage := AssessCandidate(byId, delegations, q, candidates[i]);
      AssessmentsSnoc(byId, delegations, q, candidates, i);
      best := Better(best, coverage);
    }
    assert candidates[..|candidates|] == candidates;
  }

  lemma AssessmentsSnoc(byId: Records, delegations: Delegations, q: Query, candidates: seq<Representation>, i: nat)
    requires i < |candidates|
    ensures Best(Assessments(byId, delegations, q, candidates[..i + 1]))
      == Better(Best(Assessments(byId, delegations, q, candidates[..i])), Assess(byId, delegations, q, candidates[i]))
  {
    var before, after := Assessments(byId, delegations, q, candidates[..i]), Assessments(byId, delegations, q, candidates[..i + 1]);
    assert after[..|after| - 1] == before;
  }

  method AssessCandidate(byId: Records, delegations: Delegations, q: Query, candidate: Representation) returns (coverage: Coverage)
    ensures coverage == Assess(byId, delegations, q, candidate)
  {
    var id := candidate.id;
    if q.governedRight !in candidate.governedRights { return RightNotRepresented(id); }
    if q.action !in candidate.actions { return ActionNotRepresented(id); }
    var state := StateAt(candidate, q.at);
    if state == Revoked { return CoverageRevoked(id); }
    if state != Active { return CoverageExpired(id); }
    if q.requestedScope.Some? && candidate.scopeLimit.Bounded? {
      if !Commensurable(q.requestedScope.value, candidate.scopeLimit.maximum) { return IncompatibleScope(id); }
      if !ScopeWithin(q.requestedScope.value, candidate.scopeLimit.maximum) { return ScopeExceeded(id); }
    }
    var basis := BasisStillHolds(byId, delegations, q.tenantId, candidate, q.at);
    if basis.Fails? { return BasisWithdrawn(id, basis.reason); }
    return Represented(id, basis.chain);
  }

  // ---- The ancestry of a stored record -----------------------------------------------------

  /** The part of coherence the walk relies on: every parent named exists, one level up, in the same tenant, and may be redelegated. */
  ghost predicate Rooted(byId: Records) {
    forall id | id in byId :: RootedAt(byId, id)
  }

  ghost predicate RootedAt(byId: Records, id: string)
    requires id in byId
  {
    && byId[id].id == id
    && match byId[id].parentId
       case None => byId[id].delegationDepth == 0
       case Some(p) =>
         && p in byId && byId[p].tenantId == byId[id].tenantId
         && byId[id].delegationDepth == byId[p].delegationDepth + 1 && byId[p].canRedelegate
  }

  lemma CoherentIsRooted(byId: Records)
    requires Coherent(byId)
    ensures Rooted(byId)
  {
    forall id | id in byId ensures RootedAt(byId, id) { assert Sound(byId, id); }
  }

  /** The record and its ancestors, root last. */
  ghost function Ancestry(byId: Records, id: string): (chain: seq<Representation>)
    requires Rooted(byId) && id in byId
    ensures chain != [] && chain[0] == byId[id] && |chain| == byId[id].delegationDepth + 1
    decreases byId[id].delegationDepth
  {
    assert RootedAt(byId, id);
    match byId[id].parentId
    case None => [byId[id]]
    case Some(p) => [byId[id]] + Ancestry(byId, p)
  }

  /** Every link is contained in its parent, with a readable window. */
  lemma {:induction false} AncestryIsAChain(byId: Records, id: string)
    requires Coherent(byId) && Rooted(byId) && id in byId
    ensures IsChain(Ancestry(byId, id)) && ReadableChain(Ancestry(byId, id))
    decreases byId[id].delegationDepth
  {
    assert Sound(byId, id) && RootedAt(byId, id);
    var p := byId[id].parentId;
    if p.Some? {
      AncestryIsAChain(byId, p.value);
      assert Sound(byId, p.value);
      ChainGrows(byId[id], Ancestry(byId, p.value));
    }
  }

  lemma ChainGrows(r: Representation, rest: seq<Representation>)
    requires rest != [] && IsChain(rest) && ReadableChain(rest)
    requires Contained(rest[0], r) && WindowReadable(rest[0], r)
    ensures IsChain([r] + rest) && ReadableChain([r] + rest)
  {
    var chain := [r] + rest;
    forall i | 0 <= i < |chain| - 1 ensures Contained(chain[i + 1], chain[i]) && WindowReadable(chain[i + 1], chain[i]) {
      if i > 0 { assert chain[i] == rest[i - 1] && chain[i + 1] == rest[i]; }
    }
  }

  function IdsOf(chain: seq<Representation>): seq<string> {
    seq(|chain|, i requires 0 <= i < |chain| => chain[i].id)
  }

  predicate AllCorroborated(delegations: Delegations, chain: seq<Representation>) {
    forall i | 0 <= i < |chain| :: LinkCorroborated(delegations, chain[i])
  }

  predicate AncestorsActive(chain: seq<Representation>, at: Instant) {
    forall i | 1 <= i < |chain| :: StateAt(chain[i], at) == Active
  }

  /** What the walk demands of an ancestry. */
  predicate Admits(delegations: Delegations, chain: seq<Representation>, at: Instant, hops: nat) {
    |chain| <= hops && AllCorroborated(delegations, chain) && AncestorsActive(chain, at)
  }

  lemma AdmitsOne(delegations: Delegations, r: Representation, at: Instant, hops: nat)
    requires hops > 0
    ensures Admits(delegations, [r], at, hops) <==> LinkCorroborated(delegations, r)
  {
    assert [r][0] == r;
  }

  lemma AdmitsMore(delegations: Delegations, r: Representation, rest: seq<Representation>, at: Instant, hops: nat)
    requires rest != [] && hops > 0
    ensures Admits(delegations, [r] + rest, at, hops) <==>
      LinkCorroborated(delegations, r) && StateAt(rest[0], at) == Active && Admits(delegations, rest, at, hops - 1)
  {
    var chain := [r] + rest;
    if Admits(delegations, chain, at, hops) {
      assert LinkCorroborated(delegations, chain[0]) && StateAt(chain[1], at) == Active;
      forall i | 0 <= i < |rest| ensures LinkCorroborated(delegations, rest[i]) && StateAt(rest[i], at) == Active {
        assert LinkCorroborated(delegations, chain[i + 1]) && StateAt(chain[i + 1], at) == Active;
      }
    }
    if LinkCorroborated(delegations, r) && StateAt(rest[0], at) == Active && Admits(delegations, rest, at, hops - 1) {
      forall i | 0 <= i < |chain| ensures LinkCorroborated(delegations, chain[i]) && (i > 0 ==> StateAt(chain[i], at) == Active) {
        if i > 0 { assert chain[i] == rest[i - 1]; }
      }
    }
  }

  lemma WalkOneStep(byId: Records, delegations: Delegations, id: string, at: Instant, hops: nat)
    requires Rooted(byId) && id in byId && hops > 0
    ensures var r := byId[id];
      var walked := Walk(byId, delegations, r.tenantId, r, at, hops);
      match r.parentId
      case None => walked.Holds? == LinkCorroborated(delegations, r) && (walked.Holds? ==> walked.chain == [id])
      case Some(p) =>
        && p in byId && byId[p].tenantId == r.tenantId
        && var above := Walk(byId, delegations, byId[p].tenantId, byId[p], at, hops - 1);
           && walked.Holds? == (LinkCorroborated(delegations, r) && StateAt(byId[p], at) == Active && above.Holds?)
           && (walked.Holds? ==> walked.chain == [id] + above.chain)
  {
    assert RootedAt(byId, id);
  }

  /** The walk succeeds exactly when the ancestry is short enough, corroborated throughout, and active above the leaf; it then returns its ids. */
  lemma {:induction false} WalkHoldsIff(byId: Records, delegations: Delegations, id: string, at: Instant, hops: nat)
    requires Rooted(byId) && id in byId
    ensures Walk(byId, delegations, byId[id].tenantId, byId[id], at, hops).Holds? <==> Admits(delegations, Ancestry(byId, id), at, hops)
    ensures var walked := Walk(byId, delegations, byId[id].tenantId, byId[id], at, hops);
      walked.Holds? ==> walked.chain == IdsOf(Ancestry(byId, id))
    decreases byId[id].delegationDepth
  {
    assert RootedAt(byId, id);
    if hops > 0 {
      WalkOneStep(byId, delegations, id, at, hops);
      match byId[id].parentId
      case None =>
        assert Ancestry(byId, id) == [byId[id]];
        AdmitsOne(delegations, byId[id], at, hops);
      case Some(p) =>
        assert Ancestry(byId, id) == [byId[id]] + Ancestry(byId, p);
        WalkHoldsIff(byId, delegations, p, at, hops - 1);
        AdmitsMore(delegations, byId[id], Ancestry(byId, p), at, hops);
        assert IdsOf(Ancestry(byId, id)) == [id] + IdsOf(Ancestry(byId, p));
    }
  }

  // ---- The main results ------------------------------------------------------------------------

  lemma VerdictMeans(q: Query, r: Representation, walked: Walked)
    ensures Verdict(q, r, walked).Represented? <==>
      Covers(r, q.governedRight, q.action, q.requestedScope) && StateAt(r, q.at) == Active && walked.Holds?
  {
    if q.requestedScope.Some? && r.scopeLimit.Bounded? {
      WithinIsPartialOrder(q.requestedScope.value, r.scopeLimit.maximum, r.scopeLimit.maximum);
    }
  }

  lemma ActiveFromTheLeafUp(chain: seq<Representation>, at: Instant)
    requires chain != []
    ensures AllActive(chain, at) <==> StateAt(chain[0], at) == Active && AncestorsActive(chain, at)
  {
  }

  /**
   In every coherent store a stored record represents a request exactly when it
   covers it, the instant lies in its own window, no link of its ancestry has been
   revoked by then, every delegation basis still stands, and the chain is within
   the walker's bound. Containment at redelegation is what makes the windows and
   the coverage of the ancestors follow.
   */
  lemma RepresentsIff(byId: Records, delegations: Delegations, q: Query, id: string)
    requires Coherent(byId) && Rooted(byId) && id in byId && byId[id].tenantId == q.tenantId
    ensures var chain := Ancestry(byId, id);
      Assess(byId, delegations, q, byId[id]).Represented? <==>
        && Covers(byId[id], q.governedRight, q.action, q.requestedScope)
        && InWindow(byId[id], q.at)
        && NoneRevoked(chain, q.at)
        && AllCorroborated(delegations, chain)
        && byId[id].delegationDepth < MAX_CHAIN_HOPS
  {
    var chain := Ancestry(byId, id);
    VerdictMeans(q, byId[id], Walk(byId, delegations, q.tenantId, byId[id], q.at, MAX_CHAIN_HOPS));
    WalkHoldsIff(byId, delegations, id, q.at, MAX_CHAIN_HOPS);
    AncestryIsAChain(byId, id);
    ChainActiveIff(chain, q.at);
    ActiveFromTheLeafUp(chain, q.at);
  }

  /** What a record represents, every one of its ancestors covers: same holder, same resource, that right, that action, that much. */
  lemma RepresentedIsCoveredByEveryAncestor(byId: Records, delegations: Delegations, q: Query, id: string, i: nat)
    requires Coherent(byId) && Rooted(byId) && id in byId && byId[id].tenantId == q.tenantId
    requires Assess(byId, delegations, q, byId[id]).Represented? && i < |Ancestry(byId, id)|
    ensures var ancestor := Ancestry(byId, id)[i];
      && Covers(ancestor, q.governedRight, q.action, q.requestedScope)
      && StateAt(ancestor, q.at) == Active
      && ancestor.holderRef == byId[id].holderRef
      && ancestor.resourceKind == byId[id].resourceKind && ancestor.resourceId == byId[id].resourceId
  {
    var chain := Ancestry(byId, id);
    RepresentsIff(byId, delegations, q, id);
    AncestryIsAChain(byId, id);
    ChainActiveIff(chain, q.at);
    assert StateAt(chain[i], q.at) == Active;
    LeafCoverageReachesTheRoot(chain, i, q.governedRight, q.action, q.requestedScope);
  }

  /** No verdict ranks above the best, and nothing ranks lowest only when there is nothing. */
  lemma {:induction false} BestRanksHighest(coverages: seq<Coverage>)
    ensures forall c | c in coverages :: CoverageRank(c) <= CoverageRank(Best(coverages))
    ensures Best(coverages) == NoRepresentation || Best(coverages) in coverages
  {
    if coverages != [] {
      var front := coverages[..|coverages| - 1];
      assert coverages == front + [coverages[|coverages| - 1]];
      BestRanksHighest(front);
    }
  }

  /** The first verdict of its rank, with none ranking above it. */
  ghost predicate Leads(coverages: seq<Coverage>, i: nat) {
    && i < |coverages|
    && (forall j: nat | j < i :: CoverageRank(coverages[j]) < CoverageRank(coverages[i]))
    && (forall j: nat | i < j < |coverages| :: CoverageRank(coverages[j]) <= CoverageRank(coverages[i]))
  }

  /** Among verdicts of the same rank the one met first is kept. */
  lemma {:induction false} BestIsTheFirst(coverages: seq<Coverage>, i: nat)
    requires Leads(coverages, i) && CoverageRank(coverages[i]) > CoverageRank(NoRepresentation)
    ensures Best(coverages) == coverages[i]
  {
    var front := coverages[..|coverages| - 1];
    if i < |front| {
      assert Leads(front, i);
      BestIsTheFirst(front, i);
    } else {
      BestRanksHighest(front);
    }
  }

  lemma {:induction false} BestIsRepresentedIff(coverages: seq<Coverage>)
    requires NotRequired !in coverages
    ensures Best(coverages).Represented? <==> exists c :: c in coverages && c.Represented?
  {
    if coverages != [] {
      var front := coverages[..|coverages| - 1];
      assert coverages == front + [coverages[|coverages| - 1]];
      BestIsRepresentedIff(front);
      BestRanksHighest(front);
    }
  }
}
