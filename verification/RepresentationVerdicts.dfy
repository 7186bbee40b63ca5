/** What each answer about a representation says, on its own: its state, its breach, a near miss and why a walk ends. */
module RepresentationVerdicts {
  import opened Options
  import opened Instants
  import opened RightsScope
  import opened RepresentativeAuthority
  import opened RepresentationStore
  import opened RepresentationAdmission
  import opened RepresentationResolver

  // ---- The state ------------------------------------------------------------------

  /** A readable instant that has come by `at`. */
  predicate HasCome(instant: Option<Instant>, at: Instant) {
    match (instant, at)
    case (Some(At(ms)), At(now)) => ms <= now
    case _ => false
  }

  /** A readable instant that is still to come. */
  predicate IsToCome(instant: Instant, at: Instant) {
    match (instant, at)
    case (At(ms), At(now)) => now < ms
    case _ => false
  }

  /** Revocation first, then the window: before it, past its end, or inside. */
  lemma StateMeans(r: Representation, at: Instant)
    ensures StateAt(r, at) == Revoked <==> HasCome(r.revokedAt, at)
    ensures StateAt(r, at) == Pending <==> !HasCome(r.revokedAt, at) && IsToCome(r.effectiveFrom, at)
    ensures StateAt(r, at) == Expired <==> !HasCome(r.revokedAt, at) && !IsToCome(r.effectiveFrom, at) && HasCome(r.expiresAt, at)
    ensures StateAt(r, at) == Active <==> !HasCome(r.revokedAt, at) && !IsToCome(r.effectiveFrom, at) && !HasCome(r.expiresAt, at)
    ensures InWindow(r, at) <==> !IsToCome(r.effectiveFrom, at) && !HasCome(r.expiresAt, at)
  {
  }

  // ---- Coverage and breach ------------------------------------------------------------

  /** A quantity fits under a limit: of the same kind and unit, and no more of it. */
  predicate FitsUnder(scope: Scope, limit: ScopeLimit) {
    limit.Bounded? ==> Commensurable(scope, limit.maximum) && Amount(scope) <= Amount(limit.maximum)
  }

  lemma CoversIff(r: Representation, right: string, action: string, scope: Option<Scope>)
    ensures Covers(r, right, action, scope) <==>
      right in r.governedRights && action in r.actions && (scope.Some? ==> FitsUnder(scope.value, r.scopeLimit))
  {
  }

  /** `x` is the first entry of the list that is not allowed. */
  predicate FirstBeyond(x: string, xs: seq<string>, allowed: seq<string>) {
    x !in allowed && exists i | 0 <= i < |xs| :: xs[i] == x && forall j | 0 <= j < i :: xs[j] in allowed
  }

  lemma {:induction false} FirstOutsideIsFirst(xs: seq<string>, allowed: seq<string>)
    ensures FirstOutside(xs, allowed).Some? ==> FirstBeyond(FirstOutside(xs, allowed).value, xs, allowed)
  {
    if xs != [] && xs[0] in allowed && FirstOutside(xs, allowed).Some? {
      FirstOutsideIsFirst(xs[1..], allowed);
      var x, rest := FirstOutside(xs, allowed).value, xs[1..];
      var i :| 0 <= i < |rest| && rest[i] == x && forall j | 0 <= j < i :: rest[j] in allowed;
      forall j | 0 <= j < i + 1 ensures xs[j] in allowed {
        if j > 0 { assert rest[j - 1] in allowed; }
      }
      assert xs[i + 1] == x;
    }
  }

  /** How far a child goes beyond its parent, one dimension at a time. */
  predicate GoesBeyond(parent: Representation, child: Representation, breach: Breach) {
    match breach
    case Holder => child.holderRef != parent.holderRef
    case Resource => child.resourceKind != parent.resourceKind || child.resourceId != parent.resourceId
    case Right(right) => FirstBeyond(right, child.governedRights, parent.governedRights)
    case Action(action) => FirstBeyond(action, child.actions, parent.actions)
    case ScopeBroadened => parent.scopeLimit.Bounded? && !(child.scopeLimit.Bounded? && FitsUnder(child.scopeLimit.maximum, parent.scopeLimit))
    case EffectiveFrom => IsToCome(parent.effectiveFrom, child.effectiveFrom)
    case ExpiresAt =>
      parent.expiresAt.Some? && (child.expiresAt.None? || IsToCome(child.expiresAt.value, parent.expiresAt.value))
  }

  /** The order in which breaches are looked for. */
  function BreachStage(breach: Breach): nat {
    match breach
    case Holder => 0
    case Resource => 1
    case Right(_) => 2
    case Action(_) => 3
    case ScopeBroadened => 4
    case EffectiveFrom => 5
    case ExpiresAt => 6
  }

  /** A breach that is reported is one, and no dimension looked at before it is breached. */
  lemma BreachIsTheFirst(parent: Representation, child: Representation, other: Breach)
    ensures ContainmentBreach(parent, child).Some? ==> GoesBeyond(parent, child, ContainmentBreach(parent, child).value)
    ensures GoesBeyond(parent, child, other) ==>
      ContainmentBreach(parent, child).Some? && BreachStage(ContainmentBreach(parent, child).value) <= BreachStage(other)
  {
    FirstOutsideIsFirst(child.governedRights, parent.governedRights);
    FirstOutsideIsFirst(child.actions, parent.actions);
  }

  // ---- One candidate --------------------------------------------------------------------

  /** Bounded, and of another kind or unit than what is asked for. */
  predicate OtherUnits(q: Query, r: Representation) {
    q.requestedScope.Some? && r.scopeLimit.Bounded? && !Commensurable(q.requestedScope.value, r.scopeLimit.maximum)
  }

  predicate TooMuch(q: Query, r: Representation) {
    q.requestedScope.Some? && !FitsUnder(q.requestedScope.value, r.scopeLimit)
  }

  /** Every answer about a candidate, exactly when it is given: the right, the action, the state, the quantity, and last its chain. */
  lemma AnswerMeans(q: Query, r: Representation, walked: Walked)
    ensures var answer, id := Verdict(q, r, walked), r.id;
      var named := q.governedRight in r.governedRights && q.action in r.actions;
      var active := !HasCome(r.revokedAt, q.at) && !IsToCome(r.effectiveFrom, q.at) && !HasCome(r.expiresAt, q.at);
      && (answer == RightNotRepresented(id) <==> q.governedRight !in r.governedRights)
      && (answer == ActionNotRepresented(id) <==> q.governedRight in r.governedRights && q.action !in r.actions)
      && (answer == CoverageRevoked(id) <==> named && HasCome(r.revokedAt, q.at))
      && (answer == CoverageExpired(id) <==> named && !HasCome(r.revokedAt, q.at) && !active)
      && (answer == IncompatibleScope(id) <==> named && active && OtherUnits(q, r))
      && (answer == ScopeExceeded(id) <==> named && active && !OtherUnits(q, r) && TooMuch(q, r))
      && (forall reason :: answer == BasisWithdrawn(id, reason) <==> named && active && !TooMuch(q, r) && walked == Fails(reason))
      && (forall chain :: answer == Represented(id, chain) <==> named && active && !TooMuch(q, r) && walked == Holds(chain))
  {
    StateMeans(r, q.at);
  }

  /** From the least to the most telling miss; a quantity of other units tells as much as one too large. */
  lemma RanksAscend(id: string, reason: Withdrawal, chain: seq<string>)
    ensures CoverageRank(NoRepresentation) < CoverageRank(RightNotRepresented(id)) < CoverageRank(ActionNotRepresented(id))
    ensures CoverageRank(ActionNotRepresented(id)) < CoverageRank(CoverageExpired(id)) < CoverageRank(CoverageRevoked(id))
    ensures CoverageRank(CoverageRevoked(id)) < CoverageRank(BasisWithdrawn(id, reason)) < CoverageRank(ScopeExceeded(id))
    ensures CoverageRank(ScopeExceeded(id)) == CoverageRank(IncompatibleScope(id)) < CoverageRank(Represented(id, chain))
    ensures CoverageRank(Represented(id, chain)) == CoverageRank(NotRequired)
  {
  }

  // ---- Why a walk ends ------------------------------------------------------------------

  /** The walk gets to the `i`-th link of the chain: every link below it is corroborated, and it and every one above the leaf is active. */
  predicate Reached(delegations: Delegations, chain: seq<Representation>, at: Instant, i: nat)
    requires i < |chain|
  {
    && (forall j | 0 <= j < i :: LinkCorroborated(delegations, chain[j]))
    && (forall j | 1 <= j <= i :: StateAt(chain[j], at) == Active)
  }

  ghost predicate EndsAtADelegation(delegations: Delegations, chain: seq<Representation>, at: Instant, hops: nat) {
    exists i: nat | i < |chain| && i < hops :: Reached(delegations, chain, at, i) && !LinkCorroborated(delegations, chain[i])
  }

  lemma ReachedSteps(delegations: Delegations, r: Representation, rest: seq<Representation>, at: Instant, i: nat)
    requires 1 <= i <= |rest|
    ensures Reached(delegations, [r] + rest, at, i) <==>
      LinkCorroborated(delegations, r) && StateAt(rest[0], at) == Active && Reached(delegations, rest, at, i - 1)
  {
    var chain := [r] + rest;
    if Reached(delegations, chain, at, i) {
      assert LinkCorroborated(delegations, chain[0]) && StateAt(chain[1], at) == Active;
      forall j | 0 <= j < i - 1 ensures LinkCorroborated(delegations, rest[j]) { assert LinkCorroborated(delegations, chain[j + 1]); }
      forall j | 1 <= j <= i - 1 ensures StateAt(rest[j], at) == Active { assert StateAt(chain[j + 1], at) == Active; }
    }
    if LinkCorroborated(delegations, r) && StateAt(rest[0], at) == Active && Reached(delegations, rest, at, i - 1) {
      forall j | 0 <= j < i ensures LinkCorroborated(delegations, chain[j]) {
        if j > 0 { assert chain[j] == rest[j - 1]; }
      }
      forall j | 1 <= j <= i ensures StateAt(chain[j], at) == Active { assert chain[j] == rest[j - 1]; }
    }
  }

  lemma EndsSteps(delegations: Delegations, r: Representation, rest: seq<Representation>, at: Instant, hops: nat)
    requires rest != [] && hops > 0
    ensures EndsAtADelegation(delegations, [r] + rest, at, hops) <==>
      || !LinkCorroborated(delegations, r)
      || (StateAt(rest[0], at) == Active && EndsAtADelegation(delegations, rest, at, hops - 1))
  {
    var chain := [r] + rest;
    assert Reached(delegations, chain, at, 0);
    if EndsAtADelegation(delegations, chain, at, hops) && LinkCorroborated(delegations, r) {
      var i: nat :| i < |chain| && i < hops && Reached(delegations, chain, at, i) && !LinkCorroborated(delegations, chain[i]);
      ReachedSteps(delegations, r, rest, at, i);
      assert !LinkCorroborated(delegations, rest[i - 1]);
    }
    if LinkCorroborated(delegations, r) && StateAt(rest[0], at) == Active && EndsAtADelegation(delegations, rest, at, hops - 1) {
      var i: nat :| i < |rest| && i < hops - 1 && Reached(delegations, rest, at, i) && !LinkCorroborated(delegations, rest[i]);
      ReachedSteps(delegations, r, rest, at, i + 1);
      assert !LinkCorroborated(delegations, chain[i + 1]);
    }
  }

  /** A walk that fails blames a delegation exactly when it gets, within its bound, to a link whose delegation no longer stands; otherwise a parent. */
  lemma {:induction false} WalkBlames(byId: Records, delegations: Delegations, id: string, at: Instant, hops: nat)
    requires Rooted(byId) && id in byId
    ensures Walk(byId, delegations, byId[id].tenantId, byId[id], at, hops) == Fails(DelegationNotLive) <==>
      EndsAtADelegation(delegations, Ancestry(byId, id), at, hops)
    decreases byId[id].delegationDepth
  {
    assert RootedAt(byId, id);
    if hops > 0 {
      match byId[id].parentId
      case None =>
        assert Ancestry(byId, id) == [byId[id]];
        assert Reached(delegations, [byId[id]], at, 0);
      case Some(p) =>
        assert Ancestry(byId, id) == [byId[id]] + Ancestry(byId, p);
        WalkBlames(byId, delegations, p, at, hops - 1);
        EndsSteps(delegations, byId[id], Ancestry(byId, p), at, hops);
    }
  }

  /** The bound of the walk is sixteen links. */
  lemma SixteenLinks(byId: Records, id: string)
    requires Rooted(byId) && id in byId
    ensures byId[id].delegationDepth < MAX_CHAIN_HOPS <==> |Ancestry(byId, id)| <= 16
  {
  }
}
