/**
 Representative authority: who may act for a holder, what a redelegation may
 pass on, and what a whole chain of redelegations keeps.
 */
module RepresentativeAuthority {
  import opened Options
  import opened Instants
  import opened RightsScope

  datatype ScopeLimit = Bounded(maximum: Scope) | Unbounded

  /** Why the representation is recognized. Every variant but the last creates a relation that did not exist. */
  datatype Basis =
    | AdministrativeBootstrap(assertedBy: string)
    | RecognizedExternal(assertedBy: string, evidenceRefs: seq<string>)
    | GraphDelegation(assertedBy: string, delegationGrantId: string, trustDomainId: string)
    | Redelegation(assertedBy: string, parent: string)

  datatype Representation = Representation(
    id: string,
    tenantId: string,
    holderRef: string,
    representativeRef: string,
    resourceKind: string,
    resourceId: string,
    governedRights: seq<string>,
    scopeLimit: ScopeLimit,
    actions: seq<string>,
    effectiveFrom: Instant,
    expiresAt: Option<Instant>,
    canRedelegate: bool,
    delegationDepth: nat,
    parentId: Option<string>,
    basis: Basis,
    revokedAt: Option<Instant>)

  datatype State = Pending | Active | Expired | Revoked

  // ---- The state at an instant ------------------------------------------------

  predicate RevokedAt(r: Representation, at: Instant) {
    r.revokedAt.Some? && GreaterOrEqual(at, r.revokedAt.value)
  }

  predicate NotStarted(r: Representation, at: Instant) {
    r.effectiveFrom.At? && Less(at, r.effectiveFrom)
  }

  predicate Ended(r: Representation, at: Instant) {
    r.expiresAt.Some? && GreaterOrEqual(at, r.expiresAt.value)
  }

  function StateAt(r: Representation, at: Instant): State {
    if RevokedAt(r, at) then Revoked
    else if NotStarted(r, at) then Pending
    else if Ended(r, at) then Expired
    else Active
  }

  /** Within its own window, revocation aside. */
  predicate InWindow(r: Representation, at: Instant) {
    !NotStarted(r, at) && !Ended(r, at)
  }

  // ---- Containment of a redelegation in its parent --------------------------------

  predicate LimitWithin(inner: ScopeLimit, outer: ScopeLimit) {
    outer.Unbounded? || (inner.Bounded? && ScopeWithin(inner.maximum, outer.maximum))
  }

  datatype Breach =
    | Holder
    | Resource
    | Right(governedRight: string)
    | Action(action: string)
    | ScopeBroadened
    | EffectiveFrom
    | ExpiresAt

  /** The first entry of `xs` that `allowed` does not hold. */
  function FirstOutside(xs: seq<string>, allowed: seq<string>): (r: Option<string>)
    ensures r.None? <==> forall x | x in xs :: x in allowed
    ensures r.Some? ==> r.value in xs && r.value !in allowed
  {
    if xs == [] then None
    else if xs[0] !in allowed then Some(xs[0])
    else
      assert forall x | x in xs :: x == xs[0] || x in xs[1..];
      FirstOutside(xs[1..], allowed)
  }

  /** On which dimension the child is wider than its parent, if on any. */
  function ContainmentBreach(parent: Representation, child: Representation): Option<Breach> {
    var right, action := FirstOutside(child.governedRights, parent.governedRights), FirstOutside(child.actions, parent.actions);
    if child.holderRef != parent.holderRef then Some(Holder)
    else if child.resourceKind != parent.resourceKind then Some(Resource)
    else if child.resourceId != parent.resourceId then Some(Resource)
    else if right.Some? then Some(Right(right.value))
    else if action.Some? then Some(Action(action.value))
    else if !LimitWithin(child.scopeLimit, parent.scopeLimit) then Some(ScopeBroadened)
    else if Less(child.effectiveFrom, parent.effectiveFrom) then Some(EffectiveFrom)
    else if parent.expiresAt.Some? && (child.expiresAt.None? || Greater(child.expiresAt.value, parent.expiresAt.value)) then Some(ExpiresAt)
    else None
  }

  predicate Contained(parent: Representation, child: Representation) {
    ContainmentBreach(parent, child).None?
  }

  /** Where the parent's window can be read, the child's can be too. */
  predicate WindowReadable(parent: Representation, child: Representation) {
    && (parent.effectiveFrom.At? ==> child.effectiveFrom.At?)
    && (parent.expiresAt.Some? && parent.expiresAt.value.At? && child.expiresAt.Some? ==> child.expiresAt.value.At?)
  }

  /** A contained child is usable only when its parent is, exactly when its window can be read wherever the parent's can. */
  lemma WindowInheritedIff(parent: Representation, child: Representation)
    requires Contained(parent, child)
    ensures (forall at :: InWindow(child, at) ==> InWindow(parent, at)) <==> WindowReadable(parent, child)
  {
    if !WindowReadable(parent, child) {
      var at := EscapingInstant(parent, child);
      assert InWindow(child, at) && !InWindow(parent, at);
    }
  }

  function Least(a: int, b: int): int { if a <= b then a else b }

  function Greatest(a: int, b: int): int { if a >= b then a else b }

  /** An instant at which an unreadable window lets a child outlive, or precede, its parent. */
  function EscapingInstant(parent: Representation, child: Representation): (at: Instant)
    requires Contained(parent, child) && !WindowReadable(parent, child)
    ensures InWindow(child, at) && !InWindow(parent, at)
  {
    if parent.effectiveFrom.At? && child.effectiveFrom == Unreadable then
      var end := if child.expiresAt.Some? && child.expiresAt.value.At? then child.expiresAt.value.ms else parent.effectiveFrom.ms;
      At(Least(parent.effectiveFrom.ms, end) - 1)
    else
      var start := if child.effectiveFrom.At? then child.effectiveFrom.ms else parent.expiresAt.value.ms;
      At(Greatest(parent.expiresAt.value.ms, start))
  }

  // ---- What a representation covers ------------------------------------------------

  /** An unquantified request is neither covered nor blocked by a ceiling. */
  predicate Covers(r: Representation, right: string, action: string, scope: Option<Scope>) {
    && right in r.governedRights
    && action in r.actions
    && (scope.Some? && r.scopeLimit.Bounded? ==> ScopeWithin(scope.value, r.scopeLimit.maximum))
  }

  predicate CoverageWithin(parent: Representation, child: Representation) {
    && (forall right | right in child.governedRights :: right in parent.governedRights)
    && (forall action | action in child.actions :: action in parent.actions)
    && LimitWithin(child.scopeLimit, parent.scopeLimit)
  }

  lemma CoverageInherited(parent: Representation, child: Representation, right: string, action: string, scope: Option<Scope>)
    requires CoverageWithin(parent, child) && Covers(child, right, action, scope)
    ensures Covers(parent, right, action, scope)
  {
    if scope.Some? && parent.scopeLimit.Bounded? {
      WithinIsPartialOrder(scope.value, child.scopeLimit.maximum, parent.scopeLimit.maximum);
    }
  }

  /** The rights, actions and ceiling of a redelegation are exactly as narrow as they need to be: weaker containment would pass on more. */
  lemma CoverageIsExact(parent: Representation, child: Representation)
    requires child.governedRights != [] && child.actions != []
    ensures (forall right, action, scope :: Covers(child, right, action, scope) ==> Covers(parent, right, action, scope))
      <==> CoverageWithin(parent, child)
  {
    if CoverageWithin(parent, child) {
      forall right, action, scope | Covers(child, right, action, scope) ensures Covers(parent, right, action, scope) {
        CoverageInherited(parent, child, right, action, scope);
      }
    } else {
      var right, action := child.governedRights[0], child.actions[0];
      if right' :| right' in child.governedRights && right' !in parent.governedRights {
        assert Covers(child, right', action, None) && !Covers(parent, right', action, None);
      } else if action' :| action' in child.actions && action' !in parent.actions {
        assert Covers(child, right, action', None) && !Covers(parent, right, action', None);
      } else {
        var outer := parent.scopeLimit.maximum;
        var scope := if child.scopeLimit.Bounded? then child.scopeLimit.maximum else WithAmount(outer, Amount(outer) + 1);
        WithinIsPartialOrder(scope, scope, scope);
        WithinIsPartialOrder(scope, outer, outer);
        assert Covers(child, right, action, Some(scope)) && !Covers(parent, right, action, Some(scope));
      }
    }
  }

  // ---- Chains of any length, leaf first and root last ---------------------------------

  predicate IsChain(chain: seq<Representation>) {
    forall i | 0 <= i < |chain| - 1 :: Contained(chain[i + 1], chain[i])
  }

  predicate ReadableChain(chain: seq<Representation>) {
    forall i | 0 <= i < |chain| - 1 :: WindowReadable(chain[i + 1], chain[i])
  }

  lemma ContainmentReflexive(r: Representation)
    ensures Contained(r, r) && WindowReadable(r, r)
  {
    if r.scopeLimit.Bounded? { WithinIsPartialOrder(r.scopeLimit.maximum, r.scopeLimit.maximum, r.scopeLimit.maximum); }
  }

  lemma ContainmentTransitive(a: Representation, b: Representation, c: Representation)
    requires Contained(a, b) && Contained(b, c)
    requires WindowReadable(a, b) && WindowReadable(b, c)
    ensures Contained(a, c) && WindowReadable(a, c)
  {
    if a.scopeLimit.Bounded? { WithinIsPartialOrder(c.scopeLimit.maximum, b.scopeLimit.maximum, a.scopeLimit.maximum); }
  }

  /** Where no link breaches its parent, the leaf breaches no ancestor, in any of the seven dimensions. */
  lemma {:induction false} LeafWithinEveryAncestor(chain: seq<Representation>, i: nat)
    requires IsChain(chain) && ReadableChain(chain) && i < |chain|
    ensures Contained(chain[i], chain[0]) && WindowReadable(chain[i], chain[0])
  {
    if i == 0 {
      ContainmentReflexive(chain[0]);
    } else {
      LeafWithinEveryAncestor(chain, i - 1);
      ContainmentTransitive(chain[i], chain[i - 1], chain[0]);
    }
  }

  /** The window of `r` can be read. */
  predicate Readable(r: Representation) {
    r.effectiveFrom.At? && (r.expiresAt.Some? ==> r.expiresAt.value.At?)
  }

  /** Containment chains through a link, whatever stands on either side, exactly when that link's window can be read. */
  lemma ThroughLinkIff(b: Representation)
    ensures (forall a, c :: Contained(a, b) && Contained(b, c) ==> Contained(a, c)) <==> Readable(b)
  {
    if !Readable(b) {
      ContainmentReflexive(b);
      var a, c := b, b;
      if b.effectiveFrom == Unreadable {
        a, c := a.(effectiveFrom := At(1)), c.(effectiveFrom := At(0));
      } else {
        a, c := a.(expiresAt := Some(At(0))), c.(expiresAt := Some(At(1)));
      }
      assert Contained(a, b) && Contained(b, c) && !Contained(a, c);
    } else {
      forall a, c | Contained(a, b) && Contained(b, c) ensures Contained(a, c) {
        if a.scopeLimit.Bounded? { WithinIsPartialOrder(c.scopeLimit.maximum, b.scopeLimit.maximum, a.scopeLimit.maximum); }
      }
    }
  }

  /** A request the leaf covers is covered by every ancestor. No window is involved, so no readability is assumed. */
  lemma {:induction false} LeafCoverageReachesTheRoot(chain: seq<Representation>, i: nat, right: string, action: string, scope: Option<Scope>)
    requires IsChain(chain) && i < |chain| && Covers(chain[0], right, action, scope)
    ensures Covers(chain[i], right, action, scope)
    ensures chain[i].holderRef == chain[0].holderRef
    ensures chain[i].resourceKind == chain[0].resourceKind && chain[i].resourceId == chain[0].resourceId
  {
    if i > 0 {
      LeafCoverageReachesTheRoot(chain, i - 1, right, action, scope);
      CoverageInherited(chain[i], chain[i - 1], right, action, scope);
    }
  }

  predicate AllActive(chain: seq<Representation>, at: Instant) {
    forall i | 0 <= i < |chain| :: StateAt(chain[i], at) == Active
  }

  predicate NoneRevoked(chain: seq<Representation>, at: Instant) {
    forall i | 0 <= i < |chain| :: !RevokedAt(chain[i], at)
  }

  /** Every link is active exactly when the instant lies in the leaf's own window and no link has been revoked by then. */
  lemma {:induction false} ChainActiveIff(chain: seq<Representation>, at: Instant)
    requires chain != [] && IsChain(chain) && ReadableChain(chain)
    ensures AllActive(chain, at) <==> InWindow(chain[0], at) && NoneRevoked(chain, at)
  {
    if AllActive(chain, at) {
      assert StateAt(chain[0], at) == Active;
      forall i | 0 <= i < |chain| ensures !RevokedAt(chain[i], at) {
        assert StateAt(chain[i], at) == Active;
      }
    }
    if InWindow(chain[0], at) && NoneRevoked(chain, at) {
      forall i | 0 <= i < |chain| ensures StateAt(chain[i], at) == Active {
        LeafWithinEveryAncestor(chain, i);
        WindowInheritedIff(chain[i], chain[0]);
      }
    }
  }
}
