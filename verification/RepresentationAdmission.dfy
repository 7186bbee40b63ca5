/**
 When a representation is granted or withdrawn, said once and for all: one
 condition over the caller, the basis, the parent and the record that results,
 in any store a run can reach.
 */
module RepresentationAdmission {
  import opened Options
  import opened Instants
  import opened SafeIntegers
  import opened RightsScope
  import opened RepresentativeAuthority
  import opened RepresentationStore

  /** The record stored under `id` belongs to the tenant. */
  predicate Held(byId: Records, tenantId: string, id: string) {
    id in byId && byId[id].tenantId == tenantId
  }

  // ---- What a grant must satisfy -----------------------------------------------------

  /** The child keeps the parent's holder and resource, and asks for no right, action, amount or instant beyond the parent's. */
  predicate PassesOn(parent: Representation, child: Representation) {
    && child.holderRef == parent.holderRef
    && child.resourceKind == parent.resourceKind && child.resourceId == parent.resourceId
    && (forall right | right in child.governedRights :: right in parent.governedRights)
    && (forall action | action in child.actions :: action in parent.actions)
    && (parent.scopeLimit.Bounded? ==> child.scopeLimit.Bounded? && ScopeWithin(child.scopeLimit.maximum, parent.scopeLimit.maximum))
    && !Less(child.effectiveFrom, parent.effectiveFrom)
    && (parent.expiresAt.Some? ==> child.expiresAt.Some? && !Greater(child.expiresAt.value, parent.expiresAt.value))
  }

  lemma ContainedIffPassesOn(parent: Representation, child: Representation)
    ensures Contained(parent, child) <==> PassesOn(parent, child)
  {
  }

  /** Anyone but the system redelegates only, and only what is its own to exercise. */
  predicate Entitled(byId: Records, caller: Caller, basis: Basis) {
    caller.Tenant? ==>
      basis.Redelegation? && basis.parent in byId && caller.actorId == Some(byId[basis.parent].representativeRef)
  }

  /** A redelegation hangs one level below a redelegable parent of its tenant; any other grant is a root, for the holder and resource it names. */
  predicate Anchored(byId: Records, g: Grant, r: Representation) {
    if g.basis.Redelegation? then
      && Held(byId, g.tenantId, g.basis.parent)
      && r.parentId == Some(g.basis.parent)
      && r.delegationDepth == byId[g.basis.parent].delegationDepth + 1
      && byId[g.basis.parent].canRedelegate
      && PassesOn(byId[g.basis.parent], r)
    else
      && g.holderRef == Some(r.holderRef) && g.resource == Some((r.resourceKind, r.resourceId))
      && r.parentId.None? && r.delegationDepth == 0
  }

  /** The rest of the record is the grant's own, not yet withdrawn. */
  predicate AsAsked(g: Grant, id: string, r: Representation) {
    && r.id == id && r.tenantId == g.tenantId && r.representativeRef == g.representativeRef
    && r.governedRights == g.governedRights && r.scopeLimit == g.scopeLimit && r.actions == g.actions
    && r.effectiveFrom == g.effectiveFrom && r.expiresAt == g.expiresAt
    && r.canRedelegate == (g.canRedelegate == Some(true))
    && r.basis == g.basis && r.revokedAt.None?
  }

  /** Somebody vouches for the basis, and an external one comes with evidence. */
  predicate Vouched(basis: Basis) {
    |basis.assertedBy| > 0 && (basis.RecognizedExternal? ==> |basis.evidenceRefs| > 0)
  }

  /** At least one right, and none outside the closed vocabulary. */
  predicate Enumerated(rights: seq<string>) {
    |rights| > 0 && forall right | right in rights ::
      right in ["economic-interest", "revenue-right", "ownership-interest", "usage-right", "contractual-claim"]
  }

  /** A bound is a positive safe amount, of something named if it counts units. */
  predicate Positive(limit: ScopeLimit) {
    limit.Bounded? ==>
      && 0 < Amount(limit.maximum) <= MAX_SAFE_INTEGER
      && (limit.maximum.Unitized? ==> |limit.maximum.unitDenomination| > 0)
  }

  /** A delegation in the graph is live, of that trust domain, and from that holder to that representative. */
  predicate Delegated(delegations: Delegations, basis: Basis, representativeRef: string, holderRef: string) {
    basis.GraphDelegation? ==>
      && delegations.Some? && basis.delegationGrantId in delegations.value
      && delegations.value[basis.delegationGrantId] == DelegationRecord(true, basis.trustDomainId, representativeRef, holderRef)
  }

  lemma ChecksMean(delegations: Delegations, basis: Basis, representativeRef: string, holderRef: string, rights: seq<string>, limit: ScopeLimit)
    ensures BasisWellShaped(basis) <==> Vouched(basis)
    ensures RightsEnumerated(rights) <==> Enumerated(rights)
    ensures LimitWellFormed(limit) <==> Positive(limit)
    ensures BasisCorroborated(delegations, basis, representativeRef, holderRef) <==> Delegated(delegations, basis, representativeRef, holderRef)
  {
  }

  /** Somebody else's authority, over enumerated rights, named actions, a positive limit and a readable window. */
  predicate Meaningful(r: Representation) {
    && r.holderRef != "" && r.holderRef != r.representativeRef
    && Enumerated(r.governedRights)
    && r.actions != [] && "" !in r.actions
    && Positive(r.scopeLimit)
    && r.effectiveFrom.At? && (r.expiresAt.Some? ==> r.expiresAt.value.At?)
  }

  predicate Acceptable(byId: Records, delegations: Delegations, caller: Caller, g: Grant, id: string, r: Representation) {
    && Vouched(r.basis)
    && Entitled(byId, caller, r.basis)
    && Anchored(byId, g, r)
    && AsAsked(g, id, r)
    && Meaningful(r)
    && Delegated(delegations, r.basis, r.representativeRef, r.holderRef)
  }

  // ---- Granting ------------------------------------------------------------------------

  /** The record a grant would leave. */
  function DraftOf(byId: Records, g: Grant, id: string): Representation
    requires HolderOf(ParentOf(byId, g), g).Some? && ResourceOf(ParentOf(byId, g), g).Some?
  {
    Draft(ParentOf(byId, g), g, HolderOf(ParentOf(byId, g), g).value, ResourceOf(ParentOf(byId, g), g).value, id)
  }

  lemma AcceptableIsTheDraft(byId: Records, delegations: Delegations, caller: Caller, g: Grant, id: string, r: Representation)
    requires Coherent(byId) && Acceptable(byId, delegations, caller, g, id, r)
    ensures HolderOf(ParentOf(byId, g), g).Some? && ResourceOf(ParentOf(byId, g), g).Some? && r == DraftOf(byId, g, id)
  {
    if g.basis.Redelegation? { assert Sound(byId, g.basis.parent); }
  }

  lemma AcceptableIsAdmitted(byId: Records, delegations: Delegations, caller: Caller, g: Grant, id: string, r: Representation)
    requires Coherent(byId) && Acceptable(byId, delegations, caller, g, id, r)
    ensures GrantOutcome(byId, delegations, caller, g, id) == if id in byId then Refused(CONFLICT) else Granted(r)
  {
    AcceptableIsTheDraft(byId, delegations, caller, g, id, r);
    ChecksMean(delegations, r.basis, r.representativeRef, r.holderRef, r.governedRights, r.scopeLimit);
    if g.basis.Redelegation? { ContainedIffPassesOn(byId[g.basis.parent], r); }
  }

  predicate Admitted(outcome: Outcome) {
    outcome.Granted? || outcome == Refused(CONFLICT)
  }

  lemma AdmittedIsAnchored(byId: Records, delegations: Delegations, caller: Caller, g: Grant, id: string)
    requires Coherent(byId) && Admitted(GrantOutcome(byId, delegations, caller, g, id))
    ensures HolderOf(ParentOf(byId, g), g).Some? && ResourceOf(ParentOf(byId, g), g).Some?
    ensures Vouched(g.basis) && Entitled(byId, caller, g.basis) && Anchored(byId, g, DraftOf(byId, g, id))
  {
    ChecksMean(delegations, g.basis, g.representativeRef, "", g.governedRights, g.scopeLimit);
    if g.basis.Redelegation? {
      assert Sound(byId, g.basis.parent);
      ContainedIffPassesOn(byId[g.basis.parent], DraftOf(byId, g, id));
    }
  }

  lemma AdmittedIsMeaningful(byId: Records, delegations: Delegations, caller: Caller, g: Grant, id: string)
    requires Admitted(GrantOutcome(byId, delegations, caller, g, id))
    ensures HolderOf(ParentOf(byId, g), g).Some? && ResourceOf(ParentOf(byId, g), g).Some?
    ensures var r := DraftOf(byId, g, id); Meaningful(r) && Delegated(delegations, g.basis, r.representativeRef, r.holderRef)
  {
    var r := DraftOf(byId, g, id);
    ChecksMean(delegations, g.basis, r.representativeRef, r.holderRef, r.governedRights, r.scopeLimit);
  }

  lemma AdmittedIsAcceptable(byId: Records, delegations: Delegations, caller: Caller, g: Grant, id: string)
    requires Coherent(byId) && Admitted(GrantOutcome(byId, delegations, caller, g, id))
    ensures HolderOf(ParentOf(byId, g), g).Some? && ResourceOf(ParentOf(byId, g), g).Some?
    ensures Acceptable(byId, delegations, caller, g, id, DraftOf(byId, g, id))
  {
    AdmittedIsAnchored(byId, delegations, caller, g, id);
    AdmittedIsMeaningful(byId, delegations, caller, g, id);
  }

  /**
   A grant leaves a record exactly when that record is acceptable and its id is new,
   and it is refused for a conflict exactly when the id is all that stands against it.
   */
  lemma GrantedIff(byId: Records, delegations: Delegations, caller: Caller, g: Grant, id: string)
    requires Coherent(byId)
    ensures forall r :: GrantOutcome(byId, delegations, caller, g, id) == Granted(r) <==>
      Acceptable(byId, delegations, caller, g, id, r) && id !in byId
    ensures GrantOutcome(byId, delegations, caller, g, id) == Refused(CONFLICT) <==>
      id in byId && exists r :: Acceptable(byId, delegations, caller, g, id, r)
  {
    var outcome := GrantOutcome(byId, delegations, caller, g, id);
    forall r ensures outcome == Granted(r) <==> Acceptable(byId, delegations, caller, g, id, r) && id !in byId {
      if Acceptable(byId, delegations, caller, g, id, r) { AcceptableIsAdmitted(byId, delegations, caller, g, id, r); }
      if outcome == Granted(r) { AdmittedIsAcceptable(byId, delegations, caller, g, id); }
    }
    if outcome == Refused(CONFLICT) { AdmittedIsAcceptable(byId, delegations, caller, g, id); }
    if r :| Acceptable(byId, delegations, caller, g, id, r) { AcceptableIsAdmitted(byId, delegations, caller, g, id, r); }
  }

  /** What can stand against a grant. */
  datatype Defect =
    | NobodyVouches | NoParent | NotEntitled | NoHolder | NoResource | OwnAuthority | RightsUnknown | NoActions | LimitUnsound
    | BeginUnreadable | EndUnreadable | NotDelegated | NotRedelegable | Wider | Taken

  function HolderNamed(byId: Records, g: Grant): Option<string> {
    if g.basis.Redelegation? && Held(byId, g.tenantId, g.basis.parent) then Some(byId[g.basis.parent].holderRef) else g.holderRef
  }

  predicate Stands(byId: Records, delegations: Delegations, caller: Caller, g: Grant, id: string, defect: Defect) {
    var redelegated := g.basis.Redelegation?;
    var anchored := redelegated && Held(byId, g.tenantId, g.basis.parent);
    match defect
    case NobodyVouches => !Vouched(g.basis)
    case NoParent => redelegated && !anchored
    case NotEntitled => !Entitled(byId, caller, g.basis)
    case NoHolder => HolderNamed(byId, g) in [None, Some("")]
    case NoResource => !redelegated && g.resource.None?
    case OwnAuthority => HolderNamed(byId, g) == Some(g.representativeRef)
    case RightsUnknown => !Enumerated(g.governedRights)
    case NoActions => |g.actions| == 0 || "" in g.actions
    case LimitUnsound => !Positive(g.scopeLimit)
    case BeginUnreadable => g.effectiveFrom.Unreadable?
    case EndUnreadable => g.expiresAt.Some? && g.expiresAt.value.Unreadable?
    case NotDelegated => HolderNamed(byId, g).Some? && !Delegated(delegations, g.basis, g.representativeRef, HolderNamed(byId, g).value)
    case NotRedelegable => anchored && !byId[g.basis.parent].canRedelegate
    case Wider => anchored && !PassesOn(byId[g.basis.parent], DraftOf(byId, g, id))
    case Taken => id in byId
  }

  function ErrorFor(defect: Defect): Error {
    match defect
    case NobodyVouches => BASIS_INVALID
    case NoParent => BASIS_INVALID
    case NotEntitled => GRANT_NOT_PERMITTED
    case BeginUnreadable => INVALID_TIMESTAMP
    case EndUnreadable => INVALID_TIMESTAMP
    case NotDelegated => BASIS_INVALID
    case NotRedelegable => BASIS_INVALID
    case Wider => SCOPE_EXPANSION
    case Taken => CONFLICT
    case _ => REPRESENTATION_INVALID
  }

  /** Which of several defects is reported: who may grant at all before what is granted, and an id that is taken last. */
  function Stage(defect: Defect): nat {
    match defect
    case NobodyVouches => 0
    case NoParent => 1
    case NotEntitled => 2
    case NoHolder => 3
    case NoResource => 3
    case OwnAuthority => 4
    case RightsUnknown => 4
    case NoActions => 4
    case LimitUnsound => 4
    case BeginUnreadable => 5
    case EndUnreadable => 5
    case NotDelegated => 6
    case NotRedelegable => 7
    case Wider => 8
    case Taken => 9
  }

  ghost predicate NothingBefore(byId: Records, delegations: Delegations, caller: Caller, g: Grant, id: string, stage: nat) {
    forall defect | Stage(defect) < stage :: !Stands(byId, delegations, caller, g, id, defect)
  }

  lemma ErrorsMean(byId: Records, delegations: Delegations, g: Grant, id: string, holderRef: string)
    requires HolderNamed(byId, g) == Some(holderRef)
    ensures FieldError(g, holderRef) == Some(REPRESENTATION_INVALID) <==>
      holderRef == g.representativeRef || !Enumerated(g.governedRights) || |g.actions| == 0 || "" in g.actions || !Positive(g.scopeLimit)
    ensures FieldError(g, holderRef) == Some(INVALID_TIMESTAMP) <==>
      && !(holderRef == g.representativeRef || !Enumerated(g.governedRights) || |g.actions| == 0 || "" in g.actions || !Positive(g.scopeLimit))
      && (g.effectiveFrom.Unreadable? || (g.expiresAt.Some? && g.expiresAt.value.Unreadable?))
    ensures FieldError(g, holderRef).Some? ==> FieldError(g, holderRef).value in [REPRESENTATION_INVALID, INVALID_TIMESTAMP]
  {
    ChecksMean(delegations, g.basis, g.representativeRef, holderRef, g.governedRights, g.scopeLimit);
  }

  /** Nothing stands against who grants, to whom and over what. */
  lemma PartiesKnown(byId: Records, delegations: Delegations, caller: Caller, g: Grant, id: string)
    requires NothingBefore(byId, delegations, caller, g, id, 4)
    ensures BasisWellShaped(g.basis) && (g.basis.Redelegation? ==> Held(byId, g.tenantId, g.basis.parent))
    ensures MayGrant(caller, g.basis, ParentOf(byId, g)).None?
    ensures HolderOf(ParentOf(byId, g), g) == HolderNamed(byId, g) && HolderNamed(byId, g).Some? && HolderNamed(byId, g).value != ""
    ensures ResourceOf(ParentOf(byId, g), g).Some?
  {
    ChecksMean(delegations, g.basis, g.representativeRef, "", g.governedRights, g.scopeLimit);
    assert !Stands(byId, delegations, caller, g, id, NobodyVouches) && !Stands(byId, delegations, caller, g, id, NoParent);
    assert !Stands(byId, delegations, caller, g, id, NotEntitled) && !Stands(byId, delegations, caller, g, id, NoHolder);
    assert !Stands(byId, delegations, caller, g, id, NoResource);
  }

  lemma RefusedForItsParties(byId: Records, delegations: Delegations, caller: Caller, g: Grant, id: string, defect: Defect)
    requires Stands(byId, delegations, caller, g, id, defect) && NothingBefore(byId, delegations, caller, g, id, Stage(defect))
    requires Stage(defect) < 4
    ensures GrantOutcome(byId, delegations, caller, g, id) == Refused(ErrorFor(defect))
  {
    ChecksMean(delegations, g.basis, g.representativeRef, "", g.governedRights, g.scopeLimit);
    assert Stage(defect) > 0 ==> !Stands(byId, delegations, caller, g, id, NobodyVouches);
    assert Stage(defect) > 1 ==> !Stands(byId, delegations, caller, g, id, NoParent);
    assert Stage(defect) > 2 ==> !Stands(byId, delegations, caller, g, id, NotEntitled);
  }

  lemma RefusedForItsContents(byId: Records, delegations: Delegations, caller: Caller, g: Grant, id: string, defect: Defect)
    requires Stands(byId, delegations, caller, g, id, defect) && NothingBefore(byId, delegations, caller, g, id, Stage(defect))
    requires 4 <= Stage(defect) < 6
    ensures GrantOutcome(byId, delegations, caller, g, id) == Refused(ErrorFor(defect))
  {
    PartiesKnown(byId, delegations, caller, g, id);
    ErrorsMean(byId, delegations, g, id, HolderNamed(byId, g).value);
    if Stage(defect) == 5 {
      assert !Stands(byId, delegations, caller, g, id, OwnAuthority) && !Stands(byId, delegations, caller, g, id, RightsUnknown);
      assert !Stands(byId, delegations, caller, g, id, NoActions) && !Stands(byId, delegations, caller, g, id, LimitUnsound);
    }
  }

  lemma ContentsSound(byId: Records, delegations: Delegations, caller: Caller, g: Grant, id: string)
    requires NothingBefore(byId, delegations, caller, g, id, 6)
    ensures HolderNamed(byId, g).Some? && FieldError(g, HolderNamed(byId, g).value).None?
  {
    PartiesKnown(byId, delegations, caller, g, id);
    ErrorsMean(byId, delegations, g, id, HolderNamed(byId, g).value);
    assert !Stands(byId, delegations, caller, g, id, OwnAuthority) && !Stands(byId, delegations, caller, g, id, RightsUnknown);
    assert !Stands(byId, delegations, caller, g, id, NoActions) && !Stands(byId, delegations, caller, g, id, LimitUnsound);
    assert !Stands(byId, delegations, caller, g, id, BeginUnreadable) && !Stands(byId, delegations, caller, g, id, EndUnreadable);
  }

  /** What is left to check of a grant whose parties and contents are in order. */
  function BasisOutcome(byId: Records, delegations: Delegations, g: Grant, id: string, holderRef: string): Outcome
    requires HolderOf(ParentOf(byId, g), g).Some? && ResourceOf(ParentOf(byId, g), g).Some?
  {
    var parent, draft := ParentOf(byId, g), DraftOf(byId, g, id);
    if !BasisCorroborated(delegations, g.basis, g.representativeRef, holderRef) then Refused(BASIS_INVALID)
    else if RedelegationError(parent, draft).Some? then Refused(RedelegationError(parent, draft).value)
    else if id in byId then Refused(CONFLICT)
    else Granted(draft)
  }

  lemma OnceSound(byId: Records, delegations: Delegations, caller: Caller, g: Grant, id: string)
    requires NothingBefore(byId, delegations, caller, g, id, 6)
    ensures HolderNamed(byId, g).Some? && (g.basis.Redelegation? ==> Held(byId, g.tenantId, g.basis.parent))
    ensures HolderOf(ParentOf(byId, g), g).Some? && ResourceOf(ParentOf(byId, g), g).Some?
    ensures GrantOutcome(byId, delegations, caller, g, id) == BasisOutcome(byId, delegations, g, id, HolderNamed(byId, g).value)
  {
    PartiesKnown(byId, delegations, caller, g, id);
    ContentsSound(byId, delegations, caller, g, id);
  }

  lemma BasisMeans(byId: Records, delegations: Delegations, caller: Caller, g: Grant, id: string, holderRef: string)
    requires HolderNamed(byId, g) == Some(holderRef)
    requires g.basis.Redelegation? ==> Held(byId, g.tenantId, g.basis.parent)
    requires HolderOf(ParentOf(byId, g), g).Some? && ResourceOf(ParentOf(byId, g), g).Some?
    ensures BasisCorroborated(delegations, g.basis, g.representativeRef, holderRef) <==> !Stands(byId, delegations, caller, g, id, NotDelegated)
    ensures RedelegationError(ParentOf(byId, g), DraftOf(byId, g, id)) ==
      if Stands(byId, delegations, caller, g, id, NotRedelegable) then Some(BASIS_INVALID)
      else if Stands(byId, delegations, caller, g, id, Wider) then Some(SCOPE_EXPANSION)
      else None
  {
    ChecksMean(delegations, g.basis, g.representativeRef, holderRef, g.governedRights, g.scopeLimit);
    if g.basis.Redelegation? { ContainedIffPassesOn(byId[g.basis.parent], DraftOf(byId, g, id)); }
  }

  lemma RefusedForItsBasis(byId: Records, delegations: Delegations, caller: Caller, g: Grant, id: string, defect: Defect)
    requires Stands(byId, delegations, caller, g, id, defect) && NothingBefore(byId, delegations, caller, g, id, Stage(defect))
    requires 6 <= Stage(defect)
    ensures GrantOutcome(byId, delegations, caller, g, id) == Refused(ErrorFor(defect))
  {
    OnceSound(byId, delegations, caller, g, id);
    BasisMeans(byId, delegations, caller, g, id, HolderNamed(byId, g).value);
    assert Stage(defect) > 6 ==> !Stands(byId, delegations, caller, g, id, NotDelegated);
    assert Stage(defect) > 7 ==> !Stands(byId, delegations, caller, g, id, NotRedelegable);
    assert Stage(defect) > 8 ==> !Stands(byId, delegations, caller, g, id, Wider);
  }

  /** A grant is refused for whatever stands against it first. */
  lemma RefusedForTheFirst(byId: Records, delegations: Delegations, caller: Caller, g: Grant, id: string, defect: Defect)
    requires Stands(byId, delegations, caller, g, id, defect) && NothingBefore(byId, delegations, caller, g, id, Stage(defect))
    ensures GrantOutcome(byId, delegations, caller, g, id) == Refused(ErrorFor(defect))
  {
    if Stage(defect) < 4 {
      RefusedForItsParties(byId, delegations, caller, g, id, defect);
    } else if Stage(defect) < 6 {
      RefusedForItsContents(byId, delegations, caller, g, id, defect);
    } else {
      RefusedForItsBasis(byId, delegations, caller, g, id, defect);
    }
  }

  lemma NothingStands(byId: Records, delegations: Delegations, caller: Caller, g: Grant, id: string)
    requires NothingBefore(byId, delegations, caller, g, id, 10)
    ensures GrantOutcome(byId, delegations, caller, g, id).Granted?
  {
    OnceSound(byId, delegations, caller, g, id);
    BasisMeans(byId, delegations, caller, g, id, HolderNamed(byId, g).value);
    assert !Stands(byId, delegations, caller, g, id, NotDelegated) && !Stands(byId, delegations, caller, g, id, NotRedelegable);
    assert !Stands(byId, delegations, caller, g, id, Wider) && !Stands(byId, delegations, caller, g, id, Taken);
  }

  lemma {:induction false} FirstDefect(byId: Records, delegations: Delegations, caller: Caller, g: Grant, id: string, stage: nat) returns (first: Option<Defect>)
    ensures first.None? ==> NothingBefore(byId, delegations, caller, g, id, stage)
    ensures first.Some? ==>
      Stands(byId, delegations, caller, g, id, first.value) && NothingBefore(byId, delegations, caller, g, id, Stage(first.value))
  {
    if stage == 0 { return None; }
    first := FirstDefect(byId, delegations, caller, g, id, stage - 1);
    if first.None? {
      if defect :| Stage(defect) == stage - 1 && Stands(byId, delegations, caller, g, id, defect) { first := Some(defect); }
    }
  }

  /** It is refused exactly when something stands against it, and a refusal names something that does. */
  lemma RefusalsAreTrue(byId: Records, delegations: Delegations, caller: Caller, g: Grant, id: string)
    ensures var outcome := GrantOutcome(byId, delegations, caller, g, id);
      && (outcome.Refused? <==> exists defect :: Stands(byId, delegations, caller, g, id, defect))
      && (outcome.Refused? ==> exists defect :: Stands(byId, delegations, caller, g, id, defect) && ErrorFor(defect) == outcome.error)
  {
    var first := FirstDefect(byId, delegations, caller, g, id, 10);
    if first.Some? { RefusedForTheFirst(byId, delegations, caller, g, id, first.value); } else { NothingStands(byId, delegations, caller, g, id); }
  }

  // ---- Withdrawing -----------------------------------------------------------------------

  /** The system may withdraw anything; an actor what hangs directly below a representation of its own. */
  predicate MayWithdraw(byId: Records, caller: Caller, r: Representation) {
    caller.Tenant? ==>
      caller.actorId.Some? && exists parent | parent in byId.Values :: r.parentId == Some(parent.id) && parent.representativeRef == caller.actorId.value
  }

  /** The record stays as it is but for its first withdrawal. */
  predicate Withdrawn(before: Representation, after: Representation, now: int) {
    && after == before.(revokedAt := after.revokedAt)
    && after.revokedAt == (if before.revokedAt.Some? then before.revokedAt else Some(At(now)))
  }

  lemma PermissionIsTheParents(byId: Records, caller: Caller, tenantId: string, id: string)
    requires Coherent(byId) && Held(byId, tenantId, id)
    ensures var parentId := byId[id].parentId;
      MayRevoke(caller, if parentId.Some? then ReadById(byId, tenantId, parentId.value) else None) <==> MayWithdraw(byId, caller, byId[id])
  {
    assert Sound(byId, id);
    if byId[id].parentId.Some? {
      var p := byId[id].parentId.value;
      assert Sound(byId, p) && byId[p] in byId.Values;
      forall parent | parent in byId.Values && parent.id == p ensures parent == byId[p] {
        var k :| k in byId && byId[k] == parent;
        assert Sound(byId, k);
      }
    }
  }

  /** In every coherent store the three answers to a withdrawal, each exactly when it is given. */
  lemma RevokedIff(byId: Records, caller: Caller, tenantId: string, id: string, now: int)
    requires Coherent(byId)
    ensures forall r :: RevokeOutcome(byId, caller, tenantId, id, now) == Granted(r) <==>
      Held(byId, tenantId, id) && MayWithdraw(byId, caller, byId[id]) && Withdrawn(byId[id], r, now)
    ensures RevokeOutcome(byId, caller, tenantId, id, now) == Refused(NOT_FOUND) <==> !Held(byId, tenantId, id)
    ensures RevokeOutcome(byId, caller, tenantId, id, now) == Refused(GRANT_NOT_PERMITTED) <==>
      Held(byId, tenantId, id) && !MayWithdraw(byId, caller, byId[id])
  {
    if Held(byId, tenantId, id) { PermissionIsTheParents(byId, caller, tenantId, id); }
  }
}
