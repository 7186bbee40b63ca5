/**
 The in-memory store of representations: who may grant, who may withdraw, and
 what every stored record satisfies in every reachable state.
 */
module RepresentationStore {
  import opened Options
  import opened Instants
  import opened SafeIntegers
  import opened RightsScope
  import opened RepresentativeAuthority
  import PositionKey

  datatype Error =
    | BASIS_INVALID
    | GRANT_NOT_PERMITTED
    | REPRESENTATION_INVALID
    | INVALID_TIMESTAMP
    | SCOPE_EXPANSION
    | CONFLICT
    | NOT_FOUND

  /** A privileged administrative context, or a tenant's own with or without an actor. */
  datatype Caller = System | Tenant(actorId: Option<string>)

  datatype DelegationRecord = DelegationRecord(live: bool, trustDomainId: string, delegateActorId: string, principalActorId: string)

  /** The delegation lookup, absent when the deployment configured none. */
  type Delegations = Option<map<string, DelegationRecord>>

  /** Timestamps arrive already read: one the store's strict pattern refuses is unreadable. */
  datatype Grant = Grant(
    tenantId: string,
    holderRef: Option<string>,
    representativeRef: string,
    resource: Option<(string, string)>,
    governedRights: seq<string>,
    scopeLimit: ScopeLimit,
    actions: seq<string>,
    effectiveFrom: Instant,
    expiresAt: Option<Instant>,
    canRedelegate: Option<bool>,
    basis: Basis)

  type Records = map<string, Representation>

  datatype Outcome = Granted(representation: Representation) | Refused(error: Error)

  function ReadById(byId: Records, tenantId: string, id: string): Option<Representation> {
    if id in byId && byId[id].tenantId == tenantId then Some(byId[id]) else None
  }

  // ---- Granting ------------------------------------------------------------------

  predicate BasisWellShaped(basis: Basis) {
    basis.assertedBy != "" && (basis.RecognizedExternal? ==> basis.evidenceRefs != [])
  }

  /** Issuing is privileged; redelegating is for the parent's own representative. */
  function MayGrant(caller: Caller, basis: Basis, parent: Option<Representation>): Option<Error> {
    if caller.System? then None
    else if !basis.Redelegation? then Some(GRANT_NOT_PERMITTED)
    else if parent.None? then Some(BASIS_INVALID)
    else if caller.actorId != Some(parent.value.representativeRef) then Some(GRANT_NOT_PERMITTED)
    else None
  }

  predicate LimitWellFormed(limit: ScopeLimit) {
    limit.Bounded? ==>
      match limit.maximum
      case Proportional(p) => 1 <= p <= MAX_SAFE_INTEGER
      case Unitized(u, d) => 1 <= u <= MAX_SAFE_INTEGER && d != ""
  }

  predicate Corroborates(record: Option<DelegationRecord>, representativeRef: string, holderRef: string, trustDomainId: string) {
    && record.Some? && record.value.live
    && record.value.trustDomainId == trustDomainId
    && record.value.delegateActorId == representativeRef
    && record.value.principalActorId == holderRef
  }

  function FindDelegation(delegations: Delegations, id: string): Option<DelegationRecord> {
    if delegations.Some? && id in delegations.value then Some(delegations.value[id]) else None
  }

  /** A basis grounded in a delegation stands only as long as that delegation does. */
  predicate BasisCorroborated(delegations: Delegations, basis: Basis, representativeRef: string, holderRef: string) {
    basis.GraphDelegation? ==>
      Corroborates(FindDelegation(delegations, basis.delegationGrantId), representativeRef, holderRef, basis.trustDomainId)
  }

  function ParentOf(byId: Records, g: Grant): Option<Representation> {
    if g.basis.Redelegation? then ReadById(byId, g.tenantId, g.basis.parent) else None
  }

  /** Holder and resource are copied from the parent, never taken from the input of a redelegation. */
  function HolderOf(parent: Option<Representation>, g: Grant): Option<string> {
    if parent.Some? then Some(parent.value.holderRef) else g.holderRef
  }

  function ResourceOf(parent: Option<Representation>, g: Grant): Option<(string, string)> {
    if parent.Some? then Some((parent.value.resourceKind, parent.value.resourceId)) else g.resource
  }

  function Draft(parent: Option<Representation>, g: Grant, holderRef: string, resource: (string, string), id: string): Representation {
    Representation(
      id, g.tenantId, holderRef, g.representativeRef, resource.0, resource.1, g.governedRights, g.scopeLimit, g.actions,
      g.effectiveFrom, g.expiresAt, g.canRedelegate == Some(true),
      if parent.Some? then parent.value.delegationDepth + 1 else 0,
      if parent.Some? then Some(parent.value.id) else None,
      g.basis, None)
  }

  predicate RightsEnumerated(governedRights: seq<string>) {
    governedRights != [] && forall right | right in governedRights :: right in RIGHT_TYPES
  }

  function FieldError(g: Grant, holderRef: string): Option<Error> {
    if holderRef == g.representativeRef then Some(REPRESENTATION_INVALID)
    else if !RightsEnumerated(g.governedRights) then Some(REPRESENTATION_INVALID)
    else if g.actions == [] || "" in g.actions then Some(REPRESENTATION_INVALID)
    else if !LimitWellFormed(g.scopeLimit) then Some(REPRESENTATION_INVALID)
    else if g.effectiveFrom == Unreadable then Some(INVALID_TIMESTAMP)
    else if g.expiresAt == Some(Unreadable) then Some(INVALID_TIMESTAMP)
    else None
  }

  function RedelegationError(parent: Option<Representation>, draft: Representation): Option<Error> {
    if parent.None? then None
    else if !parent.value.canRedelegate then Some(BASIS_INVALID)
    else if !Contained(parent.value, draft) then Some(SCOPE_EXPANSION)
    else None
  }

  /** The outcome of a grant over the records as they stand. */
  function GrantOutcome(byId: Records, delegations: Delegations, caller: Caller, g: Grant, id: string): Outcome {
    if !BasisWellShaped(g.basis) then Refused(BASIS_INVALID)
    else
      var parent := ParentOf(byId, g);
      if g.basis.Redelegation? && parent.None? then Refused(BASIS_INVALID)
      else if MayGrant(caller, g.basis, parent).Some? then Refused(MayGrant(caller, g.basis, parent).value)
      else
        var holderRef, resource := HolderOf(parent, g), ResourceOf(parent, g);
        if holderRef.None? || holderRef.value == "" || resource.None? then Refused(REPRESENTATION_INVALID)
        else
          var draft := Draft(parent, g, holderRef.value, resource.value, id);
          if FieldError(g, holderRef.value).Some? then Refused(FieldError(g, holderRef.value).value)
          else if !BasisCorroborated(delegations, g.basis, g.representativeRef, holderRef.value) then Refused(BASIS_INVALID)
          else if RedelegationError(parent, draft).Some? then Refused(RedelegationError(parent, draft).value)
          else if id in byId then Refused(CONFLICT)
          else Granted(draft)
  }

  // ---- Withdrawing -----------------------------------------------------------------

  predicate MayRevoke(caller: Caller, parent: Option<Representation>) {
    caller.System? || (parent.Some? && caller.actorId == Some(parent.value.representativeRef))
  }

  function RevokeOutcome(byId: Records, caller: Caller, tenantId: string, id: string, now: int): Outcome {
    var existing := ReadById(byId, tenantId, id);
    if existing.None? then Refused(NOT_FOUND)
    else
      var parent := if existing.value.parentId.Some? then ReadById(byId, tenantId, existing.value.parentId.value) else None;
      if !MayRevoke(caller, parent) then Refused(GRANT_NOT_PERMITTED)
      else if existing.value.revokedAt.Some? then Granted(existing.value)
      else Granted(existing.value.(revokedAt := Some(At(now))))
  }

  function Stored(byId: Records, outcome: Outcome): Records {
    if outcome.Granted? then byId[outcome.representation.id := outcome.representation] else byId
  }

  // ---- What every reachable state satisfies -------------------------------------------

  predicate RootRecord(r: Representation) {
    r.delegationDepth == 0 && !r.basis.Redelegation?
  }

  predicate RedelegatedRecord(r: Representation, parent: Representation) {
    && r.tenantId == parent.tenantId
    && r.delegationDepth == parent.delegationDepth + 1
    && parent.canRedelegate
    && Contained(parent, r)
  }

  ghost predicate Sound(byId: Records, id: string)
    requires id in byId
  {
    var r := byId[id];
    && r.id == id
    && r.holderRef != r.representativeRef
    && r.governedRights != [] && r.actions != []
    && Readable(r) && (r.revokedAt.Some? ==> r.revokedAt.value.At?)
    && match r.parentId
       case None => RootRecord(r)
       case Some(p) => p in byId && RedelegatedRecord(r, byId[p])
  }

  ghost predicate Coherent(byId: Records) {
    forall id | id in byId :: Sound(byId, id)
  }

  lemma ContainmentIgnoresRevocation(parent: Representation, child: Representation, p: Option<Instant>, c: Option<Instant>)
    ensures Contained(parent.(revokedAt := p), child.(revokedAt := c)) <==> Contained(parent, child)
  {
  }

  /** What a record must satisfy to be added under its own id. */
  predicate Addable(byId: Records, r: Representation) {
    && r.id !in byId
    && r.holderRef != r.representativeRef && r.governedRights != [] && r.actions != []
    && Readable(r) && r.revokedAt.None?
    && match r.parentId
       case None => RootRecord(r)
       case Some(p) => p in byId && RedelegatedRecord(r, byId[p])
  }

  lemma AddingKeepsCoherent(byId: Records, r: Representation)
    requires Coherent(byId) && Addable(byId, r)
    ensures Coherent(byId[r.id := r])
  {
    var after := byId[r.id := r];
    forall k | k in after ensures Sound(after, k) {
      if k != r.id { assert Sound(byId, k); }
    }
  }

  lemma DraftIsAddable(byId: Records, g: Grant, holderRef: string, resource: (string, string), id: string)
    requires Coherent(byId) && id !in byId
    requires var parent := ParentOf(byId, g);
      && (g.basis.Redelegation? ==> parent.Some?)
      && FieldError(g, holderRef).None? && RedelegationError(parent, Draft(parent, g, holderRef, resource, id)).None?
    ensures Addable(byId, Draft(ParentOf(byId, g), g, holderRef, resource, id))
  {
    if g.basis.Redelegation? { assert Sound(byId, g.basis.parent); }
  }

  lemma GrantedIsAddable(byId: Records, delegations: Delegations, caller: Caller, g: Grant, id: string)
    requires Coherent(byId) && GrantOutcome(byId, delegations, caller, g, id).Granted?
    ensures var r := GrantOutcome(byId, delegations, caller, g, id).representation; r.id == id && Addable(byId, r)
  {
    var parent := ParentOf(byId, g);
    DraftIsAddable(byId, g, HolderOf(parent, g).value, ResourceOf(parent, g).value, id);
  }

  lemma GrantKeepsCoherent(byId: Records, delegations: Delegations, caller: Caller, g: Grant, id: string)
    requires Coherent(byId)
    ensures Coherent(Stored(byId, GrantOutcome(byId, delegations, caller, g, id)))
  {
    if GrantOutcome(byId, delegations, caller, g, id).Granted? {
      GrantedIsAddable(byId, delegations, caller, g, id);
      AddingKeepsCoherent(byId, GrantOutcome(byId, delegations, caller, g, id).representation);
    }
  }

  lemma RevokeKeepsCoherent(byId: Records, caller: Caller, tenantId: string, id: string, now: int)
    requires Coherent(byId)
    ensures Coherent(Stored(byId, RevokeOutcome(byId, caller, tenantId, id, now)))
  {
    var outcome := RevokeOutcome(byId, caller, tenantId, id, now);
    var after := Stored(byId, outcome);
    if outcome.Granted? {
      assert Sound(byId, id);
      forall k | k in after ensures Sound(after, k) {
        assert Sound(byId, k);
        var p := byId[k].parentId;
        if p.Some? {
          ContainmentIgnoresRevocation(byId[p.value], byId[k], after[p.value].revokedAt, after[k].revokedAt);
          assert after[p.value] == byId[p.value].(revokedAt := after[p.value].revokedAt);
          assert after[k] == byId[k].(revokedAt := after[k].revokedAt);
        }
      }
    }
  }

  // ---- The index by binding --------------------------------------------------------------

  function BindingKey(tenantId: string, representativeRef: string, holderRef: string, resource: (string, string)): string {
    PositionKey.Render([tenantId, representativeRef, holderRef, resource.0, resource.1])
  }

  function KeyOfRecord(r: Representation): string {
    BindingKey(r.tenantId, r.representativeRef, r.holderRef, (r.resourceKind, r.resourceId))
  }

  function Listed(byBinding: map<string, seq<string>>, key: string): seq<string> {
    if key in byBinding then byBinding[key] else []
  }

  /** Every record is listed under its own key, and nothing is listed under any other. */
  ghost predicate Indexed(byId: Records, byBinding: map<string, seq<string>>) {
    && (forall id | id in byId :: id in Listed(byBinding, KeyOfRecord(byId[id])))
    && (forall key, id | id in Listed(byBinding, key) :: id in byId && KeyOfRecord(byId[id]) == key)
  }

  predicate BindsExactly(r: Representation, tenantId: string, representativeRef: string, holderRef: string, resource: (string, string)) {
    && r.tenantId == tenantId && r.representativeRef == representativeRef && r.holderRef == holderRef
    && r.resourceKind == resource.0 && r.resourceId == resource.1
  }

  /** The rendered key admits no record of any other tenant, representative, holder or resource. */
  lemma ListedIsExactlyBound(
    byId: Records, byBinding: map<string, seq<string>>, id: string,
    tenantId: string, representativeRef: string, holderRef: string, resource: (string, string))
    requires Indexed(byId, byBinding)
    ensures id in Listed(byBinding, BindingKey(tenantId, representativeRef, holderRef, resource))
      <==> id in byId && BindsExactly(byId[id], tenantId, representativeRef, holderRef, resource)
  {
    var key := BindingKey(tenantId, representativeRef, holderRef, resource);
    if id in Listed(byBinding, key) {
      var r := byId[id];
      PositionKey.PositionKeysAreInjective(
        PositionKey.Position(r.tenantId, r.representativeRef, r.holderRef, r.resourceKind, r.resourceId),
        PositionKey.Position(tenantId, representativeRef, holderRef, resource.0, resource.1));
    }
  }

  function Entered(byBinding: map<string, seq<string>>, r: Representation): map<string, seq<string>> {
    byBinding[KeyOfRecord(r) := Listed(byBinding, KeyOfRecord(r)) + [r.id]]
  }

  lemma EnteringKeepsIndexed(byId: Records, byBinding: map<string, seq<string>>, r: Representation)
    requires Indexed(byId, byBinding) && r.id !in byId
    ensures Indexed(byId[r.id := r], Entered(byBinding, r))
  {
    var after, index := byId[r.id := r], Entered(byBinding, r);
    forall id | id in after ensures id in Listed(index, KeyOfRecord(after[id])) {
      if id == r.id {
        assert Listed(index, KeyOfRecord(r))[|Listed(byBinding, KeyOfRecord(r))|] == r.id;
      } else {
        assert id in Listed(byBinding, KeyOfRecord(byId[id]));
      }
    }
    forall key, id | id in Listed(index, key) ensures id in after && KeyOfRecord(after[id]) == key {
      if id != r.id { assert id in Listed(byBinding, key); }
    }
  }

  lemma RevokingKeepsIndexed(byId: Records, byBinding: map<string, seq<string>>, caller: Caller, tenantId: string, id: string, now: int)
    requires Coherent(byId) && Indexed(byId, byBinding)
    ensures Indexed(Stored(byId, RevokeOutcome(byId, caller, tenantId, id, now)), byBinding)
  {
    var after := Stored(byId, RevokeOutcome(byId, caller, tenantId, id, now));
    if id in byId { assert Sound(byId, id); }
    forall k ensures k in after <==> k in byId { }
    forall k | k in after ensures KeyOfRecord(after[k]) == KeyOfRecord(byId[k]) { }
  }

  // ---- The store ---------------------------------------------------------------------------

  /** The checks of a grant, in the order they are made. */
  method CheckGrant(byId: Records, delegations: Delegations, caller: Caller, input: Grant, id: string) returns (outcome: Outcome)
    ensures outcome == GrantOutcome(byId, delegations, caller, input, id)
  {
    if !BasisWellShaped(input.basis) { return Refused(BASIS_INVALID); }
    var parent := ParentOf(byId, input);
    if input.basis.Redelegation? && parent.None? { return Refused(BASIS_INVALID); }
    var notPermitted := MayGrant(caller, input.basis, parent);
    if notPermitted.Some? { return Refused(notPermitted.value); }
    var holderRef, resource := HolderOf(parent, input), ResourceOf(parent, input);
    if holderRef.None? || holderRef.value == "" { return Refused(REPRESENTATION_INVALID); }
    if resource.None? { return Refused(REPRESENTATION_INVALID); }
    var invalid := FieldError(input, holderRef.value);
    if invalid.Some? { return Refused(invalid.value); }
    if !BasisCorroborated(delegations, input.basis, input.representativeRef, holderRef.value) { return Refused(BASIS_INVALID); }
    var draft := Draft(parent, input, holderRef.value, resource.value, id);
    var wider := RedelegationError(parent, draft);
    if wider.Some? { return Refused(wider.value); }
    if id in byId { return Refused(CONFLICT); }
    return Granted(draft);
  }

  method CheckRevoke(byId: Records, caller: Caller, tenantId: string, id: string, now: int) returns (outcome: Outcome)
    ensures outcome == RevokeOutcome(byId, caller, tenantId, id, now)
  {
    var existing := ReadById(byId, tenantId, id);
    if existing.None? { return Refused(NOT_FOUND); }
    var parent := if existing.value.parentId.Some? then ReadById(byId, tenantId, existing.value.parentId.value) else None;
    if !MayRevoke(caller, parent) { return Refused(GRANT_NOT_PERMITTED); }
    if existing.value.revokedAt.Some? { return Granted(existing.value); }
    return Granted(existing.value.(revokedAt := Some(At(now))));
  }

  /** The records behind a list of ids, in the order of the list. */
  function RecordsOf(byId: Records, ids: seq<string>): seq<Representation>
    requires forall id | id in ids :: id in byId
  {
    seq(|ids|, i requires 0 <= i < |ids| => byId[ids[i]])
  }

  class InMemoryRepresentationStore {
    var byId: Records
    var byBinding: map<string, seq<string>>

    ghost predicate Valid()
      reads this
    {
      Coherent(byId) && Indexed(byId, byBinding)
    }

    constructor ()
      ensures Valid() && byId == map[] && byBinding == map[]
    {
      byId := map[];
      byBinding := map[];
    }

    method GrantRepresentativeAuthority(delegations: Delegations, caller: Caller, input: Grant, id: string) returns (outcome: Outcome)
      requires Valid()
      modifies this
      ensures Valid()
      ensures outcome == GrantOutcome(old(byId), delegations, caller, input, id)
      ensures byId == Stored(old(byId), outcome)
      ensures byBinding == if outcome.Granted? then Entered(old(byBinding), outcome.representation) else old(byBinding)
    {
      outcome := CheckGrant(byId, delegations, caller, input, id);
      GrantKeepsCoherent(byId, delegations, caller, input, id);
      if outcome.Granted? {
        GrantedIsAddable(byId, delegations, caller, input, id);
        EnteringKeepsIndexed(byId, byBinding, outcome.representation);
        byBinding := Entered(byBinding, outcome.representation);
        byId := byId[id := outcome.representation];
      }
    }

    method RevokeRepresentativeAuthority(caller: Caller, tenantId: string, id: string, now: int) returns (outcome: Outcome)
      requires Valid()
      modifies this`byId
      ensures Valid()
      ensures outcome == RevokeOutcome(old(byId), caller, tenantId, id, now)
      ensures byId == Stored(old(byId), outcome)
    {
      outcome := CheckRevoke(byId, caller, tenantId, id, now);
      RevokeKeepsCoherent(byId, caller, tenantId, id, now);
      RevokingKeepsIndexed(byId, byBinding, caller, tenantId, id, now);
      if outcome.Granted? {
        byId := byId[outcome.representation.id := outcome.representation];
      }
    }

    method ListRepresentativeAuthorities(tenantId: string, representativeRef: string, holderRef: string, resource: (string, string))
      returns (records: seq<Representation>)
      requires Valid()
      ensures forall r :: r in records <==> r.id in byId && byId[r.id] == r && BindsExactly(r, tenantId, representativeRef, holderRef, resource)
    {
      var ids := Listed(byBinding, BindingKey(tenantId, representativeRef, holderRef, resource));
      forall id ensures id in ids <==> id in byId && BindsExactly(byId[id], tenantId, representativeRef, holderRef, resource) {
        ListedIsExactlyBound(byId, byBinding, id, tenantId, representativeRef, holderRef, resource);
      }
      records := ReadAll(byId, tenantId, ids);
      RecordsAreBound(byId, ids);
    }
  }

  method ReadAll(byId: Records, tenantId: string, ids: seq<string>) returns (records: seq<Representation>)
    requires forall id | id in ids :: id in byId && byId[id].tenantId == tenantId
    ensures records == RecordsOf(byId, ids)
  {
    records := [];
    for i := 0 to |ids|
      invariant records == RecordsOf(byId, ids[..i])
    {
      assert ids[i] in ids;
      var found := ReadById(byId, tenantId, ids[i]);
      records := records + [found.value];
    }
    assert ids[..|ids|] == ids;
  }

  lemma RecordsAreBound(byId: Records, ids: seq<string>)
    requires Coherent(byId) && forall id | id in ids :: id in byId
    ensures forall r :: r in RecordsOf(byId, ids) <==> r.id in ids && byId[r.id] == r
  {
    var records := RecordsOf(byId, ids);
    forall r ensures r in records <==> r.id in ids && byId[r.id] == r {
      if r in records {
        var k :| 0 <= k < |records| && records[k] == r;
        assert Sound(byId, ids[k]);
      }
      if r.id in ids && byId[r.id] == r {
        var k :| 0 <= k < |ids| && ids[k] == r.id;
        assert records[k] == r;
      }
    }
  }
}
