/**
 Two concrete runs in which a request is resolved while the store changes, each
 reachable from the empty store, and neither answered as at any one instant.
 */
module RepresentationRaceCases {
  import opened Options
  import opened Instants
  import opened RightsScope
  import opened RepresentativeAuthority
  import opened RepresentationStore
  import opened RepresentationAdmission
  import opened RepresentationResolver
  import opened RepresentationRuns
  import opened RepresentationRaces

  const TENANT := "t"
  const HOLDER := "h"
  const REQUESTER := "r"
  const AGENT := "a"
  const RESOURCE: (string, string) := ("k", "i")
  const NOW := 0

  function Record(id: string, representativeRef: string, basis: Basis, parentId: Option<string>): Representation {
    Representation(
      id, TENANT, HOLDER, representativeRef, RESOURCE.0, RESOURCE.1, [RIGHT_TYPES[0]], Unbounded, ["x"], At(NOW), None, true,
      if parentId.Some? then 1 else 0, parentId, basis, None)
  }

  function GrantOf(r: Representation): Grant {
    Grant(r.tenantId, Some(r.holderRef), r.representativeRef, Some((r.resourceKind, r.resourceId)), r.governedRights, r.scopeLimit, r.actions,
          r.effectiveFrom, r.expiresAt, Some(r.canRedelegate), r.basis)
  }

  function Adding(delegations: Delegations, r: Representation): Operation {
    Granting(delegations, System, GrantOf(r), r.id)
  }

  function Marked(r: Representation): Representation {
    r.(revokedAt := Some(At(NOW)))
  }

  /** Someone asks, at the instant of the revocation, for what every record here covers. */
  const ASKED: Query := Query(TENANT, REQUESTER, HOLDER, RESOURCE, RIGHT_TYPES[0], None, "x", At(NOW))

  // ---- What a call leaves behind ---------------------------------------------------

  lemma RunOfOne(byId: Records, op: Operation)
    ensures Run(byId, [op]) == Apply(byId, op)
  {
    assert [op][..0] == [];
    assert Run(byId, []) == byId;
  }

  lemma GrantingAdds(byId: Records, delegations: Delegations, r: Representation)
    requires Coherent(byId) && r.id !in byId && Acceptable(byId, delegations, System, GrantOf(r), r.id, r)
    ensures Run(byId, [Adding(delegations, r)]) == byId[r.id := r]
    ensures Coherent(byId[r.id := r])
  {
    RunOfOne(byId, Adding(delegations, r));
    GrantedIff(byId, delegations, System, GrantOf(r), r.id);
    ApplyKeepsCoherent(byId, Adding(delegations, r));
  }

  lemma RevokingMarks(byId: Records, id: string)
    requires Coherent(byId) && Held(byId, TENANT, id) && byId[id].revokedAt.None?
    ensures Run(byId, [Revoking(System, TENANT, id, NOW)]) == byId[id := Marked(byId[id])]
    ensures Coherent(byId[id := Marked(byId[id])])
  {
    var op := Revoking(System, TENANT, id, NOW);
    RunOfOne(byId, op);
    assert Sound(byId, id);
    RevokedIff(byId, System, TENANT, id, NOW);
    assert Withdrawn(byId[id], Marked(byId[id]), NOW);
    ApplyKeepsCoherent(byId, op);
  }

  lemma RootIsAcceptable(byId: Records, delegations: Delegations, id: string, representativeRef: string, basis: Basis)
    requires !basis.Redelegation? && BasisWellShaped(basis)
    requires representativeRef != HOLDER && BasisCorroborated(delegations, basis, representativeRef, HOLDER)
    ensures var r := Record(id, representativeRef, basis, None); Acceptable(byId, delegations, System, GrantOf(r), id, r)
  {
  }

  /** A record of its own is represented through exactly as long as it stands: not revoked, and its delegation live. */
  lemma RootWarrants(byId: Records, delegations: Delegations, id: string, basis: Basis)
    requires Rooted(byId) && id in byId && byId[id] == Record(id, REQUESTER, basis, None)
    ensures Warranted(byId, delegations, ASKED, id) <==> LinkCorroborated(delegations, byId[id])
  {
    assert RootedAt(byId, id);
    assert Ancestry(byId, id) == [byId[id]];
  }

  lemma MarkedWarrantsNothing(byId: Records, delegations: Delegations, id: string)
    requires Rooted(byId) && id in byId && byId[id].revokedAt == Some(At(NOW))
    ensures !Warranted(byId, delegations, ASKED, id)
  {
    assert Ancestry(byId, id)[0] == byId[id];
  }

  // ---- A delegation that comes to stand too late -----------------------------------------

  const DELEGATED: Representation := Record("g", REQUESTER, GraphDelegation("s", "d", "z"), None)

  const STANDING: Delegations := Some(map["d" := DelegationRecord(true, "z", REQUESTER, HOLDER)])

  const SUSPENDED: Delegations := Some(map[])

  const DELEGATED_WORLD: Records := map["g" := DELEGATED]

  const WITHDRAWN_WORLD: Records := map["g" := Marked(DELEGATED)]

  /** Listed while its delegation is suspended, then withdrawn; the delegation is back when it is read. */
  const LATE_DELEGATION: Timeline :=
    Timeline(n => if n == 0 then DELEGATED_WORLD else WITHDRAWN_WORLD, n => if n == 0 then SUSPENDED else STANDING)

  lemma LateDelegationRuns()
    ensures DELEGATED_WORLD == Run(map[], [Adding(STANDING, DELEGATED)]) && WITHDRAWN_WORLD == Run(DELEGATED_WORLD, [Revoking(System, TENANT, "g", NOW)])
    ensures Coherent(DELEGATED_WORLD) && Coherent(WITHDRAWN_WORLD)
  {
    RootIsAcceptable(map[], STANDING, "g", REQUESTER, DELEGATED.basis);
    GrantingAdds(map[], STANDING, DELEGATED);
    RevokingMarks(DELEGATED_WORLD, "g");
  }

  lemma LateDelegationIsLawful()
    ensures Lawful(LATE_DELEGATION) && Rooted(DELEGATED_WORLD) && Rooted(WITHDRAWN_WORLD)
  {
    LateDelegationRuns();
    CoherentIsRooted(DELEGATED_WORLD);
    CoherentIsRooted(WITHDRAWN_WORLD);
    var t := LATE_DELEGATION;
    forall n: nat ensures Follows(t, n) {
      if n == 0 {
        assert t.worlds(n + 1) == Run(t.worlds(n), [Revoking(System, TENANT, "g", NOW)]);
      } else {
        assert t.worlds(n + 1) == Run(t.worlds(n), []);
      }
    }
  }

  lemma LateDelegationWarrantsNever(k: nat)
    ensures !WarrantedAt(LATE_DELEGATION, ASKED, k)
  {
    LateDelegationIsLawful();
    forall id | id in LATE_DELEGATION.worlds(k) ensures !Warranted(LATE_DELEGATION.worlds(k), LATE_DELEGATION.lookups(k), ASKED, id) {
      if k == 0 {
        RootWarrants(DELEGATED_WORLD, SUSPENDED, id, DELEGATED.basis);
      } else {
        MarkedWarrantsNothing(WITHDRAWN_WORLD, STANDING, id);
      }
    }
  }

  /**
   A delegation that comes to stand after the listing lets through a request that
   the store would have refused at every single instant.
   */
  lemma LateDelegationRepresents()
    ensures LATE_DELEGATION.worlds(0) == Run(map[], [Adding(STANDING, DELEGATED)])
    ensures Lawful(LATE_DELEGATION) && Candidates(LATE_DELEGATION, ASKED, [DELEGATED])
    ensures Best(RacedAssessments(LATE_DELEGATION, ASKED, [DELEGATED])).Represented?
    ensures forall k: nat :: !WarrantedAt(LATE_DELEGATION, ASKED, k)
    ensures NothingNewIsBound(LATE_DELEGATION, ASKED, FirstRead(1)) && !OnlyLapse(LATE_DELEGATION)
  {
    var t := LATE_DELEGATION;
    LateDelegationRuns();
    LateDelegationIsLawful();
    forall k: nat ensures !WarrantedAt(t, ASKED, k) { LateDelegationWarrantsNever(k); }
    RacedRepresentsIff(t, 0, ASKED, "g", ["g"], FirstRead(0));
    AllLiveAtTheRoot(t, DELEGATED, ASKED.at, FirstRead(0));
    assert RacedAssess(t, ASKED, [DELEGATED][0], FirstRead(0)).Represented?;
    BestIsSomeRaced(t, ASKED, [DELEGATED]);
    assert LinkCorroborated(t.lookups(1), DELEGATED) && !LinkCorroborated(t.lookups(0), DELEGATED);
    assert !Lapses(t.lookups(0), t.lookups(1));
  }

  // ---- A grant that is made too late to be listed -------------------------------------------

  const PARENT: Representation := Record("p", AGENT, AdministrativeBootstrap("s"), None)

  const CHILD: Representation := Record("x", REQUESTER, Redelegation("s", "p"), Some("p"))

  const OTHER: Representation := Record("y", REQUESTER, AdministrativeBootstrap("s"), None)

  const LISTED_WORLD: Records := map["p" := PARENT, "x" := CHILD]

  const GRANTED_WORLD: Records := map["p" := PARENT, "x" := CHILD, "y" := OTHER]

  const REVOKED_WORLD: Records := map["p" := Marked(PARENT), "x" := CHILD, "y" := OTHER]

  /** Another representation is granted once the only candidate is listed, and the candidate's parent is withdrawn before it is read. */
  const LATE_GRANT: Timeline :=
    Timeline(n => if n == 0 then LISTED_WORLD else if n == 1 then GRANTED_WORLD else REVOKED_WORLD, n => None)

  lemma NamesDiffer()
    ensures "p" != "x" && "p" != "y" && "x" != "y"
  {
    assert "p"[0] != "x"[0] && "p"[0] != "y"[0] && "x"[0] != "y"[0];
  }

  lemma WorldsHold()
    ensures "p" in LISTED_WORLD && LISTED_WORLD["p"] == PARENT && "x" in LISTED_WORLD && LISTED_WORLD["x"] == CHILD
    ensures "p" in GRANTED_WORLD && GRANTED_WORLD["p"] == PARENT && "x" in GRANTED_WORLD && GRANTED_WORLD["x"] == CHILD
    ensures "y" in GRANTED_WORLD && GRANTED_WORLD["y"] == OTHER
    ensures "p" in REVOKED_WORLD && REVOKED_WORLD["p"] == Marked(PARENT) && "x" in REVOKED_WORLD && REVOKED_WORLD["x"] == CHILD
    ensures "y" in REVOKED_WORLD && REVOKED_WORLD["y"] == OTHER
    ensures "y" !in LISTED_WORLD && LISTED_WORLD.Keys == {"p", "x"}
  {
    NamesDiffer();
  }

  lemma RevokingTheParent()
    ensures GRANTED_WORLD["p" := Marked(PARENT)] == REVOKED_WORLD
  {
    NamesDiffer();
    var after := GRANTED_WORLD["p" := Marked(PARENT)];
    assert after.Keys == REVOKED_WORLD.Keys;
  }

  lemma ChildIsAcceptable(byId: Records)
    requires "p" in byId && byId["p"] == PARENT
    ensures Acceptable(byId, None, System, GrantOf(CHILD), "x", CHILD)
  {
  }

  lemma ListedWorldIsReached()
    ensures Run(Run(map[], [Adding(None, PARENT)]), [Adding(None, CHILD)]) == LISTED_WORLD && Coherent(LISTED_WORLD)
  {
    var parentOnly: Records := map["p" := PARENT];
    NamesDiffer();
    RootIsAcceptable(map[], None, "p", AGENT, PARENT.basis);
    GrantingAdds(map[], None, PARENT);
    assert map[]["p" := PARENT] == parentOnly;
    ChildIsAcceptable(parentOnly);
    GrantingAdds(parentOnly, None, CHILD);
    assert parentOnly["x" := CHILD] == LISTED_WORLD;
  }

  lemma GrantedWorldIsReached()
    ensures Run(LISTED_WORLD, [Adding(None, OTHER)]) == GRANTED_WORLD && Coherent(GRANTED_WORLD)
  {
    ListedWorldIsReached();
    WorldsHold();
    RootIsAcceptable(LISTED_WORLD, None, "y", REQUESTER, OTHER.basis);
    GrantingAdds(LISTED_WORLD, None, OTHER);
    assert LISTED_WORLD["y" := OTHER] == GRANTED_WORLD;
  }

  lemma RevokedWorldIsReached()
    ensures Run(GRANTED_WORLD, [Revoking(System, TENANT, "p", NOW)]) == REVOKED_WORLD && Coherent(REVOKED_WORLD)
  {
    GrantedWorldIsReached();
    WorldsHold();
    RevokingMarks(GRANTED_WORLD, "p");
    RevokingTheParent();
  }

  lemma LateGrantFollows(n: nat)
    ensures Follows(LATE_GRANT, n)
  {
    var t := LATE_GRANT;
    if n == 0 {
      GrantedWorldIsReached();
      assert t.worlds(n + 1) == Run(t.worlds(n), [Adding(None, OTHER)]);
    } else if n == 1 {
      RevokedWorldIsReached();
      assert t.worlds(n + 1) == Run(t.worlds(n), [Revoking(System, TENANT, "p", NOW)]);
    } else {
      assert t.worlds(n + 1) == Run(t.worlds(n), []);
    }
  }

  lemma LateGrantIsLawful()
    ensures Lawful(LATE_GRANT) && OnlyLapse(LATE_GRANT)
  {
    ListedWorldIsReached();
    forall n: nat ensures Follows(LATE_GRANT, n) { LateGrantFollows(n); }
  }

  lemma ChildWarrants(byId: Records, delegations: Delegations)
    requires Rooted(byId) && "p" in byId && byId["p"] == PARENT && "x" in byId && byId["x"] == CHILD
    ensures Warranted(byId, delegations, ASKED, "x")
  {
    assert RootedAt(byId, "x") && RootedAt(byId, "p");
    assert Ancestry(byId, "p") == [PARENT];
    assert Ancestry(byId, "x") == [CHILD, PARENT];
  }

  lemma LateGrantWarrantsAlways(k: nat)
    ensures WarrantedAt(LATE_GRANT, ASKED, k)
  {
    LateGrantIsLawful();
    WorldIsCoherent(LATE_GRANT, k);
    WorldsHold();
    var world := LATE_GRANT.worlds(k);
    if k == 0 {
      ChildWarrants(world, None);
      assert Warranted(world, LATE_GRANT.lookups(k), ASKED, "x");
    } else {
      RootWarrants(world, None, "y", OTHER.basis);
      assert Warranted(world, LATE_GRANT.lookups(k), ASKED, "y");
    }
  }

  lemma OnlyTheChildIsListed()
    ensures Candidates(LATE_GRANT, ASKED, [CHILD])
  {
    WorldsHold();
    assert AGENT[0] != REQUESTER[0];
  }

  lemma LateGrantRefuses()
    ensures !Best(RacedAssessments(LATE_GRANT, ASKED, [CHILD])).Represented?
  {
    var t := LATE_GRANT;
    LateGrantIsLawful();
    WorldsHold();
    assert UpToRoot(LISTED_WORLD, "p", ["p"]);
    assert ["x", "p"][1..] == ["p"];
    WithdrawnBeforeItsRead(t, 0, ASKED, "x", ["x", "p"], FirstRead(0), 1, 2);
    BestIsSomeRaced(t, ASKED, [CHILD]);
  }

  /**
   A representation granted after the listing is not seen, and so a request is
   refused that the store would have granted at every single instant.
   */
  lemma LateGrantIsMissed()
    ensures LATE_GRANT.worlds(0) == Run(Run(map[], [Adding(None, PARENT)]), [Adding(None, CHILD)])
    ensures Lawful(LATE_GRANT) && OnlyLapse(LATE_GRANT) && Candidates(LATE_GRANT, ASKED, [CHILD])
    ensures !Best(RacedAssessments(LATE_GRANT, ASKED, [CHILD])).Represented?
    ensures forall k: nat :: WarrantedAt(LATE_GRANT, ASKED, k)
  {
    ListedWorldIsReached();
    LateGrantIsLawful();
    OnlyTheChildIsListed();
    LateGrantRefuses();
    forall k: nat ensures WarrantedAt(LATE_GRANT, ASKED, k) { LateGrantWarrantsAlways(k); }
  }
}
