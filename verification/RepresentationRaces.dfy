/**
 A request resolved while the store and the delegation graph go on changing. The
 candidates are listed at one instant; then every delegation and every parent is
 read at an instant of its own, and any calls may complete in between.
 */
module RepresentationRaces {
  import opened Options
  import opened Instants
  import opened RepresentativeAuthority
  import opened RepresentationStore
  import opened RepresentationResolver
  import opened RepresentationRuns

  /** The store and the delegation graph as each read finds them. */
  datatype Timeline = Timeline(worlds: nat -> Records, lookups: nat -> Delegations)

  /** Between one read and the next any calls may complete. */
  ghost predicate Follows(t: Timeline, n: nat) {
    exists calls :: t.worlds(n + 1) == Run(t.worlds(n), calls)
  }

  ghost predicate Lawful(t: Timeline) {
    Coherent(t.worlds(0)) && forall n: nat :: Follows(t, n)
  }

  /** The walk whose first read, of a delegation, is the `n`-th of all. */
  function WalkFrom(t: Timeline, tenantId: string, current: Representation, at: Instant, hops: nat, n: nat): Walked
    decreases hops
  {
    if hops == 0 then Fails(ParentRevoked)
    else if !LinkCorroborated(t.lookups(n), current) then Fails(DelegationNotLive)
    else if current.parentId.None? then Holds([current.id])
    else
      var parent := ReadById(t.worlds(n + 1), tenantId, current.parentId.value);
      if !LiveParent(parent, at) then Fails(ParentRevoked)
      else Prefixed([current.id], WalkFrom(t, tenantId, parent.value, at, hops - 1, n + 2))
  }

  /** The read with which the walk of the `i`-th candidate begins. The listing is read 0. */
  function FirstRead(i: nat): nat {
    1 + 2 * MAX_CHAIN_HOPS * i
  }

  function RacedAssess(t: Timeline, q: Query, candidate: Representation, n: nat): Coverage {
    Verdict(q, candidate, WalkFrom(t, q.tenantId, candidate, q.at, MAX_CHAIN_HOPS, n))
  }

  function RacedAssessments(t: Timeline, q: Query, candidates: seq<Representation>): seq<Coverage> {
    seq(|candidates|, i requires 0 <= i < |candidates| => RacedAssess(t, q, candidates[i], FirstRead(i)))
  }

  // ---- What time does to a record -----------------------------------------------------

  lemma {:induction false} WorldIsCoherent(t: Timeline, n: nat)
    requires Lawful(t)
    ensures Coherent(t.worlds(n)) && Rooted(t.worlds(n))
  {
    if n == 0 {
      CoherentIsRooted(t.worlds(0));
    } else {
      WorldIsCoherent(t, n - 1);
      assert Follows(t, n - 1);
      var calls :| t.worlds(n) == Run(t.worlds(n - 1), calls);
      RunKeepsCoherent(t.worlds(n - 1), calls);
    }
  }

  lemma EvolvesOnward(first: Records, second: Records, third: Records)
    requires Evolves(first, second) && Evolves(second, third)
    ensures Evolves(first, third)
  {
    forall id | id in first ensures id in third && RecordEvolves(first[id], third[id]) {
      assert RecordEvolves(first[id], second[id]) && RecordEvolves(second[id], third[id]);
    }
  }

  lemma {:induction false} WorldEvolves(t: Timeline, m: nat, n: nat)
    requires Lawful(t) && m <= n
    ensures Evolves(t.worlds(m), t.worlds(n))
    decreases n - m
  {
    if m < n {
      WorldEvolves(t, m, n - 1);
      WorldIsCoherent(t, n - 1);
      assert Follows(t, n - 1);
      var calls :| t.worlds(n) == Run(t.worlds(n - 1), calls);
      RunEvolves(t.worlds(n - 1), calls);
      EvolvesOnward(t.worlds(m), t.worlds(n - 1), t.worlds(n));
    }
  }

  /** A record that is active later was active all along; one revoked by an instant stays so. */
  lemma RevocationIsForGood(before: Representation, after: Representation, at: Instant)
    requires RecordEvolves(before, after)
    ensures StateAt(after, at) == Active ==> StateAt(before, at) == Active
    ensures RevokedAt(before, at) ==> RevokedAt(after, at)
  {
  }

  /** The ids from a record up to its root. */
  predicate UpToRoot(byId: Records, id: string, ids: seq<string>)
    decreases |ids|
  {
    && ids != [] && ids[0] == id && id in byId
    && match byId[id].parentId
       case None => |ids| == 1
       case Some(p) => UpToRoot(byId, p, ids[1..])
  }

  lemma {:induction false} AncestryIsUpToRoot(byId: Records, id: string)
    requires Rooted(byId) && id in byId
    ensures UpToRoot(byId, id, IdsOf(Ancestry(byId, id)))
    decreases byId[id].delegationDepth
  {
    assert RootedAt(byId, id);
    if byId[id].parentId.Some? {
      var p := byId[id].parentId.value;
      AncestryIsUpToRoot(byId, p);
      assert IdsOf(Ancestry(byId, id))[1..] == IdsOf(Ancestry(byId, p));
    }
  }

  lemma {:induction false} UpToRootStays(before: Records, after: Records, id: string, ids: seq<string>)
    requires Evolves(before, after) && UpToRoot(before, id, ids)
    ensures UpToRoot(after, id, ids)
    decreases |ids|
  {
    assert RecordEvolves(before[id], after[id]);
    if before[id].parentId.Some? { UpToRootStays(before, after, before[id].parentId.value, ids[1..]); }
  }

  // ---- The raced walk, link by link ----------------------------------------------------

  /** The read of the `i`-th record of a chain whose walk begins with read `n`. */
  function ReadOf(n: nat, i: nat): nat
    requires i > 0
  {
    n + 2 * i - 1
  }

  /** The link was live when it was read: its delegation then, and, above the candidate, its own state just before. */
  predicate LiveAtItsRead(t: Timeline, candidate: Representation, ids: seq<string>, at: Instant, n: nat, i: nat)
    requires i < |ids|
  {
    if i == 0 then LinkCorroborated(t.lookups(n), candidate)
    else
      && ids[i] in t.worlds(ReadOf(n, i))
      && var read := t.worlds(ReadOf(n, i))[ids[i]];
         StateAt(read, at) == Active && LinkCorroborated(t.lookups(n + 2 * i), read)
  }

  predicate AllLive(t: Timeline, candidate: Representation, ids: seq<string>, at: Instant, n: nat) {
    forall i: nat | i < |ids| :: LiveAtItsRead(t, candidate, ids, at, n, i)
  }

  lemma LiveOneHopOn(t: Timeline, candidate: Representation, rest: seq<string>, at: Instant, n: nat, i: nat)
    requires 1 <= i <= |rest| && rest[0] in t.worlds(n + 1)
    ensures var parent := t.worlds(n + 1)[rest[0]];
      LiveAtItsRead(t, candidate, [candidate.id] + rest, at, n, i) <==>
        (i == 1 ==> StateAt(parent, at) == Active) && LiveAtItsRead(t, parent, rest, at, n + 2, i - 1)
  {
    assert ReadOf(n, i) == if i == 1 then n + 1 else ReadOf(n + 2, i - 1);
  }

  lemma AllLiveSteps(t: Timeline, candidate: Representation, rest: seq<string>, at: Instant, n: nat)
    requires rest != [] && rest[0] in t.worlds(n + 1)
    ensures var parent := t.worlds(n + 1)[rest[0]];
      AllLive(t, candidate, [candidate.id] + rest, at, n) <==>
        LinkCorroborated(t.lookups(n), candidate) && StateAt(parent, at) == Active && AllLive(t, parent, rest, at, n + 2)
  {
    var ids, parent, next := [candidate.id] + rest, t.worlds(n + 1)[rest[0]], n + 2;
    if AllLive(t, candidate, ids, at, n) {
      assert LiveAtItsRead(t, candidate, ids, at, n, 0) && LiveAtItsRead(t, candidate, ids, at, n, 1);
      LiveOneHopOn(t, candidate, rest, at, n, 1);
      forall i: nat | i < |rest| ensures LiveAtItsRead(t, parent, rest, at, next, i) {
        assert LiveAtItsRead(t, candidate, ids, at, n, i + 1);
        LiveOneHopOn(t, candidate, rest, at, n, i + 1);
      }
    }
    if LinkCorroborated(t.lookups(n), candidate) && StateAt(parent, at) == Active && AllLive(t, parent, rest, at, n + 2) {
      forall i: nat | i < |ids| ensures LiveAtItsRead(t, candidate, ids, at, n, i) {
        if i > 0 {
          assert LiveAtItsRead(t, parent, rest, at, n + 2, i - 1);
          LiveOneHopOn(t, candidate, rest, at, n, i);
        }
      }
    }
  }

  lemma AllLiveAtTheRoot(t: Timeline, candidate: Representation, at: Instant, n: nat)
    ensures AllLive(t, candidate, [candidate.id], at, n) <==> LinkCorroborated(t.lookups(n), candidate)
  {
    assert LiveAtItsRead(t, candidate, [candidate.id], at, n, 0) <==> LinkCorroborated(t.lookups(n), candidate);
  }

  /** The walk reads this parent above `current`, as a record that was never fit to redelegate is not stored as one. */
  predicate ReadsAbove(world: Records, current: Representation, parent: Representation) {
    && current.parentId.Some? && ReadById(world, current.tenantId, current.parentId.value) == Some(parent)
    && parent.canRedelegate
  }

  lemma ParentIsRead(before: Records, after: Records, id: string, ids: seq<string>)
    requires Rooted(before) && Evolves(before, after) && UpToRoot(before, id, ids) && before[id].parentId.Some?
    ensures var p := before[id].parentId.value;
      && before[id].id == id && p in after && ReadsAbove(after, before[id], after[p]) && UpToRoot(after, p, ids[1..])
  {
    var p := before[id].parentId.value;
    assert RootedAt(before, id) && RecordEvolves(before[p], after[p]);
    UpToRootStays(before, after, p, ids[1..]);
  }

  /** What is claimed of a walk: it succeeds exactly when the chain is within its bound and each link was live at its own read. */
  predicate HoldsAsRead(t: Timeline, r: Representation, ids: seq<string>, at: Instant, hops: nat, n: nat) {
    var walked := WalkFrom(t, r.tenantId, r, at, hops, n);
    && (walked.Holds? <==> |ids| <= hops && AllLive(t, r, ids, at, n))
    && (walked.Holds? ==> walked.chain == ids)
  }

  lemma HopHoldsAsRead(t: Timeline, r: Representation, parent: Representation, rest: seq<string>, at: Instant, hops: nat, n: nat)
    requires hops > 0 && ReadsAbove(t.worlds(n + 1), r, parent)
    requires rest != [] && Some(rest[0]) == r.parentId
    requires HoldsAsRead(t, parent, rest, at, hops - 1, n + 2)
    ensures HoldsAsRead(t, r, [r.id] + rest, at, hops, n)
  {
    AllLiveSteps(t, r, rest, at, n);
  }

  lemma RootHoldsAsRead(t: Timeline, r: Representation, at: Instant, hops: nat, n: nat)
    requires r.parentId.None?
    ensures HoldsAsRead(t, r, [r.id], at, hops, n)
  {
    AllLiveAtTheRoot(t, r, at, n);
  }

  lemma NoHopsHoldNothing(t: Timeline, r: Representation, ids: seq<string>, at: Instant, n: nat)
    requires ids != []
    ensures HoldsAsRead(t, r, ids, at, 0, n)
  {
  }

  /** The record the walk reads next, and what is left of the chain. */
  lemma NextRead(t: Timeline, m: nat, id: string, ids: seq<string>, n: nat)
    requires Lawful(t) && m <= n && UpToRoot(t.worlds(m), id, ids) && t.worlds(m)[id].parentId.Some?
    ensures var r, p := t.worlds(m)[id], t.worlds(m)[id].parentId.value;
      && r.id == id && p in t.worlds(n + 1)
      && ReadsAbove(t.worlds(n + 1), r, t.worlds(n + 1)[p]) && UpToRoot(t.worlds(n + 1), p, ids[1..])
  {
    WorldIsCoherent(t, m);
    WorldEvolves(t, m, n + 1);
    ParentIsRead(t.worlds(m), t.worlds(n + 1), id, ids);
  }

  lemma NamedAsStored(t: Timeline, m: nat, id: string)
    requires Lawful(t) && id in t.worlds(m)
    ensures t.worlds(m)[id].id == id
  {
    WorldIsCoherent(t, m);
    assert RootedAt(t.worlds(m), id);
  }

  /** Whatever completes meanwhile, the walk is decided link by link, each by what was so when it was read. */
  lemma {:induction false} RacedWalkHoldsIff(t: Timeline, m: nat, id: string, ids: seq<string>, at: Instant, hops: nat, n: nat)
    requires Lawful(t) && m <= n && UpToRoot(t.worlds(m), id, ids)
    ensures HoldsAsRead(t, t.worlds(m)[id], ids, at, hops, n)
    decreases hops
  {
    var r := t.worlds(m)[id];
    if hops == 0 {
      NoHopsHoldNothing(t, r, ids, at, n);
    } else if r.parentId.None? {
      NamedAsStored(t, m, id);
      assert ids == [r.id];
      RootHoldsAsRead(t, r, at, hops, n);
    } else {
      NextRead(t, m, id, ids, n);
      RacedWalkHoldsIff(t, n + 1, r.parentId.value, ids[1..], at, hops - 1, n + 2);
      assert ids == [r.id] + ids[1..];
      HopHoldsAsRead(t, r, t.worlds(n + 1)[r.parentId.value], ids[1..], at, hops, n);
    }
  }

  // ---- One candidate --------------------------------------------------------------------

  /** Whatever completes meanwhile, a candidate represents a request exactly when it covered it and was active when listed, and each link was live at its own read. */
  lemma RacedRepresentsIff(t: Timeline, m: nat, q: Query, id: string, ids: seq<string>, n: nat)
    requires Lawful(t) && m <= n && UpToRoot(t.worlds(m), id, ids) && t.worlds(m)[id].tenantId == q.tenantId
    ensures var r := t.worlds(m)[id];
      RacedAssess(t, q, r, n).Represented? <==>
        && Covers(r, q.governedRight, q.action, q.requestedScope)
        && StateAt(r, q.at) == Active
        && |ids| <= MAX_CHAIN_HOPS && AllLive(t, r, ids, q.at, n)
  {
    RacedWalkHoldsIff(t, m, id, ids, q.at, MAX_CHAIN_HOPS, n);
    VerdictMeans(q, t.worlds(m)[id], WalkFrom(t, q.tenantId, t.worlds(m)[id], q.at, MAX_CHAIN_HOPS, n));
  }

  /** The read at which the `i`-th link of a chain is seen: the listing for the candidate, its own read for an ancestor. */
  function SeenAt(m: nat, n: nat, i: nat): nat {
    if i == 0 then m else ReadOf(n, i)
  }

  /** A link revoked by the time it is read fails the request, however the rest of the walk goes. */
  lemma WithdrawnBeforeItsRead(t: Timeline, m: nat, q: Query, id: string, ids: seq<string>, n: nat, i: nat, k: nat)
    requires Lawful(t) && m <= n && UpToRoot(t.worlds(m), id, ids) && t.worlds(m)[id].tenantId == q.tenantId
    requires i < |ids| && k <= SeenAt(m, n, i) && ids[i] in t.worlds(k) && RevokedAt(t.worlds(k)[ids[i]], q.at)
    ensures !RacedAssess(t, q, t.worlds(m)[id], n).Represented?
  {
    RacedRepresentsIff(t, m, q, id, ids, n);
    WorldEvolves(t, k, SeenAt(m, n, i));
    RevocationIsForGood(t.worlds(k)[ids[i]], t.worlds(SeenAt(m, n, i))[ids[i]], q.at);
    if AllLive(t, t.worlds(m)[id], ids, q.at, n) { assert LiveAtItsRead(t, t.worlds(m)[id], ids, q.at, n, i); }
  }

  /**
   A withdrawal completed before the resolution began refuses it: no record below
   what was withdrawn represents anything from then on, whatever happens meanwhile.
   */
  lemma WithdrawnBeforehand(
    t: Timeline, first: Records, revoke: Operation, calls: seq<Operation>, q: Query, id: string, ids: seq<string>, n: nat)
    requires Coherent(first) && revoke.Revoking? && OutcomeOf(first, revoke).Granted?
    requires Lawful(t) && t.worlds(0) == Run(Apply(first, revoke), calls)
    requires UpToRoot(t.worlds(0), id, ids) && t.worlds(0)[id].tenantId == q.tenantId && revoke.id in ids
    requires OutcomeOf(first, revoke).representation.revokedAt.Some?
      ==> GreaterOrEqual(q.at, OutcomeOf(first, revoke).representation.revokedAt.value)
    ensures !RacedAssess(t, q, t.worlds(0)[id], n).Represented?
  {
    WithdrawnIsRecorded(first, revoke);
    WithdrawalStands(first, revoke, calls);
    var i :| 0 <= i < |ids| && ids[i] == revoke.id;
    WithdrawnBeforeItsRead(t, 0, q, id, ids, n, i, 0);
  }

  // ---- Between the beginning and the end ---------------------------------------------------

  /** Nothing changes. */
  function Still(byId: Records, delegations: Delegations): Timeline {
    Timeline(n => byId, n => delegations)
  }

  lemma StillIsLawful(byId: Records, delegations: Delegations)
    requires Coherent(byId)
    ensures Lawful(Still(byId, delegations))
  {
    var t := Still(byId, delegations);
    forall n: nat ensures Follows(t, n) { assert t.worlds(n + 1) == Run(t.worlds(n), []); }
  }

  /** While nothing changes, the raced walk is the walk over one snapshot. */
  lemma {:induction false} StillWalk(
    byId: Records, delegations: Delegations, tenantId: string, current: Representation, at: Instant, hops: nat, n: nat)
    ensures WalkFrom(Still(byId, delegations), tenantId, current, at, hops, n) == Walk(byId, delegations, tenantId, current, at, hops)
    decreases hops
  {
    if hops > 0 && current.parentId.Some? {
      var parent := ReadById(byId, tenantId, current.parentId.value);
      if parent.Some? { StillWalk(byId, delegations, tenantId, parent.value, at, hops - 1, n + 2); }
    }
  }

  /** Whatever is corroborated later was corroborated before. */
  ghost predicate Lapses(before: Delegations, after: Delegations) {
    forall r | LinkCorroborated(after, r) :: LinkCorroborated(before, r)
  }

  /** Delegations may be withdrawn at any read, and none comes to stand. */
  ghost predicate OnlyLapse(t: Timeline) {
    forall k: nat, l: nat | k <= l :: Lapses(t.lookups(k), t.lookups(l))
  }

  /** One timeline is behind another up to `end`: its delegations and its records are still to become those of the other. */
  ghost predicate Behind(t: Timeline, u: Timeline, end: nat) {
    forall k: nat | k <= end :: Lapses(t.lookups(k), u.lookups(k)) && Evolves(t.worlds(k), u.worlds(k))
  }

  lemma LiveBehind(t: Timeline, u: Timeline, r: Representation, s: Representation, ids: seq<string>, at: Instant, n: nat, i: nat)
    requires Behind(t, u, n + 2 * i) && RecordEvolves(r, s) && i < |ids|
    requires i > 0 ==> ids[i] in t.worlds(ReadOf(n, i))
    requires LiveAtItsRead(u, s, ids, at, n, i)
    ensures LiveAtItsRead(t, r, ids, at, n, i)
  {
    assert Lapses(t.lookups(n), u.lookups(n)) && Lapses(t.lookups(n + 2 * i), u.lookups(n + 2 * i));
    if i > 0 {
      var k := ReadOf(n, i);
      assert Evolves(t.worlds(k), u.worlds(k));
      RevocationIsForGood(t.worlds(k)[ids[i]], u.worlds(k)[ids[i]], at);
    }
  }

  lemma {:induction false} ChainIsStored(byId: Records, id: string, ids: seq<string>, i: nat)
    requires UpToRoot(byId, id, ids) && i < |ids|
    ensures ids[i] in byId
    decreases i
  {
    if i > 0 { ChainIsStored(byId, byId[id].parentId.value, ids[1..], i - 1); }
  }

  /** Every link of the chain is stored whenever it is read. */
  lemma ChainIsReadable(t: Timeline, id: string, ids: seq<string>, k: nat, i: nat)
    requires Lawful(t) && UpToRoot(t.worlds(0), id, ids) && i < |ids|
    ensures ids[i] in t.worlds(k)
  {
    ChainIsStored(t.worlds(0), id, ids, i);
    WorldEvolves(t, 0, k);
  }

  lemma BehindUpTo(t: Timeline, u: Timeline, end: nat, sooner: nat)
    requires Behind(t, u, end) && sooner <= end
    ensures Behind(t, u, sooner)
  {
  }

  lemma LinkBehind(t: Timeline, u: Timeline, id: string, s: Representation, ids: seq<string>, at: Instant, n: nat, i: nat)
    requires Lawful(t) && UpToRoot(t.worlds(0), id, ids) && RecordEvolves(t.worlds(0)[id], s)
    requires i < |ids| && Behind(t, u, n + 2 * |ids|) && LiveAtItsRead(u, s, ids, at, n, i)
    ensures LiveAtItsRead(t, t.worlds(0)[id], ids, at, n, i)
  {
    if i > 0 { ChainIsReadable(t, id, ids, ReadOf(n, i), i); }
    BehindUpTo(t, u, n + 2 * |ids|, n + 2 * i);
    LiveBehind(t, u, t.worlds(0)[id], s, ids, at, n, i);
  }

  lemma AllLiveBehind(t: Timeline, u: Timeline, id: string, s: Representation, ids: seq<string>, at: Instant, n: nat)
    requires Lawful(t) && Behind(t, u, n + 2 * |ids|) && UpToRoot(t.worlds(0), id, ids) && RecordEvolves(t.worlds(0)[id], s)
    requires AllLive(u, s, ids, at, n)
    ensures AllLive(t, t.worlds(0)[id], ids, at, n)
  {
    forall i: nat | i < |ids| ensures LiveAtItsRead(t, t.worlds(0)[id], ids, at, n, i) {
      LinkBehind(t, u, id, s, ids, at, n, i);
    }
  }

  /** What is represented further on was represented behind. */
  lemma RepresentedBehind(t: Timeline, u: Timeline, q: Query, id: string, ids: seq<string>, n: nat)
    requires Lawful(t) && Lawful(u) && Behind(t, u, n + 2 * MAX_CHAIN_HOPS)
    requires UpToRoot(t.worlds(0), id, ids) && id in u.worlds(0) && UpToRoot(u.worlds(0), id, ids)
    requires t.worlds(0)[id].tenantId == q.tenantId && RecordEvolves(t.worlds(0)[id], u.worlds(0)[id])
    requires RacedAssess(u, q, u.worlds(0)[id], n).Represented?
    ensures RacedAssess(t, q, t.worlds(0)[id], n).Represented?
  {
    var r, s := t.worlds(0)[id], u.worlds(0)[id];
    RacedRepresentsIff(u, 0, q, id, ids, n);
    RevocationIsForGood(r, s, q.at);
    BehindUpTo(t, u, n + 2 * MAX_CHAIN_HOPS, n + 2 * |ids|);
    AllLiveBehind(t, u, id, s, ids, q.at, n);
    RacedRepresentsIff(t, 0, q, id, ids, n);
  }

  /** The chain of a record as first listed. It never changes. */
  ghost function Chain(t: Timeline, id: string): (ids: seq<string>)
    requires Lawful(t) && id in t.worlds(0)
    ensures UpToRoot(t.worlds(0), id, ids)
  {
    WorldIsCoherent(t, 0);
    AncestryIsUpToRoot(t.worlds(0), id);
    IdsOf(Ancestry(t.worlds(0), id))
  }

  lemma StillRepresents(byId: Records, delegations: Delegations, q: Query, r: Representation, n: nat)
    ensures RacedAssess(Still(byId, delegations), q, r, n) == Assess(byId, delegations, q, r)
  {
    StillWalk(byId, delegations, q.tenantId, r, q.at, MAX_CHAIN_HOPS, n);
  }

  /** What a raced walk finds represented, the store as it was when the candidate was listed represents too. */
  lemma RacedIsNoMoreThanTheBeginning(t: Timeline, q: Query, id: string, n: nat)
    requires Lawful(t) && OnlyLapse(t)
    requires id in t.worlds(0) && t.worlds(0)[id].tenantId == q.tenantId
    requires RacedAssess(t, q, t.worlds(0)[id], n).Represented?
    ensures Assess(t.worlds(0), t.lookups(0), q, t.worlds(0)[id]).Represented?
  {
    var begin := Still(t.worlds(0), t.lookups(0));
    WorldIsCoherent(t, 0);
    StillIsLawful(t.worlds(0), t.lookups(0));
    forall k: nat | k <= n + 2 * MAX_CHAIN_HOPS ensures Lapses(begin.lookups(k), t.lookups(k)) && Evolves(begin.worlds(k), t.worlds(k)) {
      WorldEvolves(t, 0, k);
    }
    RepresentedBehind(begin, t, q, id, Chain(t, id), n);
    StillRepresents(t.worlds(0), t.lookups(0), q, t.worlds(0)[id], n);
  }

  /** What the store still represents once the walk is over, the raced walk finds represented. */
  lemma RacedIsNoLessThanTheEnd(t: Timeline, q: Query, id: string, n: nat, end: nat)
    requires Lawful(t) && OnlyLapse(t) && n + 2 * MAX_CHAIN_HOPS <= end
    requires id in t.worlds(0) && t.worlds(0)[id].tenantId == q.tenantId && id in t.worlds(end)
    requires Assess(t.worlds(end), t.lookups(end), q, t.worlds(end)[id]).Represented?
    ensures RacedAssess(t, q, t.worlds(0)[id], n).Represented?
  {
    var done, ids := Still(t.worlds(end), t.lookups(end)), Chain(t, id);
    WorldIsCoherent(t, end);
    StillIsLawful(t.worlds(end), t.lookups(end));
    WorldEvolves(t, 0, end);
    UpToRootStays(t.worlds(0), t.worlds(end), id, ids);
    forall k: nat | k <= n + 2 * MAX_CHAIN_HOPS ensures Lapses(t.lookups(k), done.lookups(k)) && Evolves(t.worlds(k), done.worlds(k)) {
      WorldEvolves(t, k, end);
    }
    assert Behind(t, done, n + 2 * MAX_CHAIN_HOPS);
    StillRepresents(t.worlds(end), t.lookups(end), q, t.worlds(end)[id], n);
    RepresentedBehind(t, done, q, id, ids, n);
  }

  // ---- The whole question ---------------------------------------------------------------

  /** The candidates are what the store lists at the first read. */
  ghost predicate Candidates(t: Timeline, q: Query, candidates: seq<Representation>) {
    forall r :: r in candidates <==>
      r.id in t.worlds(0) && t.worlds(0)[r.id] == r && BindsExactly(r, q.tenantId, q.representativeRef, q.holderRef, q.resource)
  }

  lemma BestIsSomeRaced(t: Timeline, q: Query, candidates: seq<Representation>)
    ensures Best(RacedAssessments(t, q, candidates)).Represented? <==>
      exists i: nat :: i < |candidates| && RacedAssess(t, q, candidates[i], FirstRead(i)).Represented?
  {
    var coverages := RacedAssessments(t, q, candidates);
    BestIsRepresentedIff(coverages);
    if c :| c in coverages && c.Represented? {
      var i :| 0 <= i < |coverages| && coverages[i] == c;
      assert RacedAssess(t, q, candidates[i], FirstRead(i)).Represented?;
    }
    if i: nat :| i < |candidates| && RacedAssess(t, q, candidates[i], FirstRead(i)).Represented? {
      assert coverages[i] in coverages;
    }
  }

  /** What stands behind the answer: a candidate that covered the request and was active when listed, each link of its chain live at its own read. */
  ghost predicate RacedWarrant(t: Timeline, q: Query, r: Representation, n: nat)
    requires Lawful(t) && r.id in t.worlds(0)
  {
    && Covers(r, q.governedRight, q.action, q.requestedScope)
    && StateAt(r, q.at) == Active
    && |Chain(t, r.id)| <= MAX_CHAIN_HOPS
    && AllLive(t, r, Chain(t, r.id), q.at, n)
  }

  /** Under any interleaving with grants, withdrawals and changes of the delegation graph. */
  lemma RacedResolvedIff(t: Timeline, q: Query, candidates: seq<Representation>)
    requires Lawful(t) && Candidates(t, q, candidates)
    ensures Best(RacedAssessments(t, q, candidates)).Represented? <==>
      exists i: nat :: i < |candidates| && candidates[i].id in t.worlds(0) && RacedWarrant(t, q, candidates[i], FirstRead(i))
  {
    BestIsSomeRaced(t, q, candidates);
    forall i: nat | i < |candidates|
      ensures candidates[i] in candidates && candidates[i].id in t.worlds(0)
      ensures RacedAssess(t, q, candidates[i], FirstRead(i)).Represented? <==> RacedWarrant(t, q, candidates[i], FirstRead(i))
    {
      assert candidates[i] in candidates;
      RacedRepresentsIff(t, 0, q, candidates[i].id, Chain(t, candidates[i].id), FirstRead(i));
    }
  }

  /** The store would represent the request at the `k`-th read, were it all read then. */
  ghost predicate WarrantedAt(t: Timeline, q: Query, k: nat) {
    Rooted(t.worlds(k)) && exists id :: Warranted(t.worlds(k), t.lookups(k), q, id)
  }

  lemma RacedWithin(t: Timeline, q: Query, candidates: seq<Representation>)
    requires Lawful(t) && OnlyLapse(t) && Candidates(t, q, candidates)
    requires Best(RacedAssessments(t, q, candidates)).Represented?
    ensures WarrantedAt(t, q, 0)
  {
    WorldIsCoherent(t, 0);
    BestIsSomeRaced(t, q, candidates);
    var i: nat :| i < |candidates| && RacedAssess(t, q, candidates[i], FirstRead(i)).Represented?;
    assert candidates[i] in candidates;
    RacedIsNoMoreThanTheBeginning(t, q, candidates[i].id, FirstRead(i));
    WarrantedIsRepresented(t.worlds(0), t.lookups(0), q, candidates[i].id);
  }

  /** What is bound as the query asks at the end, and was stored when the candidates were listed, was among them. */
  lemma BoundWasListed(t: Timeline, q: Query, candidates: seq<Representation>, id: string, end: nat)
    requires Lawful(t) && Candidates(t, q, candidates) && id in t.worlds(0) && id in t.worlds(end)
    requires BindsExactly(t.worlds(end)[id], q.tenantId, q.representativeRef, q.holderRef, q.resource)
    ensures t.worlds(0)[id] in candidates && t.worlds(0)[id].tenantId == q.tenantId
  {
    NamedAsStored(t, 0, id);
    WorldEvolves(t, 0, end);
    assert RecordEvolves(t.worlds(0)[id], t.worlds(end)[id]);
  }

  /** One walk ends before the next begins. */
  lemma WalksInTurn(i: nat, j: nat)
    requires i < j
    ensures FirstRead(i) + 2 * MAX_CHAIN_HOPS <= FirstRead(j)
  {
  }

  lemma RacedBeyond(t: Timeline, q: Query, candidates: seq<Representation>, id: string, end: nat)
    requires Lawful(t) && OnlyLapse(t) && Candidates(t, q, candidates)
    requires FirstRead(|candidates|) <= end && id in t.worlds(0) && id in t.worlds(end)
    requires BindsExactly(t.worlds(end)[id], q.tenantId, q.representativeRef, q.holderRef, q.resource)
    requires Assess(t.worlds(end), t.lookups(end), q, t.worlds(end)[id]).Represented?
    ensures Best(RacedAssessments(t, q, candidates)).Represented?
  {
    BoundWasListed(t, q, candidates, id, end);
    var i: nat :| i < |candidates| && candidates[i] == t.worlds(0)[id];
    WalksInTurn(i, |candidates|);
    RacedIsNoLessThanTheEnd(t, q, id, FirstRead(i), end);
    BestIsSomeRaced(t, q, candidates);
  }

  /**
   While delegations only lapse, the raced answer lies between two snapshots: it is
   no more than the store would have answered at the beginning, and no less than it
   would answer, of the records it held at the beginning, at the end.
   */
  lemma RacedLiesBetween(t: Timeline, q: Query, candidates: seq<Representation>, end: nat)
    requires Lawful(t) && OnlyLapse(t) && Candidates(t, q, candidates)
    requires FirstRead(|candidates|) <= end
    ensures Rooted(t.worlds(end))
    ensures (exists id :: id in t.worlds(0) && Warranted(t.worlds(end), t.lookups(end), q, id)) ==>
      Best(RacedAssessments(t, q, candidates)).Represented?
    ensures Best(RacedAssessments(t, q, candidates)).Represented? ==> WarrantedAt(t, q, 0)
  {
    WorldIsCoherent(t, end);
    if id :| id in t.worlds(0) && Warranted(t.worlds(end), t.lookups(end), q, id) {
      WarrantedIsRepresented(t.worlds(end), t.lookups(end), q, id);
      RacedBeyond(t, q, candidates, id, end);
    }
    if Best(RacedAssessments(t, q, candidates)).Represented? { RacedWithin(t, q, candidates); }
  }

  /** Nothing that binds as the query asks was granted after the candidates were listed. */
  predicate NothingNewIsBound(t: Timeline, q: Query, end: nat) {
    forall id | id in t.worlds(end) && BindsExactly(t.worlds(end)[id], q.tenantId, q.representativeRef, q.holderRef, q.resource) ::
      id in t.worlds(0)
  }

  /**
   While delegations only lapse and nothing new is bound as the query asks, the
   answer is the one of the beginning or the one of the end. Neither condition can be
   spared (RepresentationRaceCases).
   */
  lemma RacedIsTheBeginningOrTheEnd(t: Timeline, q: Query, candidates: seq<Representation>, end: nat)
    requires Lawful(t) && OnlyLapse(t) && NothingNewIsBound(t, q, end) && Candidates(t, q, candidates)
    requires FirstRead(|candidates|) <= end
    ensures var represented := Best(RacedAssessments(t, q, candidates)).Represented?;
      && (WarrantedAt(t, q, end) ==> represented)
      && (represented ==> WarrantedAt(t, q, 0))
      && (represented == WarrantedAt(t, q, 0) || represented == WarrantedAt(t, q, end))
  {
    RacedLiesBetween(t, q, candidates, end);
    if WarrantedAt(t, q, end) {
      var id :| Warranted(t.worlds(end), t.lookups(end), q, id);
      assert id in t.worlds(0);
    }
  }
}
