/**
 The bounded view of standing constraints that reaches deployment policy: one
 verdict per governed right, folded into one list of facts without repetition.
 */
module ConstraintPolicy {
  import opened Options
  import opened Instants
  import opened Ordering
  import opened Lists
  import opened ConstraintApplicability

  datatype Fact = Fact(constraintId: string, constraintClass: string, sourceAction: string, governedRight: string, applicability: seq<Kind>)

  datatype Context = Context(resolved: bool, status: Status, constraints: seq<Fact>)

  function FactId(f: Fact): string { f.constraintId }

  function FactOfApplied(e: Applied): Option<Fact> {
    Some(Fact(e.constraintId, e.constraintClass, e.sourceAction, e.governedRight, e.applicability))
  }

  /** Only a constraint over exactly this authority that does not engage this action is disclosed. */
  function FactOfUnapplied(e: Unapplied): Option<Fact> {
    if e.reason != ClassNotEngaged || e.constraintClass.None? || e.sourceAction.None? || e.governedRight.None? then None
    else Some(Fact(e.constraintId, e.constraintClass.value, e.sourceAction.value, e.governedRight.value, []))
  }

  // ---- The fold -------------------------------------------------------------------

  function FactsOf(r: Applicability): seq<Fact> {
    Select(FactOfApplied, r.applicable) + Select(FactOfUnapplied, r.nonApplicable)
  }

  function AllFacts(results: seq<Applicability>): seq<Fact> {
    if results == [] then [] else AllFacts(results[..|results| - 1]) + FactsOf(results[|results| - 1])
  }

  function StrongestStatus(results: seq<Applicability>): Status {
    if results == [] then Unconstrained
    else MaxStatus(StrongestStatus(results[..|results| - 1]), results[|results| - 1].status)
  }

  predicate HasId(facts: seq<Fact>, id: string) {
    exists f | f in facts :: f.constraintId == id
  }

  /** The first fact of every id. */
  function KeepFirst(facts: seq<Fact>): seq<Fact> {
    if facts == [] then []
    else
      var front, last := facts[..|facts| - 1], facts[|facts| - 1];
      KeepFirst(front) + if HasId(front, last.constraintId) then [] else [last]
  }

  function ContextOf(results: seq<Applicability>): Context {
    Context(true, StrongestStatus(results), SortBy(FactId, KeepFirst(AllFacts(results))))
  }

  /** The ids of the facts met so far, as the loop below keeps them. */
  ghost predicate Seen(seen: set<string>, facts: seq<Fact>) {
    forall id :: id in seen <==> HasId(facts, id)
  }

  lemma HasIdSnoc(facts: seq<Fact>, f: Fact, id: string)
    ensures HasId(facts + [f], id) <==> HasId(facts, id) || f.constraintId == id
  {
    assert f in facts + [f];
    forall g ensures g in facts + [f] <==> g in facts || g == f { }
  }

  /** One step of the loop: a fact whose id was seen is skipped, any other is kept and its id recorded. */
  method Keep(ghost facts: seq<Fact>, seen: set<string>, kept: seq<Fact>, fact: Fact) returns (nowSeen: set<string>, nowKept: seq<Fact>)
    requires Seen(seen, facts) && kept == KeepFirst(facts)
    ensures Seen(nowSeen, facts + [fact]) && nowKept == KeepFirst(facts + [fact])
  {
    forall id ensures HasId(facts + [fact], id) <==> HasId(facts, id) || fact.constraintId == id { HasIdSnoc(facts, fact, id); }
    assert (facts + [fact])[..|facts + [fact]| - 1] == facts;
    nowSeen, nowKept := seen, kept;
    if fact.constraintId !in seen {
      nowSeen := seen + {fact.constraintId};
      nowKept := kept + [fact];
    }
  }

  method KeepApplied(ghost before: seq<Fact>, seen: set<string>, kept: seq<Fact>, entries: seq<Applied>)
    returns (nowSeen: set<string>, nowKept: seq<Fact>)
    requires Seen(seen, before) && kept == KeepFirst(before)
    ensures Seen(nowSeen, before + Select(FactOfApplied, entries)) && nowKept == KeepFirst(before + Select(FactOfApplied, entries))
  {
    nowSeen, nowKept := seen, kept;
    assert before + Select(FactOfApplied, []) == before;
    for i := 0 to |entries|
      invariant Seen(nowSeen, before + Select(FactOfApplied, entries[..i]))
      invariant nowKept == KeepFirst(before + Select(FactOfApplied, entries[..i]))
    {
      ghost var facts := before + Select(FactOfApplied, entries[..i]);
      var fact := FactOfApplied(entries[i]).value;
      SelectNext(before, FactOfApplied, entries, i);
      nowSeen, nowKept := Keep(facts, nowSeen, nowKept, fact);
    }
    assert entries[..|entries|] == entries;
  }

  method KeepUnapplied(ghost before: seq<Fact>, seen: set<string>, kept: seq<Fact>, entries: seq<Unapplied>)
    returns (nowSeen: set<string>, nowKept: seq<Fact>)
    requires Seen(seen, before) && kept == KeepFirst(before)
    ensures Seen(nowSeen, before + Select(FactOfUnapplied, entries)) && nowKept == KeepFirst(before + Select(FactOfUnapplied, entries))
  {
    nowSeen, nowKept := seen, kept;
    assert before + Select(FactOfUnapplied, []) == before;
    for i := 0 to |entries|
      invariant Seen(nowSeen, before + Select(FactOfUnapplied, entries[..i]))
      invariant nowKept == KeepFirst(before + Select(FactOfUnapplied, entries[..i]))
    {
      ghost var facts := before + Select(FactOfUnapplied, entries[..i]);
      var fact := FactOfUnapplied(entries[i]);
      SelectNext(before, FactOfUnapplied, entries, i);
      if fact.None? {
        assert facts + Listed(fact) == facts;
        continue;
      }
      nowSeen, nowKept := Keep(facts, nowSeen, nowKept, fact.value);
    }
    assert entries[..|entries|] == entries;
  }

  lemma FactsAppended(before: seq<Fact>, r: Applicability)
    ensures before + FactsOf(r) == before + Select(FactOfApplied, r.applicable) + Select(FactOfUnapplied, r.nonApplicable)
  {
  }

  method KeepResult(ghost before: seq<Fact>, seen: set<string>, kept: seq<Fact>, result: Applicability)
    returns (nowSeen: set<string>, nowKept: seq<Fact>)
    requires Seen(seen, before) && kept == KeepFirst(before)
    ensures Seen(nowSeen, before + FactsOf(result)) && nowKept == KeepFirst(before + FactsOf(result))
  {
    nowSeen, nowKept := KeepApplied(before, seen, kept, result.applicable);
    nowSeen, nowKept := KeepUnapplied(before + Select(FactOfApplied, result.applicable), nowSeen, nowKept, result.nonApplicable);
    FactsAppended(before, result);
  }

  lemma FoldSnoc(results: seq<Applicability>, i: nat)
    requires i < |results|
    ensures AllFacts(results[..i + 1]) == AllFacts(results[..i]) + FactsOf(results[i])
    ensures StrongestStatus(results[..i + 1]) == MaxStatus(StrongestStatus(results[..i]), results[i].status)
  {
    assert results[..i + 1][..i] == results[..i];
  }

  /** The fold over per-right verdicts, with its set of ids already seen. */
  method ToPolicyContext(results: seq<Applicability>) returns (context: Context)
    ensures context == ContextOf(results)
  {
    var constraints: seq<Fact>, seen: set<string>, status := [], {}, Unconstrained;
    ghost var facts: seq<Fact> := [];
    for i := 0 to |results|
      invariant status == StrongestStatus(results[..i]) && facts == AllFacts(results[..i])
      invariant Seen(seen, facts) && constraints == KeepFirst(facts)
    {
      FoldSnoc(results, i);
      if Rank(results[i].status) > Rank(status) { status := results[i].status; }
      seen, constraints := KeepResult(facts, seen, constraints, results[i]);
      facts := facts + FactsOf(results[i]);
    }
    assert results[..|results|] == results;
    context := Context(true, status, SortBy(FactId, constraints));
  }

  // ---- What the context holds ---------------------------------------------------------

  /** One verdict for each governed right the request engages. */
  function Evaluations(q: Question, rights: seq<string>, cs: seq<Encumbrance>): seq<Applicability> {
    seq(|rights|, i requires 0 <= i < |rights| => Evaluation(q, rights[i], cs))
  }

  /** What policy may see of a constraint: bound to an engaged right, in force, and classifiable; otherwise nothing. */
  function Disclosure(q: Question, rights: seq<string>, c: Encumbrance): Option<Fact> {
    if c.governedRight in rights && BoundTo(q, c.governedRight, c) && Constrains(c, q.at) && q.classify(c.sourceAction).Some? then
      var constraintClass := q.classify(c.sourceAction).value;
      Some(Fact(c.id, constraintClass, c.sourceAction, c.governedRight, KindsFor(q.profile, constraintClass)))
    else None
  }

  lemma {:induction false} AllFactsMembers(results: seq<Applicability>, f: Fact)
    ensures f in AllFacts(results) <==> exists r :: r in results && f in FactsOf(r)
  {
    if results != [] {
      AllFactsMembers(results[..|results| - 1], f);
      assert results == results[..|results| - 1] + [results[|results| - 1]];
    }
  }

  /** What one verdict makes known about a record. */
  function Reported(j: Judgement): Option<Fact> {
    match j
    case Bears(e) => FactOfApplied(e)
    case Dismissed(e) => FactOfUnapplied(e)
    case Undecided(_) => None
  }

  lemma ReportedIsDisclosure(q: Question, right: string, c: Encumbrance)
    ensures Reported(Judge(q, right, c)) == Disclosure(q, [right], c)
  {
  }

  lemma ReportedIsFound(q: Question, right: string, c: Encumbrance, f: Fact)
    ensures Reported(Judge(q, right, c)) == Some(f) <==>
      FoundBy(Bearing(q, right), FactOfApplied, c, f) || FoundBy(Dismissing(q, right), FactOfUnapplied, c, f)
  {
  }

  lemma FactsOfEvaluation(q: Question, right: string, cs: seq<Encumbrance>, f: Fact)
    ensures f in FactsOf(Evaluation(q, right, cs)) <==> exists c :: c in cs && Reported(Judge(q, right, c)) == Some(f)
  {
    var bearing, dismissing := Bearing(q, right), Dismissing(q, right);
    SelectFromSorted(bearing, AppliedId, FactOfApplied, cs, f);
    SelectFromSorted(dismissing, UnappliedId, FactOfUnapplied, cs, f);
    forall c ensures Reported(Judge(q, right, c)) == Some(f) <==> FoundBy(bearing, FactOfApplied, c, f) || FoundBy(dismissing, FactOfUnapplied, c, f) {
      ReportedIsFound(q, right, c, f);
    }
  }

  lemma DisclosureByRight(q: Question, rights: seq<string>, c: Encumbrance)
    ensures forall right | right in rights && Disclosure(q, [right], c).Some? :: Disclosure(q, rights, c) == Disclosure(q, [right], c)
    ensures Disclosure(q, rights, c).Some? ==> c.governedRight in rights && Disclosure(q, [c.governedRight], c) == Disclosure(q, rights, c)
  {
  }

  lemma FactsOfResults(results: seq<Applicability>, rights: seq<string>, q: Question, cs: seq<Encumbrance>, f: Fact)
    requires |results| == |rights|
    requires forall i | 0 <= i < |rights| :: f in FactsOf(results[i]) <==> ReportedOver(q, rights[i], cs, f)
    ensures f in AllFacts(results) <==> exists right :: right in rights && ReportedOver(q, right, cs, f)
  {
    AllFactsMembers(results, f);
    if r :| r in results && f in FactsOf(r) {
      var i :| 0 <= i < |results| && results[i] == r;
      assert rights[i] in rights;
    }
    if right :| right in rights && ReportedOver(q, right, cs, f) {
      var i :| 0 <= i < |rights| && rights[i] == right;
      assert results[i] in results;
    }
  }

  ghost predicate ReportedOver(q: Question, right: string, cs: seq<Encumbrance>, f: Fact) {
    exists c :: c in cs && Reported(Judge(q, right, c)) == Some(f)
  }

  lemma FactsOfEvaluations(q: Question, rights: seq<string>, cs: seq<Encumbrance>, f: Fact)
    ensures f in AllFacts(Evaluations(q, rights, cs)) <==> exists right :: right in rights && ReportedOver(q, right, cs, f)
  {
    var results := Evaluations(q, rights, cs);
    forall i | 0 <= i < |rights| ensures f in FactsOf(results[i]) <==> ReportedOver(q, rights[i], cs, f) {
      FactsOfEvaluation(q, rights[i], cs, f);
    }
    FactsOfResults(results, rights, q, cs, f);
  }

  lemma FactsAreDisclosures(q: Question, rights: seq<string>, cs: seq<Encumbrance>, f: Fact)
    ensures f in AllFacts(Evaluations(q, rights, cs)) <==> exists c :: c in cs && Disclosure(q, rights, c) == Some(f)
  {
    FactsOfEvaluations(q, rights, cs, f);
    if right :| right in rights && ReportedOver(q, right, cs, f) {
      var c :| c in cs && Reported(Judge(q, right, c)) == Some(f);
      ReportedIsDisclosure(q, right, c);
      DisclosureByRight(q, rights, c);
    }
    if c :| c in cs && Disclosure(q, rights, c) == Some(f) {
      DisclosureByRight(q, rights, c);
      ReportedIsDisclosure(q, c.governedRight, c);
      assert ReportedOver(q, c.governedRight, cs, f);
    }
  }

  lemma {:induction false} KeptFacts(facts: seq<Fact>)
    ensures DistinctKeys(FactId, KeepFirst(facts))
    ensures forall id :: HasId(KeepFirst(facts), id) <==> HasId(facts, id)
    ensures forall f | f in KeepFirst(facts) :: f in facts
  {
    if facts != [] {
      var front, last := facts[..|facts| - 1], facts[|facts| - 1];
      KeptFacts(front);
      assert facts == front + [last];
      forall id ensures HasId(facts, id) <==> HasId(front, id) || last.constraintId == id { HasIdSnoc(front, last, id); }
      var kept := KeepFirst(front);
      if !HasId(front, last.constraintId) {
        forall id ensures HasId(kept + [last], id) <==> HasId(kept, id) || last.constraintId == id { HasIdSnoc(kept, last, id); }
        forall i | 0 <= i < |kept| ensures FactId(kept[i]) != last.constraintId {
          assert kept[i] in kept;
        }
      }
    }
  }

  lemma FactsIdentify(q: Question, rights: seq<string>, cs: seq<Encumbrance>, f: Fact, g: Fact)
    requires IdsIdentify(cs)
    requires f in AllFacts(Evaluations(q, rights, cs)) && g in AllFacts(Evaluations(q, rights, cs))
    requires f.constraintId == g.constraintId
    ensures f == g
  {
    FactsAreDisclosures(q, rights, cs, f);
    FactsAreDisclosures(q, rights, cs, g);
  }

  lemma NothingIsLost(facts: seq<Fact>)
    requires forall f, g | f in facts && g in facts && f.constraintId == g.constraintId :: f == g
    ensures forall f :: f in KeepFirst(facts) <==> f in facts
  {
    KeptFacts(facts);
    forall f | f in facts ensures f in KeepFirst(facts) {
      assert HasId(facts, f.constraintId);
      var g :| g in KeepFirst(facts) && g.constraintId == f.constraintId;
    }
  }

  /** The context is strictly sorted by id, and holds exactly the bound, in-force, classifiable constraints: no more and no fewer. */
  lemma ContextHoldsExactly(q: Question, rights: seq<string>, cs: seq<Encumbrance>)
    requires IdsIdentify(cs)
    ensures var facts := ContextOf(Evaluations(q, rights, cs)).constraints;
      && StrictlySortedBy(FactId, facts)
      && (forall f :: f in facts <==> exists c :: c in cs && Disclosure(q, rights, c) == Some(f))
  {
    var all := AllFacts(Evaluations(q, rights, cs));
    forall f, g | f in all && g in all && f.constraintId == g.constraintId ensures f == g {
      FactsIdentify(q, rights, cs, f, g);
    }
    NothingIsLost(all);
    KeptFacts(all);
    SortStrictly(FactId, KeepFirst(all));
    SortMembers(FactId, KeepFirst(all));
    forall f ensures f in all <==> exists c :: c in cs && Disclosure(q, rights, c) == Some(f) {
      FactsAreDisclosures(q, rights, cs, f);
    }
  }

  lemma {:induction false} StrongestStatusReaches(results: seq<Applicability>, k: int)
    ensures AtLeast(StrongestStatus(results), k) <==> k <= 0 || exists r :: r in results && AtLeast(r.status, k)
  {
    if results != [] {
      StrongestStatusReaches(results[..|results| - 1], k);
      assert results == results[..|results| - 1] + [results[|results| - 1]];
    }
  }

  lemma EvaluationReaches(q: Question, rights: seq<string>, cs: seq<Encumbrance>, i: nat, k: int)
    requires i < |rights| && k > 0
    ensures AtLeast(Evaluations(q, rights, cs)[i].status, k) <==> Reaches(q, rights[i], cs, k)
  {
    StatusReaches(q, rights[i], cs, k);
  }

  lemma ResultsReach(results: seq<Applicability>, q: Question, rights: seq<string>, cs: seq<Encumbrance>, k: int)
    requires k > 0 && |results| == |rights|
    requires forall i | 0 <= i < |rights| :: AtLeast(results[i].status, k) <==> Reaches(q, rights[i], cs, k)
    ensures AtLeast(StrongestStatus(results), k) <==> exists right :: right in rights && Reaches(q, right, cs, k)
  {
    StrongestStatusReaches(results, k);
    if r :| r in results && AtLeast(r.status, k) {
      var i :| 0 <= i < |results| && results[i] == r;
      assert rights[i] in rights;
    }
    if right :| right in rights && Reaches(q, right, cs, k) {
      var i :| 0 <= i < |rights| && rights[i] == right;
      assert results[i] in results;
    }
  }

  lemma EvaluationsReach(q: Question, rights: seq<string>, cs: seq<Encumbrance>, k: int)
    requires k > 0
    ensures AtLeast(StrongestStatus(Evaluations(q, rights, cs)), k) <==> exists right :: right in rights && Reaches(q, right, cs, k)
  {
    var results := Evaluations(q, rights, cs);
    forall i | 0 <= i < |rights| ensures AtLeast(results[i].status, k) <==> Reaches(q, rights[i], cs, k) {
      EvaluationReaches(q, rights, cs, i, k);
    }
    ResultsReach(results, q, rights, cs, k);
  }

  /** The same context for every permutation and repetition, of the rights and of the constraints. */
  lemma ContextIgnoresOrderAndRepetition(q: Question, rights: seq<string>, cs: seq<Encumbrance>, rights': seq<string>, cs': seq<Encumbrance>)
    requires IdsIdentify(cs)
    requires forall right :: right in rights <==> right in rights'
    requires forall c :: c in cs <==> c in cs'
    ensures ContextOf(Evaluations(q, rights, cs)) == ContextOf(Evaluations(q, rights', cs'))
  {
    ContextHoldsExactly(q, rights, cs);
    ContextHoldsExactly(q, rights', cs');
    forall c ensures Disclosure(q, rights, c) == Disclosure(q, rights', c) { }
    StrictlySortedUnique(FactId, ContextOf(Evaluations(q, rights, cs)).constraints, ContextOf(Evaluations(q, rights', cs')).constraints);
    var a, b := StrongestStatus(Evaluations(q, rights, cs)), StrongestStatus(Evaluations(q, rights', cs'));
    forall k: int | 1 <= k <= 3 ensures AtLeast(a, k) <==> AtLeast(b, k) {
      EvaluationsReach(q, rights, cs, k);
      EvaluationsReach(q, rights', cs', k);
      forall right ensures Reaches(q, right, cs, k) <==> Reaches(q, right, cs', k) { }
    }
    SameReachSameStatus(a, b);
  }
}
