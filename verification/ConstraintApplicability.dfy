/**
 Which persistent constraints bear on an action: the classifier that sorts every
 constraint into one of three lists, and the verdict over one governed right.
 */
module ConstraintApplicability {
  import opened Options
  import opened Instants
  import opened Ordering
  import opened Lists
  import opened RightsScope

  datatype EncumbranceStatus = Standing | Released

  datatype Encumbrance = Encumbrance(
    id: string,
    tenantId: string,
    holderRef: string,
    resourceKind: string,
    resourceId: string,
    governedRight: string,
    scope: Scope,
    sourceAction: string,
    effectiveFrom: Instant,
    status: EncumbranceStatus)

  datatype Profile = Profile(action: string, consumesConstraintClasses: seq<string>, constrainsHolderTransition: bool)

  /** Everything the question depends on apart from the right and the constraints. */
  datatype Question = Question(
    profile: Profile,
    tenantId: string,
    holderRef: string,
    resourceKind: string,
    resourceId: string,
    classify: string -> Option<string>,
    at: Instant)

  datatype Kind = Capacity | Structural

  datatype Reason = NotConstraining | DifferentBinding | ClassNotEngaged

  datatype Applied = Applied(
    constraintId: string, constraintClass: string, sourceAction: string, governedRight: string, scope: Scope, applicability: seq<Kind>)

  datatype Unapplied = Unapplied(
    constraintId: string, constraintClass: Option<string>, sourceAction: Option<string>, governedRight: Option<string>, reason: Reason)

  datatype Unclassified = Unclassified(constraintId: string, sourceAction: string)

  datatype Status = Unconstrained | StructurallyConstrained | CapacityConstrained | ConstraintStateInvalid

  datatype Applicability = Applicability(
    action: string, status: Status, applicable: seq<Applied>, nonApplicable: seq<Unapplied>, invalid: seq<Unclassified>)

  function Rank(s: Status): int {
    match s
    case Unconstrained => 0
    case StructurallyConstrained => 1
    case CapacityConstrained => 2
    case ConstraintStateInvalid => 3
  }

  function MaxStatus(a: Status, b: Status): Status {
    if Rank(b) > Rank(a) then b else a
  }

  // ---- One constraint ---------------------------------------------------------

  predicate BoundTo(q: Question, right: string, c: Encumbrance) {
    && c.tenantId == q.tenantId && c.holderRef == q.holderRef
    && c.resourceKind == q.resourceKind && c.resourceId == q.resourceId && c.governedRight == right
  }

  /** Released, not yet effective, or effective at no readable instant: it bears on nothing. */
  predicate Constrains(c: Encumbrance, at: Instant) {
    c.status == Standing && GreaterOrEqual(at, c.effectiveFrom)
  }

  function KindsFor(p: Profile, constraintClass: string): seq<Kind> {
    (if constraintClass in p.consumesConstraintClasses then [Capacity] else [])
    + (if p.constrainsHolderTransition then [Structural] else [])
  }

  datatype Judgement = Bears(applied: Applied) | Dismissed(unapplied: Unapplied) | Undecided(unclassified: Unclassified)

  function Judge(q: Question, right: string, c: Encumbrance): Judgement {
    if !BoundTo(q, right, c) then Dismissed(Unapplied(c.id, None, None, None, DifferentBinding))
    else if !Constrains(c, q.at) then Dismissed(Unapplied(c.id, None, None, None, NotConstraining))
    else match q.classify(c.sourceAction)
      case None => Undecided(Unclassified(c.id, c.sourceAction))
      case Some(constraintClass) =>
        var kinds := KindsFor(q.profile, constraintClass);
        if kinds == [] then
          Dismissed(Unapplied(c.id, Some(constraintClass), Some(c.sourceAction), Some(c.governedRight), ClassNotEngaged))
        else Bears(Applied(c.id, constraintClass, c.sourceAction, c.governedRight, c.scope, kinds))
  }

  // ---- What is so of a record, apart from how it is judged ---------------------------

  /** Over exactly this tenant, holder, resource and right. */
  predicate Binds(q: Question, right: string, c: Encumbrance) {
    (c.tenantId, c.holderRef, c.resourceKind, c.resourceId, c.governedRight) == (q.tenantId, q.holderRef, q.resourceKind, q.resourceId, right)
  }

  /** It stands, and has begun by the instant asked about. */
  predicate InForce(c: Encumbrance, at: Instant) {
    && c.status == Standing
    && at.At? && c.effectiveFrom.At? && c.effectiveFrom.ms <= at.ms
  }

  predicate Consumed(q: Question, c: Encumbrance) {
    exists constraintClass | constraintClass in q.profile.consumesConstraintClasses :: q.classify(c.sourceAction) == Some(constraintClass)
  }

  /** The kinds a class of constraint has for a profile: the consumed class, the moved holder, in that order and once each. */
  lemma KindsAre(p: Profile, constraintClass: string)
    ensures var kinds := KindsFor(p, constraintClass);
      && (Capacity in kinds <==> constraintClass in p.consumesConstraintClasses)
      && (Structural in kinds <==> p.constrainsHolderTransition)
      && forall i, j | 0 <= i < j < |kinds| :: kinds[i] == Capacity && kinds[j] == Structural
  {
  }

  /** Every judgement, exactly when it is made, and with all it says. */
  lemma JudgementMeans(q: Question, right: string, c: Encumbrance)
    ensures var j, constraintClass := Judge(q, right, c), q.classify(c.sourceAction);
      && (!Binds(q, right, c) <==> j == Dismissed(Unapplied(c.id, None, None, None, DifferentBinding)))
      && (Binds(q, right, c) && !InForce(c, q.at) <==> j == Dismissed(Unapplied(c.id, None, None, None, NotConstraining)))
      && (Binds(q, right, c) && InForce(c, q.at) && constraintClass.None? <==> j == Undecided(Unclassified(c.id, c.sourceAction)))
      && (Binds(q, right, c) && InForce(c, q.at) && constraintClass.Some? && !Consumed(q, c) && !q.profile.constrainsHolderTransition
          <==> j == Dismissed(Unapplied(c.id, constraintClass, Some(c.sourceAction), Some(right), ClassNotEngaged)))
      && (Binds(q, right, c) && InForce(c, q.at) && constraintClass.Some? && (Consumed(q, c) || q.profile.constrainsHolderTransition)
          <==> j.Bears?)
      && (j.Bears? ==>
            && j.applied.constraintId == c.id && Some(j.applied.constraintClass) == constraintClass && j.applied.sourceAction == c.sourceAction
            && j.applied.governedRight == right && j.applied.scope == c.scope
            && (Capacity in j.applied.applicability <==> Consumed(q, c))
            && (Structural in j.applied.applicability <==> q.profile.constrainsHolderTransition))
  {
    if q.classify(c.sourceAction).Some? { KindsAre(q.profile, q.classify(c.sourceAction).value); }
  }

  /** The same question, asked at another instant with another classifier. */
  function AskedAt(q: Question, at: Instant, classify: string -> Option<string>): Question {
    q.(at := at, classify := classify)
  }

  predicate NotConstrainingAs(j: Judgement, c: Encumbrance) {
    j == Dismissed(Unapplied(c.id, None, None, None, NotConstraining))
  }

  /**
   A constraint bears at some instant exactly when it stands and its effective instant
   can be read. One that is bound and does not is reported as not constraining at
   every instant, whatever the classifier would answer; it is never undecided.
   */
  lemma NeverConstrainingIff(q: Question, right: string, c: Encumbrance)
    requires BoundTo(q, right, c)
    ensures (exists at :: Constrains(c, at)) <==> c.status == Standing && c.effectiveFrom.At?
    ensures (forall at, classify :: NotConstrainingAs(Judge(AskedAt(q, at, classify), right, c), c))
      <==> c.status == Released || c.effectiveFrom == Unreadable
  {
    if c.status == Standing && c.effectiveFrom.At? {
      assert Constrains(c, c.effectiveFrom);
      assert !NotConstrainingAs(Judge(AskedAt(q, c.effectiveFrom, q.classify), right, c), c);
    }
  }

  // ---- All constraints over one right -------------------------------------------

  function Bearing(q: Question, right: string): Encumbrance -> Option<Applied> {
    (c: Encumbrance) => match Judge(q, right, c) case Bears(e) => Some(e) case _ => None
  }

  function Dismissing(q: Question, right: string): Encumbrance -> Option<Unapplied> {
    (c: Encumbrance) => match Judge(q, right, c) case Dismissed(e) => Some(e) case _ => None
  }

  function Undeciding(q: Question, right: string): Encumbrance -> Option<Unclassified> {
    (c: Encumbrance) => match Judge(q, right, c) case Undecided(e) => Some(e) case _ => None
  }

  function AppliedBy(q: Question, right: string, cs: seq<Encumbrance>): seq<Applied> {
    Select(Bearing(q, right), cs)
  }

  function DismissedBy(q: Question, right: string, cs: seq<Encumbrance>): seq<Unapplied> {
    Select(Dismissing(q, right), cs)
  }

  function UndecidedBy(q: Question, right: string, cs: seq<Encumbrance>): seq<Unclassified> {
    Select(Undeciding(q, right), cs)
  }

  predicate AnyOfKind(applicable: seq<Applied>, kind: Kind) {
    exists entry | entry in applicable :: kind in entry.applicability
  }

  function StatusOf(applicable: seq<Applied>, invalid: seq<Unclassified>): Status {
    if invalid != [] then ConstraintStateInvalid
    else if AnyOfKind(applicable, Capacity) then CapacityConstrained
    else if AnyOfKind(applicable, Structural) then StructurallyConstrained
    else Unconstrained
  }

  function AppliedId(entry: Applied): string { entry.constraintId }

  function UnappliedId(entry: Unapplied): string { entry.constraintId }

  function UnclassifiedId(entry: Unclassified): string { entry.constraintId }

  function StatusOver(q: Question, right: string, cs: seq<Encumbrance>): Status {
    StatusOf(AppliedBy(q, right, cs), UndecidedBy(q, right, cs))
  }

  lemma ListsSnoc(q: Question, right: string, cs: seq<Encumbrance>, c: Encumbrance)
    ensures match Judge(q, right, c)
      case Bears(e) =>
        && AppliedBy(q, right, cs + [c]) == AppliedBy(q, right, cs) + [e]
        && DismissedBy(q, right, cs + [c]) == DismissedBy(q, right, cs)
        && UndecidedBy(q, right, cs + [c]) == UndecidedBy(q, right, cs)
      case Dismissed(e) =>
        && AppliedBy(q, right, cs + [c]) == AppliedBy(q, right, cs)
        && DismissedBy(q, right, cs + [c]) == DismissedBy(q, right, cs) + [e]
        && UndecidedBy(q, right, cs + [c]) == UndecidedBy(q, right, cs)
      case Undecided(e) =>
        && AppliedBy(q, right, cs + [c]) == AppliedBy(q, right, cs)
        && DismissedBy(q, right, cs + [c]) == DismissedBy(q, right, cs)
        && UndecidedBy(q, right, cs + [c]) == UndecidedBy(q, right, cs) + [e]
  {
    SelectSnoc(Bearing(q, right), cs, c);
    SelectSnoc(Dismissing(q, right), cs, c);
    SelectSnoc(Undeciding(q, right), cs, c);
  }

  /** The verdict, as a function of the question, the right and the records. */
  function Evaluation(q: Question, right: string, cs: seq<Encumbrance>): Applicability {
    Applicability(
      q.profile.action,
      StatusOver(q, right, cs),
      SortBy(AppliedId, AppliedBy(q, right, cs)),
      SortBy(UnappliedId, DismissedBy(q, right, cs)),
      SortBy(UnclassifiedId, UndecidedBy(q, right, cs)))
  }

  /** The loop that computes it. */
  method Evaluate(q: Question, right: string, constraints: seq<Encumbrance>) returns (r: Applicability)
    ensures r == Evaluation(q, right, constraints)
    ensures StatusGround(q, right, constraints, r.status)
    ensures ListsJudgements(q, right, constraints, r)
  {
    r := Collect(q, right, constraints);
    StatusMeans(q, right, constraints, r.status);
    EvaluationLists(q, right, constraints);
  }

  method Collect(q: Question, right: string, constraints: seq<Encumbrance>) returns (r: Applicability)
    ensures r == Evaluation(q, right, constraints)
  {
    var applicable: seq<Applied>, nonApplicable: seq<Unapplied>, invalid: seq<Unclassified> := [], [], [];
    for i := 0 to |constraints|
      invariant applicable == AppliedBy(q, right, constraints[..i])
      invariant nonApplicable == DismissedBy(q, right, constraints[..i])
      invariant invalid == UndecidedBy(q, right, constraints[..i])
    {
      var c := constraints[i];
      assert constraints[..i + 1] == constraints[..i] + [c];
      ListsSnoc(q, right, constraints[..i], c);
      if c.tenantId != q.tenantId || c.holderRef != q.holderRef || c.resourceKind != q.resourceKind
         || c.resourceId != q.resourceId || c.governedRight != right
      {
        nonApplicable := nonApplicable + [Unapplied(c.id, None, None, None, DifferentBinding)];
        continue;
      }
      if !Constrains(c, q.at) {
        nonApplicable := nonApplicable + [Unapplied(c.id, None, None, None, NotConstraining)];
        continue;
      }
      var constraintClass := q.classify(c.sourceAction);
      if constraintClass.None? {
        invalid := invalid + [Unclassified(c.id, c.sourceAction)];
        continue;
      }
      var kinds: seq<Kind> := [];
      if constraintClass.value in q.profile.consumesConstraintClasses { kinds := kinds + [Capacity]; }
      if q.profile.constrainsHolderTransition { kinds := kinds + [Structural]; }
      assert kinds == KindsFor(q.profile, constraintClass.value);
      if kinds == [] {
        nonApplicable := nonApplicable + [Unapplied(c.id, constraintClass, Some(c.sourceAction), Some(c.governedRight), ClassNotEngaged)];
        continue;
      }
      applicable := applicable + [Applied(c.id, constraintClass.value, c.sourceAction, c.governedRight, c.scope, kinds)];
    }
    assert constraints[..|constraints|] == constraints;
    r := Applicability(
      q.profile.action, StatusOf(applicable, invalid),
      SortBy(AppliedId, applicable), SortBy(UnappliedId, nonApplicable), SortBy(UnclassifiedId, invalid));
  }

  // ---- The three lists partition the records ---------------------------------------

  function ConstraintId(c: Encumbrance): string { c.id }

  ghost predicate Partitions(cs: seq<Encumbrance>, applied: seq<Applied>, dismissed: seq<Unapplied>, undecided: seq<Unclassified>) {
    KeyCounts(ConstraintId, cs) == KeyCounts(AppliedId, applied) + KeyCounts(UnappliedId, dismissed) + KeyCounts(UnclassifiedId, undecided)
  }

  lemma PartitionsSnoc(
    cs: seq<Encumbrance>, applied: seq<Applied>, dismissed: seq<Unapplied>, undecided: seq<Unclassified>, c: Encumbrance, j: Judgement)
    requires Partitions(cs, applied, dismissed, undecided) && NamesRecord(j, c)
    ensures match j
      case Bears(e) => Partitions(cs + [c], applied + [e], dismissed, undecided)
      case Dismissed(e) => Partitions(cs + [c], applied, dismissed + [e], undecided)
      case Undecided(e) => Partitions(cs + [c], applied, dismissed, undecided + [e])
  {
    KeyCountsSnoc(ConstraintId, cs, c);
    CountOneMore(KeyCounts(AppliedId, applied), KeyCounts(UnappliedId, dismissed), KeyCounts(UnclassifiedId, undecided), c.id);
    match j
    case Bears(e) => KeyCountsSnoc(AppliedId, applied, e);
    case Dismissed(e) => KeyCountsSnoc(UnappliedId, dismissed, e);
    case Undecided(e) => KeyCountsSnoc(UnclassifiedId, undecided, e);
  }

  ghost predicate ListsCoverAll(q: Question, right: string, cs: seq<Encumbrance>) {
    Partitions(cs, AppliedBy(q, right, cs), DismissedBy(q, right, cs), UndecidedBy(q, right, cs))
  }

  lemma OneMoreIsCovered(q: Question, right: string, cs: seq<Encumbrance>, c: Encumbrance, all: seq<Encumbrance>)
    requires ListsCoverAll(q, right, cs) && all == cs + [c]
    ensures ListsCoverAll(q, right, all)
  {
    JudgementNames(q, right, c);
    ListsSnoc(q, right, cs, c);
    PartitionsSnoc(cs, AppliedBy(q, right, cs), DismissedBy(q, right, cs), UndecidedBy(q, right, cs), c, Judge(q, right, c));
  }

  lemma NothingIsCovered(q: Question, right: string)
    ensures ListsCoverAll(q, right, [])
  {
  }

  lemma {:induction false} ListsPartition(q: Question, right: string, cs: seq<Encumbrance>)
    ensures ListsCoverAll(q, right, cs)
  {
    if cs == [] {
      NothingIsCovered(q, right);
    } else {
      var front, last := cs[..|cs| - 1], cs[|cs| - 1];
      ListsPartition(q, right, front);
      OneMoreIsCovered(q, right, front, last, cs);
    }
  }

  lemma CountOneMore(a: multiset<string>, d: multiset<string>, u: multiset<string>, id: string)
    ensures a + d + u + multiset{id} == (a + multiset{id}) + d + u == a + (d + multiset{id}) + u
  {
  }

  predicate NamesRecord(j: Judgement, c: Encumbrance) {
    match j
    case Bears(e) => e.constraintId == c.id
    case Dismissed(e) => e.constraintId == c.id
    case Undecided(e) => e.constraintId == c.id
  }

  lemma JudgementNames(q: Question, right: string, c: Encumbrance)
    ensures NamesRecord(Judge(q, right, c), c)
  {
  }

  /** Every record is reported in exactly one of the three lists, and nothing else is. */
  lemma EvaluationPartitions(q: Question, right: string, cs: seq<Encumbrance>)
    ensures var r := Evaluation(q, right, cs);
      Partitions(cs, r.applicable, r.nonApplicable, r.invalid)
  {
    ListsPartition(q, right, cs);
    SortKeepsKeyCounts(AppliedId, AppliedBy(q, right, cs));
    SortKeepsKeyCounts(UnappliedId, DismissedBy(q, right, cs));
    SortKeepsKeyCounts(UnclassifiedId, UndecidedBy(q, right, cs));
  }

  // ---- The status ----------------------------------------------------------------------

  /** What one record alone contributes. */
  function StatusOfOne(j: Judgement): Status {
    match j
    case Undecided(_) => ConstraintStateInvalid
    case Bears(e) => if Capacity in e.applicability then CapacityConstrained else StructurallyConstrained
    case Dismissed(_) => Unconstrained
  }

  /** Some record contributes at least `k`. */
  predicate Reaches(q: Question, right: string, cs: seq<Encumbrance>, k: int) {
    exists c | c in cs :: Rank(StatusOfOne(Judge(q, right, c))) >= k
  }

  lemma UndecidedIsSeen(q: Question, right: string, cs: seq<Encumbrance>)
    ensures UndecidedBy(q, right, cs) != [] <==> Reaches(q, right, cs, 3)
  {
    var found := UndecidedBy(q, right, cs);
    if found != [] {
      SelectMembers(Undeciding(q, right), cs, found[0]);
    }
    if Reaches(q, right, cs, 3) {
      var c :| c in cs && Rank(StatusOfOne(Judge(q, right, c))) >= 3;
      SelectMembers(Undeciding(q, right), cs, Judge(q, right, c).unclassified);
    }
  }

  lemma BearingIsSeen(q: Question, right: string, cs: seq<Encumbrance>)
    ensures AnyOfKind(AppliedBy(q, right, cs), Capacity) ==> Reaches(q, right, cs, 2)
    ensures AnyOfKind(AppliedBy(q, right, cs), Structural) ==> Reaches(q, right, cs, 1)
  {
    forall e | e in AppliedBy(q, right, cs) ensures exists c :: c in cs && Judge(q, right, c) == Bears(e) {
      SelectMembers(Bearing(q, right), cs, e);
    }
  }

  lemma ReachedIsReported(q: Question, right: string, cs: seq<Encumbrance>, c: Encumbrance)
    requires c in cs && Judge(q, right, c).Bears?
    ensures Judge(q, right, c).applied in AppliedBy(q, right, cs)
    ensures StatusOfOne(Judge(q, right, c)) == StructurallyConstrained ==> Structural in Judge(q, right, c).applied.applicability
  {
    SelectMembers(Bearing(q, right), cs, Judge(q, right, c).applied);
  }

  /** The status is the strongest contribution of any record, whatever their order. */
  lemma StatusReaches(q: Question, right: string, cs: seq<Encumbrance>, k: int)
    ensures Rank(StatusOver(q, right, cs)) >= k <==> k <= 0 || Reaches(q, right, cs, k)
  {
    UndecidedIsSeen(q, right, cs);
    BearingIsSeen(q, right, cs);
    if Reaches(q, right, cs, k) && !Reaches(q, right, cs, 3) {
      var c :| c in cs && Rank(StatusOfOne(Judge(q, right, c))) >= k;
      if Judge(q, right, c).Bears? { ReachedIsReported(q, right, cs, c); }
    }
  }

  lemma SameReachSameStatus(a: Status, b: Status)
    requires forall k: int | 1 <= k <= 3 :: AtLeast(a, k) <==> AtLeast(b, k)
    ensures a == b
  {
    assert AtLeast(a, 1) <==> AtLeast(b, 1);
    assert AtLeast(a, 2) <==> AtLeast(b, 2);
    assert AtLeast(a, 3) <==> AtLeast(b, 3);
  }

  predicate AtLeast(s: Status, k: int) {
    Rank(s) >= k
  }

  /** The status of records taken together is the stronger of the two; so adding records never weakens it. */
  lemma StatusIsRankMaximum(q: Question, right: string, xs: seq<Encumbrance>, ys: seq<Encumbrance>)
    ensures StatusOver(q, right, xs + ys) == MaxStatus(StatusOver(q, right, xs), StatusOver(q, right, ys))
  {
    var a, b, both := StatusOver(q, right, xs), StatusOver(q, right, ys), StatusOver(q, right, xs + ys);
    forall k: int | 1 <= k <= 3 ensures AtLeast(both, k) <==> AtLeast(MaxStatus(a, b), k) {
      StatusReaches(q, right, xs, k);
      StatusReaches(q, right, ys, k);
      StatusReaches(q, right, xs + ys, k);
    }
    SameReachSameStatus(both, MaxStatus(a, b));
  }

  /** The status depends on which records there are, not on their order or repetition. */
  lemma StatusIgnoresOrder(q: Question, right: string, xs: seq<Encumbrance>, ys: seq<Encumbrance>)
    requires forall c :: c in xs <==> c in ys
    ensures StatusOver(q, right, xs) == StatusOver(q, right, ys)
  {
    var a, b := StatusOver(q, right, xs), StatusOver(q, right, ys);
    forall k: int | 1 <= k <= 3 ensures AtLeast(a, k) <==> AtLeast(b, k) {
      StatusReaches(q, right, xs, k);
      StatusReaches(q, right, ys, k);
    }
    SameReachSameStatus(a, b);
  }

  /** Wherever it stands, releasing a constraint leaves the status that removing it would leave, which is never stronger. */
  lemma ReleasingNeverRaises(q: Question, right: string, xs: seq<Encumbrance>, c: Encumbrance, ys: seq<Encumbrance>)
    ensures StatusOver(q, right, xs + [c.(status := Released)] + ys) == StatusOver(q, right, xs + ys)
    ensures Rank(StatusOver(q, right, xs + ys)) <= Rank(StatusOver(q, right, xs + [c] + ys))
  {
    var released := c.(status := Released);
    ReleasedContributesNothing(q, right, c);
    StatusIsRankMaximum(q, right, xs + [c], ys);
    StatusIsRankMaximum(q, right, xs + [released], ys);
    StatusIsRankMaximum(q, right, xs, ys);
    StatusIsRankMaximum(q, right, xs, [c]);
    StatusIsRankMaximum(q, right, xs, [released]);
  }

  lemma ReleasedContributesNothing(q: Question, right: string, c: Encumbrance)
    ensures StatusOver(q, right, [c.(status := Released)]) == Unconstrained
  {
    StatusReaches(q, right, [c.(status := Released)], 1);
  }

  predicate SomeUnclassifiable(q: Question, right: string, cs: seq<Encumbrance>) {
    exists c | c in cs :: Binds(q, right, c) && InForce(c, q.at) && q.classify(c.sourceAction).None?
  }

  predicate SomeConsumed(q: Question, right: string, cs: seq<Encumbrance>) {
    exists c | c in cs :: Binds(q, right, c) && InForce(c, q.at) && Consumed(q, c)
  }

  predicate SomeInForce(q: Question, right: string, cs: seq<Encumbrance>) {
    exists c | c in cs :: Binds(q, right, c) && InForce(c, q.at)
  }

  /** What each status says of the records and of the profile. */
  predicate StatusGround(q: Question, right: string, cs: seq<Encumbrance>, status: Status) {
    match status
    case ConstraintStateInvalid => SomeUnclassifiable(q, right, cs)
    case CapacityConstrained => !SomeUnclassifiable(q, right, cs) && SomeConsumed(q, right, cs)
    case StructurallyConstrained =>
      && !SomeUnclassifiable(q, right, cs) && !SomeConsumed(q, right, cs)
      && q.profile.constrainsHolderTransition && SomeInForce(q, right, cs)
    case Unconstrained =>
      && !SomeUnclassifiable(q, right, cs) && !SomeConsumed(q, right, cs)
      && !(q.profile.constrainsHolderTransition && SomeInForce(q, right, cs))
  }

  lemma RankOfOne(q: Question, right: string, c: Encumbrance)
    ensures var k := Rank(StatusOfOne(Judge(q, right, c)));
      && (k >= 3 <==> Binds(q, right, c) && InForce(c, q.at) && q.classify(c.sourceAction).None?)
      && (k == 2 <==> Binds(q, right, c) && InForce(c, q.at) && Consumed(q, c))
      && (k >= 1 <==> Binds(q, right, c) && InForce(c, q.at)
                      && (q.classify(c.sourceAction).None? || Consumed(q, c) || q.profile.constrainsHolderTransition))
  {
    JudgementMeans(q, right, c);
  }

  lemma ReachingMeans(q: Question, right: string, cs: seq<Encumbrance>)
    ensures Reaches(q, right, cs, 3) <==> SomeUnclassifiable(q, right, cs)
    ensures Reaches(q, right, cs, 2) <==> SomeUnclassifiable(q, right, cs) || SomeConsumed(q, right, cs)
    ensures Reaches(q, right, cs, 1) <==>
      || SomeUnclassifiable(q, right, cs) || SomeConsumed(q, right, cs)
      || (q.profile.constrainsHolderTransition && SomeInForce(q, right, cs))
  {
    forall c { RankOfOne(q, right, c); }
  }

  /** An exact reading of each status in terms of the records. */
  lemma StatusMeans(q: Question, right: string, cs: seq<Encumbrance>, status: Status)
    ensures StatusOver(q, right, cs) == status <==> StatusGround(q, right, cs, status)
  {
    ReachingMeans(q, right, cs);
    StatusReaches(q, right, cs, 1);
    StatusReaches(q, right, cs, 2);
    StatusReaches(q, right, cs, 3);
  }

  lemma ApplicableAre(q: Question, right: string, cs: seq<Encumbrance>, e: Applied)
    ensures e in Evaluation(q, right, cs).applicable <==> exists c :: c in cs && Judge(q, right, c) == Bears(e)
  {
    var bearing := Bearing(q, right);
    SortMembers(AppliedId, AppliedBy(q, right, cs));
    SelectMembers(bearing, cs, e);
    forall c ensures bearing(c) == Some(e) <==> Judge(q, right, c) == Bears(e) { }
    if c :| c in cs && bearing(c) == Some(e) { assert Judge(q, right, c) == Bears(e); }
    if c :| c in cs && Judge(q, right, c) == Bears(e) { assert bearing(c) == Some(e); }
  }

  lemma NonApplicableAre(q: Question, right: string, cs: seq<Encumbrance>, e: Unapplied)
    ensures e in Evaluation(q, right, cs).nonApplicable <==> exists c :: c in cs && Judge(q, right, c) == Dismissed(e)
  {
    var dismissing := Dismissing(q, right);
    SortMembers(UnappliedId, DismissedBy(q, right, cs));
    SelectMembers(dismissing, cs, e);
    forall c ensures dismissing(c) == Some(e) <==> Judge(q, right, c) == Dismissed(e) { }
    if c :| c in cs && dismissing(c) == Some(e) { assert Judge(q, right, c) == Dismissed(e); }
    if c :| c in cs && Judge(q, right, c) == Dismissed(e) { assert dismissing(c) == Some(e); }
  }

  lemma InvalidAre(q: Question, right: string, cs: seq<Encumbrance>, e: Unclassified)
    ensures e in Evaluation(q, right, cs).invalid <==> exists c :: c in cs && Judge(q, right, c) == Undecided(e)
  {
    var undeciding := Undeciding(q, right);
    SortMembers(UnclassifiedId, UndecidedBy(q, right, cs));
    SelectMembers(undeciding, cs, e);
    forall c ensures undeciding(c) == Some(e) <==> Judge(q, right, c) == Undecided(e) { }
    if c :| c in cs && undeciding(c) == Some(e) { assert Judge(q, right, c) == Undecided(e); }
    if c :| c in cs && Judge(q, right, c) == Undecided(e) { assert undeciding(c) == Some(e); }
  }

  /** What the verdict lists: the judgement of every record, each in its list and in ascending order of ids. */
  ghost predicate ListsJudgements(q: Question, right: string, cs: seq<Encumbrance>, r: Applicability) {
    && (forall e :: e in r.applicable <==> exists c :: c in cs && Judge(q, right, c) == Bears(e))
    && (forall e :: e in r.nonApplicable <==> exists c :: c in cs && Judge(q, right, c) == Dismissed(e))
    && (forall e :: e in r.invalid <==> exists c :: c in cs && Judge(q, right, c) == Undecided(e))
    && SortedBy(AppliedId, r.applicable) && SortedBy(UnappliedId, r.nonApplicable) && SortedBy(UnclassifiedId, r.invalid)
  }

  lemma EvaluationLists(q: Question, right: string, cs: seq<Encumbrance>)
    ensures ListsJudgements(q, right, cs, Evaluation(q, right, cs))
  {
    var r := Evaluation(q, right, cs);
    forall e ensures e in r.applicable <==> exists c :: c in cs && Judge(q, right, c) == Bears(e) { ApplicableAre(q, right, cs, e); }
    forall e ensures e in r.nonApplicable <==> exists c :: c in cs && Judge(q, right, c) == Dismissed(e) { NonApplicableAre(q, right, cs, e); }
    forall e ensures e in r.invalid <==> exists c :: c in cs && Judge(q, right, c) == Undecided(e) { InvalidAre(q, right, cs, e); }
  }

  lemma IdleProfilesBearNothing(q: Question, right: string, c: Encumbrance)
    requires q.profile.consumesConstraintClasses == [] && !q.profile.constrainsHolderTransition
    ensures !Judge(q, right, c).Bears?
  {
  }

  /** An action that consumes no class and moves no holder authority is never found constrained. */
  lemma IdleProfilesAreNeverConstrained(q: Question, right: string, cs: seq<Encumbrance>)
    requires q.profile.consumesConstraintClasses == [] && !q.profile.constrainsHolderTransition
    ensures AppliedBy(q, right, cs) == []
    ensures StatusOver(q, right, cs) == Unconstrained || StatusOver(q, right, cs) == ConstraintStateInvalid
  {
    forall c ensures !Judge(q, right, c).Bears? { IdleProfilesBearNothing(q, right, c); }
    var applied := AppliedBy(q, right, cs);
    if applied != [] {
      SelectMembers(Bearing(q, right), cs, applied[0]);
    }
  }

  // ---- The same records in any order ------------------------------------------------------

  /** No two different records share an id. Repeating a record is allowed. */
  ghost predicate IdsIdentify(cs: seq<Encumbrance>) {
    forall c, d | c in cs && d in cs && c.id == d.id :: c == d
  }

  lemma SortedSelectionIgnoresOrder<U(!new)>(f: Encumbrance -> Option<U>, key: U -> string, xs: seq<Encumbrance>, ys: seq<Encumbrance>)
    requires multiset(xs) == multiset(ys) && IdsIdentify(xs)
    requires forall c | c in xs && f(c).Some? :: key(f(c).value) == c.id
    ensures SortBy(key, Select(f, xs)) == SortBy(key, Select(f, ys))
  {
    SelectPermute(f, xs, ys);
    forall u, v | u in Select(f, xs) && v in Select(f, xs) && key(u) == key(v) ensures u == v {
      SelectMembers(f, xs, u);
      SelectMembers(f, xs, v);
    }
    SortIgnoresOrder(key, Select(f, xs), Select(f, ys));
  }

  /** The verdict is a function of the records, not of the order they are read in. */
  lemma EvaluationIgnoresOrder(q: Question, right: string, xs: seq<Encumbrance>, ys: seq<Encumbrance>)
    requires multiset(xs) == multiset(ys) && IdsIdentify(xs)
    ensures Evaluation(q, right, xs) == Evaluation(q, right, ys)
  {
    forall c ensures NamesRecord(Judge(q, right, c), c) {
      JudgementNames(q, right, c);
    }
    SortedSelectionIgnoresOrder(Bearing(q, right), AppliedId, xs, ys);
    SortedSelectionIgnoresOrder(Dismissing(q, right), UnappliedId, xs, ys);
    SortedSelectionIgnoresOrder(Undeciding(q, right), UnclassifiedId, xs, ys);
    forall c ensures c in xs <==> c in ys { MemberOfPermutation(xs, ys, c); }
    StatusIgnoresOrder(q, right, xs, ys);
  }
}
