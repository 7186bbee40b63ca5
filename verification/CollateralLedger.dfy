/**
 Recording executions under a collateralization mandate: the running total each
 authorization is measured against, what any accepted sequence amounts to, and
 the store that keeps the records.
 */
module CollateralLedger {
  import opened Options
  import opened Lists
  import opened Instants
  import opened SafeIntegers
  import opened RightsScope
  import opened AuthorizationArtifact
  import opened CollateralMandate

  // ---- One record ---------------------------------------------------------

  datatype MandateRecord = MandateRecord(mandate: Mandate, committedScope: Option<Scope>, executionCount: nat)

  function Unexercised(mandate: Mandate): MandateRecord {
    MandateRecord(mandate, None, 0)
  }

  function AttemptUnder(record: MandateRecord, exercise: Exercise): Attempt {
    Attempt(exercise, record.committedScope, Some(record.executionCount))
  }

  function NextCommittedScope(current: Option<Scope>, addition: Scope): Option<Scope> {
    if current.None? then Some(addition) else ScopeSum(current.value, addition)
  }

  /** The record after one authorized execution, or nothing when it is refused. */
  function Exercised(record: MandateRecord, exercise: Exercise): Option<MandateRecord> {
    var next := NextCommittedScope(record.committedScope, exercise.scope);
    if !Authorizes(record.mandate, AttemptUnder(record, exercise)) || next.None? then None
    else Some(record.(committedScope := next, executionCount := record.executionCount + 1))
  }

  /** The record after a whole sequence of executions, each authorized against the total of those before it. */
  function ExercisedAll(record: MandateRecord, exercises: seq<Exercise>): Option<MandateRecord> {
    if exercises == [] then Some(record)
    else
      var before := ExercisedAll(record, exercises[..|exercises| - 1]);
      if before.None? then None else Exercised(before.value, exercises[|exercises| - 1])
  }

  /** The guard for incommensurable totals never fires: authorization has refused them already. */
  lemma AuthorizedScopesAlwaysAdd(record: MandateRecord, exercise: Exercise)
    ensures Authorizes(record.mandate, AttemptUnder(record, exercise)) <==> Exercised(record, exercise).Some?
  {
  }

  // ---- What granted terms accept, requested terms accept --------------------

  /** Step for step, and with the same running total, for runs of any length. */
  lemma {:induction false} RunsInsideRunOutside(inner: Mandate, outer: Mandate, exercises: seq<Exercise>)
    requires TermsWithin(inner.terms, outer.terms) && SameStatusAndWindow(inner, outer)
    requires ExercisedAll(Unexercised(inner), exercises).Some?
    ensures ExercisedAll(Unexercised(outer), exercises)
      == Some(ExercisedAll(Unexercised(inner), exercises).value.(mandate := outer))
  {
    RecordKeepsMandate(Unexercised(inner), exercises);
    if exercises != [] {
      var n := |exercises| - 1;
      RunsInsideRunOutside(inner, outer, exercises[..n]);
      var before := ExercisedAll(Unexercised(inner), exercises[..n]).value;
      RecordKeepsMandate(Unexercised(inner), exercises[..n]);
      ContainmentIsSound(inner, outer, AttemptUnder(before, exercises[n]));
    }
  }

  lemma {:induction false} RecordKeepsMandate(record: MandateRecord, exercises: seq<Exercise>)
    requires ExercisedAll(record, exercises).Some?
    ensures var after := ExercisedAll(record, exercises).value;
      && after.mandate == record.mandate
      && after.executionCount == record.executionCount + |exercises|
      && (record.committedScope.Some? || exercises != [] ==> after.committedScope.Some?)
  {
    if exercises != [] {
      RecordKeepsMandate(record, exercises[..|exercises| - 1]);
    }
  }

  // ---- The closed form of a run ---------------------------------------------

  function Total(exercises: seq<Exercise>): int {
    if exercises == [] then 0
    else Total(exercises[..|exercises| - 1]) + Amount(exercises[|exercises| - 1].scope)
  }

  /** What the evidence validator asks of a committed scope. */
  predicate ScopesValid(exercises: seq<Exercise>) {
    forall e | e in exercises :: WellFormedScope(e.scope)
  }

  /** Every exercise is authorized on its own, more than one only if allowed, and together they fit. */
  predicate FitTogether(mandate: Mandate, exercises: seq<Exercise>) {
    && (forall e | e in exercises :: Authorizes(mandate, Attempt(e, None, None)))
    && (|exercises| > 1 ==> mandate.terms.constraints.additionalCollateralizationAllowed)
    && Total(exercises) <= Amount(mandate.terms.scope)
  }

  function Combined(mandate: Mandate, exercises: seq<Exercise>): MandateRecord {
    MandateRecord(
      mandate,
      if exercises == [] then None else Some(WithAmount(mandate.terms.scope, Total(exercises))),
      |exercises|)
  }

  lemma AuthorizationUnderTotal(mandate: Mandate, before: seq<Exercise>, e: Exercise)
    requires WellFormedScope(mandate.terms.scope) && WellFormedScope(e.scope) && Total(before) >= 0
    ensures Exercised(Combined(mandate, before), e).Some? <==>
      && Authorizes(mandate, Attempt(e, None, None))
      && (before != [] ==> mandate.terms.constraints.additionalCollateralizationAllowed)
      && (before != [] ==> Total(before) + Amount(e.scope) <= Amount(mandate.terms.scope))
    ensures Exercised(Combined(mandate, before), e).Some? && before != [] ==>
      Exercised(Combined(mandate, before), e).value.committedScope
        == Some(WithAmount(mandate.terms.scope, Total(before) + Amount(e.scope)))
  {
    var ceiling := mandate.terms.scope;
    if ScopeWithin(e.scope, ceiling) {
      SumWithinDecidesExactly(WithAmount(ceiling, Total(before)), e.scope, ceiling);
    }
  }

  lemma {:induction false} TotalBoundsCount(exercises: seq<Exercise>)
    requires ScopesValid(exercises)
    ensures |exercises| <= Total(exercises)
  {
    if exercises != [] {
      var n := |exercises| - 1;
      ValidPrefix(exercises);
      TotalBoundsCount(exercises[..n]);
      assert exercises[n] in exercises;
    }
  }

  lemma ValidPrefix(exercises: seq<Exercise>)
    requires exercises != [] && ScopesValid(exercises)
    ensures ScopesValid(exercises[..|exercises| - 1]) && WellFormedScope(exercises[|exercises| - 1].scope)
  {
    forall e | e in exercises[..|exercises| - 1] ensures e in exercises {}
    assert exercises[|exercises| - 1] in exercises;
  }

  lemma FitTogetherSnoc(mandate: Mandate, before: seq<Exercise>, last: Exercise)
    requires ScopesValid(before) && WellFormedScope(last.scope)
    ensures FitTogether(mandate, before + [last]) <==>
      && FitTogether(mandate, before)
      && Authorizes(mandate, Attempt(last, None, None))
      && (before != [] ==> mandate.terms.constraints.additionalCollateralizationAllowed)
      && Total(before) + Amount(last.scope) <= Amount(mandate.terms.scope)
  {
    var both := before + [last];
    assert both[..|both| - 1] == before;
    forall e ensures e in both <==> e in before || e == last { }
  }

  lemma FirstExerciseFits(mandate: Mandate, e: Exercise)
    requires Authorizes(mandate, Attempt(e, None, None))
    ensures Amount(e.scope) <= Amount(mandate.terms.scope) && WithAmount(mandate.terms.scope, Amount(e.scope)) == e.scope
  {
    WithinIsPartialOrder(e.scope, mandate.terms.scope, e.scope);
  }

  /** One more execution is accepted exactly when the longer sequence fits together. */
  lemma AcceptedStep(mandate: Mandate, before: seq<Exercise>, last: Exercise)
    requires WellFormedScope(mandate.terms.scope) && ScopesValid(before) && WellFormedScope(last.scope)
    requires FitTogether(mandate, before)
    ensures Exercised(Combined(mandate, before), last)
      == if FitTogether(mandate, before + [last]) then Some(Combined(mandate, before + [last])) else None
  {
    TotalBoundsCount(before);
    FitTogetherSnoc(mandate, before, last);
    AuthorizationUnderTotal(mandate, before, last);
    assert (before + [last])[..|before + [last]| - 1] == before;
    if before == [] && Authorizes(mandate, Attempt(last, None, None)) { FirstExerciseFits(mandate, last); }
  }

  /** A sequence is accepted exactly when it fits together, and then the total is the exact sum. */
  lemma {:induction false} AcceptedIffFits(mandate: Mandate, exercises: seq<Exercise>)
    requires WellFormedScope(mandate.terms.scope) && ScopesValid(exercises)
    ensures ExercisedAll(Unexercised(mandate), exercises)
      == if FitTogether(mandate, exercises) then Some(Combined(mandate, exercises)) else None
  {
    if exercises != [] {
      var n := |exercises| - 1;
      var before, last := exercises[..n], exercises[n];
      ValidPrefix(exercises);
      AcceptedIffFits(mandate, before);
      assert exercises == before + [last];
      if FitTogether(mandate, before) {
        AcceptedStep(mandate, before, last);
      } else {
        FitTogetherSnoc(mandate, before, last);
      }
    }
  }

  /** The folded total always exists, never leaves the mandate's scope and is a safe integer; executions are bounded by it. */
  lemma AcceptedRunsStayInside(mandate: Mandate, exercises: seq<Exercise>)
    requires WellFormedScope(mandate.terms.scope) && ScopesValid(exercises)
    requires ExercisedAll(Unexercised(mandate), exercises).Some?
    ensures var record := ExercisedAll(Unexercised(mandate), exercises).value;
      && record.executionCount == |exercises| <= Amount(mandate.terms.scope)
      && (!mandate.terms.constraints.additionalCollateralizationAllowed ==> |exercises| <= 1)
      && (exercises != [] ==>
            && record.committedScope.Some?
            && ScopeWithin(record.committedScope.value, mandate.terms.scope)
            && WellFormedScope(record.committedScope.value)
            && Amount(record.committedScope.value) == Total(exercises) >= |exercises|)
  {
    AcceptedIffFits(mandate, exercises);
    TotalBoundsCount(exercises);
  }

  lemma {:induction false} TotalOfConcatenation(a: seq<Exercise>, b: seq<Exercise>)
    ensures Total(a + b) == Total(a) + Total(b)
  {
    if b == [] {
      assert a + b == a;
    } else {
      assert (a + b)[..|a + b| - 1] == a + b[..|b| - 1];
      TotalOfConcatenation(a, b[..|b| - 1]);
    }
  }

  lemma TotalOfOne(e: Exercise)
    ensures Total([e]) == Amount(e.scope)
  {
    assert [e][..0] == [];
  }

  lemma {:induction false} TotalIgnoresOrder(a: seq<Exercise>, b: seq<Exercise>)
    requires multiset(a) == multiset(b)
    ensures Total(a) == Total(b)
  {
    if a == [] {
      assert |multiset(b)| == |b|;
    } else {
      var last, front := a[|a| - 1], a[..|a| - 1];
      assert a == front + [last];
      assert last in multiset(b);
      var before, after := SplitAround(b, last);
      assert multiset(front) == multiset(a) - multiset{last};
      TotalIgnoresOrder(front, before + after);
      TotalOfConcatenation(before, after);
      TotalOfConcatenation(before + [last], after);
      TotalOfConcatenation(before, [last]);
      TotalOfOne(last);
    }
  }

  /** If a sequence is accepted in one order it is accepted in every order, with the same record at the end. */
  lemma AcceptanceIgnoresOrder(mandate: Mandate, a: seq<Exercise>, b: seq<Exercise>)
    requires WellFormedScope(mandate.terms.scope) && ScopesValid(a)
    requires multiset(a) == multiset(b)
    ensures ScopesValid(b)
    ensures ExercisedAll(Unexercised(mandate), a) == ExercisedAll(Unexercised(mandate), b)
  {
    forall e ensures e in a <==> e in b {
      assert e in a <==> e in multiset(a);
      assert e in b <==> e in multiset(b);
    }
    assert |a| == |multiset(a)| == |multiset(b)| == |b|;
    TotalIgnoresOrder(a, b);
    AcceptedIffFits(mandate, a);
    AcceptedIffFits(mandate, b);
  }

  // ---- What the evidence validator is for -----------------------------------

  /** An accepted execution leaves the committed total where it was or higher exactly when its own amount is not negative. */
  lemma TotalNeverFallsIff(record: MandateRecord, e: Exercise)
    requires WellFormedScope(record.mandate.terms.scope)
    requires record.committedScope.Some? && IsSafe(Amount(record.committedScope.value))
    requires Exercised(record, e).Some?
    ensures Amount(Exercised(record, e).value.committedScope.value) >= Amount(record.committedScope.value)
      <==> Amount(e.scope) >= 0
  {
    var c, d := Amount(record.committedScope.value), Amount(e.scope);
    SumIsPartialAndCommutative(record.committedScope.value, e.scope);
    if c + d >= 0 {
      SafeBoundDecides(c, d, Amount(record.mandate.terms.scope));
    } else if c + d <= -TWO_TO_53 {
      RoundFromIsLarge(-(c + d), 2);
    }
  }

  /** Recording does not run the validator; evidence it would have refused is authorized, and does lower the total. */
  lemma UnvalidatedEvidenceCanLowerTheTotal() returns (record: MandateRecord, e: Exercise)
    ensures WellFormedScope(record.mandate.terms.scope) && record.committedScope == Some(Proportional(10))
    ensures !WellFormedScope(e.scope)
    ensures Exercised(record, e).Some? && Exercised(record, e).value.committedScope == Some(Proportional(5))
  {
    var terms := Terms(["ownership-interest"], Proportional(10), "loan", None, "lender", "agent",
                       Constraints(None, None, None, None, None, None, true));
    record := MandateRecord(Mandate(Active, At(0), At(100), terms), Some(Proportional(10)), 1);
    e := Exercise("agent", "loan", "lender", ["ownership-interest"], Proportional(-5), At(50), None, None, None, None);
    assert Add(10, -5) == 5;
  }
}
