/**
 Collateralization terms and mandates: the containment test between granted and
 requested terms, the single function that authorizes one exercise, and the
 exact relation between the two.
 */
module CollateralMandate {
  import opened Options
  import opened Instants
  import opened Ordering
  import opened SafeIntegers
  import opened RightsScope
  import opened AuthorizationArtifact

  // ---- Terms --------------------------------------------------------------

  datatype SecuredAmount = SecuredAmount(minorUnits: int, currency: string)

  datatype Constraints = Constraints(
    maximumSecuredAmount: Option<SecuredAmount>,
    permittedJurisdictions: Option<seq<string>>,
    permittedRegistries: Option<seq<string>>,
    requiredPriorityRank: Option<int>,
    exclusive: Option<bool>,
    releaseEvidenceRequired: Option<bool>,
    additionalCollateralizationAllowed: bool)

  datatype Terms = Terms(
    rights: seq<string>,
    scope: Scope,
    securedObligationRef: string,
    securedObligationKind: Option<string>,
    securedPartyRef: string,
    executorRef: string,
    constraints: Constraints)

  predicate AmountWithin(inner: SecuredAmount, outer: SecuredAmount) {
    inner.currency == outer.currency && inner.minorUnits <= outer.minorUnits
  }

  /** An absent outer list restricts nothing; a restricted outer cannot contain an unrestricted inner. */
  predicate LabelListWithin(inner: Option<seq<string>>, outer: Option<seq<string>>) {
    outer.None? || (inner.Some? && forall entry | entry in inner.value :: entry in outer.value)
  }

  predicate MaximumWithin(inner: Option<SecuredAmount>, outer: Option<SecuredAmount>) {
    outer.None? || (inner.Some? && AmountWithin(inner.value, outer.value))
  }

  /** Rank 1 is the most senior, so narrower is numerically smaller. */
  predicate RankWithin(inner: Option<int>, outer: Option<int>) {
    outer.None? || (inner.Some? && inner.value <= outer.value)
  }

  predicate ConstraintsWithin(inner: Constraints, outer: Constraints) {
    && MaximumWithin(inner.maximumSecuredAmount, outer.maximumSecuredAmount)
    && LabelListWithin(inner.permittedJurisdictions, outer.permittedJurisdictions)
    && LabelListWithin(inner.permittedRegistries, outer.permittedRegistries)
    && RankWithin(inner.requiredPriorityRank, outer.requiredPriorityRank)
    && FlagWithin(inner.exclusive, outer.exclusive)
    && FlagWithin(inner.releaseEvidenceRequired, outer.releaseEvidenceRequired)
    && (inner.additionalCollateralizationAllowed ==> outer.additionalCollateralizationAllowed)
  }

  predicate TermsWithin(inner: Terms, outer: Terms) {
    && (forall right | right in inner.rights :: right in outer.rights)
    && ScopeWithin(inner.scope, outer.scope)
    && inner.securedObligationRef == outer.securedObligationRef
    && inner.securedObligationKind == outer.securedObligationKind
    && inner.securedPartyRef == outer.securedPartyRef
    && inner.executorRef == outer.executorRef
    && ConstraintsWithin(inner.constraints, outer.constraints)
  }

  predicate TermsEquals(a: Terms, b: Terms) {
    && StringArrayEquals(a.rights, b.rights)
    && ScopeEquals(a.scope, b.scope)
    && a.securedObligationRef == b.securedObligationRef
    && a.securedObligationKind == b.securedObligationKind
    && a.securedPartyRef == b.securedPartyRef
    && a.executorRef == b.executorRef
    && a.constraints.maximumSecuredAmount == b.constraints.maximumSecuredAmount
    && OptionalArrayEquals(a.constraints.permittedJurisdictions, b.constraints.permittedJurisdictions)
    && OptionalArrayEquals(a.constraints.permittedRegistries, b.constraints.permittedRegistries)
    && a.constraints.requiredPriorityRank == b.constraints.requiredPriorityRank
    && a.constraints.exclusive == b.constraints.exclusive
    && a.constraints.releaseEvidenceRequired == b.constraints.releaseEvidenceRequired
    && a.constraints.additionalCollateralizationAllowed == b.constraints.additionalCollateralizationAllowed
  }

  predicate ValidLabels(list: Option<seq<string>>) {
    list.Some? ==> list.value != [] && "" !in list.value
  }

  /** What the terms validator accepts. */
  predicate WellFormedTerms(t: Terms) {
    && t.rights != [] && NoRepeats(t.rights) && (forall right | right in t.rights :: right in RIGHT_TYPES)
    && WellFormedScope(t.scope)
    && t.securedObligationRef != "" && t.securedPartyRef != "" && t.executorRef != ""
    && t.securedObligationKind != Some("")
    && (t.constraints.maximumSecuredAmount.Some? ==>
          && 0 <= t.constraints.maximumSecuredAmount.value.minorUnits <= MAX_SAFE_INTEGER
          && t.constraints.maximumSecuredAmount.value.currency != "")
    && ValidLabels(t.constraints.permittedJurisdictions)
    && ValidLabels(t.constraints.permittedRegistries)
    && (t.constraints.requiredPriorityRank.Some? ==> 1 <= t.constraints.requiredPriorityRank.value <= MAX_SAFE_INTEGER)
  }

  // ---- Authorization ------------------------------------------------------

  datatype Mandate = Mandate(status: Status, effectiveFrom: Instant, expiresAt: Instant, terms: Terms)

  /** One external arrangement as an executor reports it. */
  datatype Exercise = Exercise(
    executorRef: string,
    securedObligationRef: string,
    securedPartyRef: string,
    rights: seq<string>,
    scope: Scope,
    at: Instant,
    securedAmount: Option<SecuredAmount>,
    externalRegistry: Option<string>,
    jurisdiction: Option<string>,
    priorityRank: Option<int>)

  /** An exercise together with what the mandate's own record says was committed before it. */
  datatype Attempt = Attempt(exercise: Exercise, alreadyCommittedScope: Option<Scope>, priorExecutionCount: Option<int>)

  datatype RefusalCode =
    | INVALID_EXERCISE_INSTANT
    | MANDATE_REVOKED
    | MANDATE_NOT_YET_EFFECTIVE
    | MANDATE_EXPIRED
    | EXECUTOR_NOT_AUTHORIZED
    | SECURED_OBLIGATION_NOT_AUTHORIZED
    | SECURED_PARTY_NOT_AUTHORIZED
    | RIGHTS_NOT_AUTHORIZED
    | SCOPE_EXCEEDS_MANDATE
    | CUMULATIVE_SCOPE_EXCEEDS_MANDATE
    | ADDITIONAL_COLLATERALIZATION_PROHIBITED
    | SECURED_AMOUNT_EXCEEDS_MANDATE
    | REGISTRY_NOT_PERMITTED
    | JURISDICTION_NOT_PERMITTED
    | PRIORITY_RANK_NOT_AUTHORIZED

  predicate Permits(list: Option<seq<string>>, entry: Option<string>) {
    list.None? || (entry.Some? && entry.value in list.value)
  }

  predicate CumulativelyWithin(committed: Option<Scope>, scope: Scope, ceiling: Scope) {
    committed.None? || (var total := ScopeSum(committed.value, scope); total.Some? && ScopeWithin(total.value, ceiling))
  }

  /** The first ground for refusing the attempt, if there is one. */
  function Refusal(mandate: Mandate, attempt: Attempt): Option<RefusalCode> {
    var terms, exercise := mandate.terms, attempt.exercise;
    var constraints := terms.constraints;
    var prior := if attempt.priorExecutionCount.Some? then attempt.priorExecutionCount.value else 0;
    if mandate.status == Revoked then Some(MANDATE_REVOKED)
    else if exercise.at == Unreadable then Some(INVALID_EXERCISE_INSTANT)
    else if Less(exercise.at, mandate.effectiveFrom) then Some(MANDATE_NOT_YET_EFFECTIVE)
    else if GreaterOrEqual(exercise.at, mandate.expiresAt) then Some(MANDATE_EXPIRED)
    else if exercise.executorRef != terms.executorRef then Some(EXECUTOR_NOT_AUTHORIZED)
    else if exercise.securedObligationRef != terms.securedObligationRef then Some(SECURED_OBLIGATION_NOT_AUTHORIZED)
    else if exercise.securedPartyRef != terms.securedPartyRef then Some(SECURED_PARTY_NOT_AUTHORIZED)
    else if exercise.rights == [] || exists right | right in exercise.rights :: right !in terms.rights then
      Some(RIGHTS_NOT_AUTHORIZED)
    else if !ScopeWithin(exercise.scope, terms.scope) then Some(SCOPE_EXCEEDS_MANDATE)
    else if prior > 0 && !constraints.additionalCollateralizationAllowed then Some(ADDITIONAL_COLLATERALIZATION_PROHIBITED)
    else if !CumulativelyWithin(attempt.alreadyCommittedScope, exercise.scope, terms.scope) then
      Some(CUMULATIVE_SCOPE_EXCEEDS_MANDATE)
    else if !MaximumWithin(exercise.securedAmount, constraints.maximumSecuredAmount) then
      Some(SECURED_AMOUNT_EXCEEDS_MANDATE)
    else if !Permits(constraints.permittedRegistries, exercise.externalRegistry) then Some(REGISTRY_NOT_PERMITTED)
    else if !Permits(constraints.permittedJurisdictions, exercise.jurisdiction) then Some(JURISDICTION_NOT_PERMITTED)
    else if !RankWithin(exercise.priorityRank, constraints.requiredPriorityRank) then Some(PRIORITY_RANK_NOT_AUTHORIZED)
    else None
  }

  predicate Authorizes(mandate: Mandate, attempt: Attempt) {
    Refusal(mandate, attempt).None?
  }

  // ---- Refusals, told apart from the order in which they are checked --------

  /** What each refusal says about the mandate and the attempt, on its own. */
  predicate Ground(mandate: Mandate, attempt: Attempt, code: RefusalCode) {
    var terms, e := mandate.terms, attempt.exercise;
    var limits, committed := terms.constraints, attempt.alreadyCommittedScope;
    match code
    case MANDATE_REVOKED => mandate.status == Revoked
    case INVALID_EXERCISE_INSTANT => e.at.Unreadable?
    case MANDATE_NOT_YET_EFFECTIVE => e.at.At? && mandate.effectiveFrom.At? && e.at.ms < mandate.effectiveFrom.ms
    case MANDATE_EXPIRED => e.at.At? && mandate.expiresAt.At? && mandate.expiresAt.ms <= e.at.ms
    case EXECUTOR_NOT_AUTHORIZED => e.executorRef != terms.executorRef
    case SECURED_OBLIGATION_NOT_AUTHORIZED => e.securedObligationRef != terms.securedObligationRef
    case SECURED_PARTY_NOT_AUTHORIZED => e.securedPartyRef != terms.securedPartyRef
    case RIGHTS_NOT_AUTHORIZED => !(|e.rights| > 0 && forall right | right in e.rights :: right in terms.rights)
    case SCOPE_EXCEEDS_MANDATE => !(Commensurable(e.scope, terms.scope) && Amount(e.scope) <= Amount(terms.scope))
    case ADDITIONAL_COLLATERALIZATION_PROHIBITED =>
      !limits.additionalCollateralizationAllowed && attempt.priorExecutionCount.Some? && attempt.priorExecutionCount.value > 0
    case CUMULATIVE_SCOPE_EXCEEDS_MANDATE =>
      committed.Some? && !(
        Commensurable(committed.value, e.scope) && Commensurable(e.scope, terms.scope)
        && Add(Amount(committed.value), Amount(e.scope)) <= Amount(terms.scope))
    case SECURED_AMOUNT_EXCEEDS_MANDATE =>
      limits.maximumSecuredAmount.Some? && !(
        e.securedAmount.Some? && e.securedAmount.value.currency == limits.maximumSecuredAmount.value.currency
        && e.securedAmount.value.minorUnits <= limits.maximumSecuredAmount.value.minorUnits)
    case REGISTRY_NOT_PERMITTED =>
      limits.permittedRegistries.Some? && !(e.externalRegistry.Some? && e.externalRegistry.value in limits.permittedRegistries.value)
    case JURISDICTION_NOT_PERMITTED =>
      limits.permittedJurisdictions.Some? && !(e.jurisdiction.Some? && e.jurisdiction.value in limits.permittedJurisdictions.value)
    case PRIORITY_RANK_NOT_AUTHORIZED =>
      limits.requiredPriorityRank.Some? && !(e.priorityRank.Some? && e.priorityRank.value <= limits.requiredPriorityRank.value)
  }

  /** Which of several grounds is reported. */
  function Precedence(code: RefusalCode): nat {
    match code
    case MANDATE_REVOKED => 0
    case INVALID_EXERCISE_INSTANT => 1
    case MANDATE_NOT_YET_EFFECTIVE => 2
    case MANDATE_EXPIRED => 3
    case EXECUTOR_NOT_AUTHORIZED => 4
    case SECURED_OBLIGATION_NOT_AUTHORIZED => 5
    case SECURED_PARTY_NOT_AUTHORIZED => 6
    case RIGHTS_NOT_AUTHORIZED => 7
    case SCOPE_EXCEEDS_MANDATE => 8
    case ADDITIONAL_COLLATERALIZATION_PROHIBITED => 9
    case CUMULATIVE_SCOPE_EXCEEDS_MANDATE => 10
    case SECURED_AMOUNT_EXCEEDS_MANDATE => 11
    case REGISTRY_NOT_PERMITTED => 12
    case JURISDICTION_NOT_PERMITTED => 13
    case PRIORITY_RANK_NOT_AUTHORIZED => 14
  }

  lemma CumulativeGround(mandate: Mandate, attempt: Attempt)
    ensures Ground(mandate, attempt, CUMULATIVE_SCOPE_EXCEEDS_MANDATE)
      <==> !CumulativelyWithin(attempt.alreadyCommittedScope, attempt.exercise.scope, mandate.terms.scope)
    ensures Ground(mandate, attempt, SCOPE_EXCEEDS_MANDATE) <==> !ScopeWithin(attempt.exercise.scope, mandate.terms.scope)
  {
    var scope, ceiling := attempt.exercise.scope, mandate.terms.scope;
    WithinIsPartialOrder(scope, ceiling, ceiling);
    if attempt.alreadyCommittedScope.Some? {
      SumIsPartialAndCommutative(attempt.alreadyCommittedScope.value, scope);
    }
  }

  /** An attempt is refused exactly when there is a ground for it, and then for the ground that comes first. */
  lemma RefusalIsTheFirstGround(mandate: Mandate, attempt: Attempt, code: RefusalCode)
    ensures Refusal(mandate, attempt) == Some(code) ==> Ground(mandate, attempt, code)
    ensures Ground(mandate, attempt, code) ==>
      Refusal(mandate, attempt).Some? && Precedence(Refusal(mandate, attempt).value) <= Precedence(code)
  {
    CumulativeGround(mandate, attempt);
  }

  // ---- Containment as an order ---------------------------------------------

  /** Containment is a preorder, and equal terms contain each other. */
  lemma TermsWithinIsPreorder(a: Terms, b: Terms, c: Terms)
    ensures TermsWithin(a, a)
    ensures TermsWithin(a, b) && TermsWithin(b, c) ==> TermsWithin(a, c)
  {
    WithinIsPartialOrder(a.scope, b.scope, c.scope);
  }

  lemma EqualTermsContainEachOther(a: Terms, b: Terms)
    requires TermsEquals(a, b)
    ensures TermsWithin(a, b) && TermsWithin(b, a)
  {
    var x, y := a.constraints, b.constraints;
    SameMembers(a.rights, b.rights);
    WithinIsPartialOrder(a.scope, b.scope, a.scope);
    if x.permittedJurisdictions.Some? {
      SameMembers(x.permittedJurisdictions.value, y.permittedJurisdictions.value);
    }
    if x.permittedRegistries.Some? {
      SameMembers(x.permittedRegistries.value, y.permittedRegistries.value);
    }
  }

  predicate SameEntries(a: seq<string>, b: seq<string>) {
    multiset(a) == multiset(b)
  }

  predicate SameOptionalEntries(a: Option<seq<string>>, b: Option<seq<string>>) {
    a.Some? == b.Some? && (a.Some? ==> SameEntries(a.value, b.value))
  }

  lemma OptionalEntriesIff(a: Option<seq<string>>, b: Option<seq<string>>)
    ensures OptionalArrayEquals(a, b) <==> SameOptionalEntries(a, b)
  {
    if a.Some? && b.Some? { StringArrayEqualsIsMultisetEquality(a.value, b.value); }
  }

  /** The rest of the terms, apart from their lists. */
  predicate SameButForLists(a: Terms, b: Terms) {
    var x, y := a.constraints, b.constraints;
    && a.(rights := [], constraints := x.(permittedJurisdictions := None, permittedRegistries := None))
       == b.(rights := [], constraints := y.(permittedJurisdictions := None, permittedRegistries := None))
  }

  /** Equal terms are the same but for the order of their lists. */
  lemma TermsEqualsIff(a: Terms, b: Terms)
    ensures TermsEquals(a, b) <==>
      && SameButForLists(a, b)
      && SameEntries(a.rights, b.rights)
      && SameOptionalEntries(a.constraints.permittedJurisdictions, b.constraints.permittedJurisdictions)
      && SameOptionalEntries(a.constraints.permittedRegistries, b.constraints.permittedRegistries)
  {
    WithinIsPartialOrder(a.scope, b.scope, a.scope);
    StringArrayEqualsIsMultisetEquality(a.rights, b.rights);
    OptionalEntriesIff(a.constraints.permittedJurisdictions, b.constraints.permittedJurisdictions);
    OptionalEntriesIff(a.constraints.permittedRegistries, b.constraints.permittedRegistries);
  }

  // ---- Containment and authorization ---------------------------------------

  /** The part of containment that authorization can observe. */
  predicate EnforcedWithin(inner: Terms, outer: Terms) {
    && (forall right | right in inner.rights :: right in outer.rights)
    && ScopeWithin(inner.scope, outer.scope)
    && inner.securedObligationRef == outer.securedObligationRef
    && inner.securedPartyRef == outer.securedPartyRef
    && inner.executorRef == outer.executorRef
    && MaximumWithin(inner.constraints.maximumSecuredAmount, outer.constraints.maximumSecuredAmount)
    && LabelListWithin(inner.constraints.permittedJurisdictions, outer.constraints.permittedJurisdictions)
    && LabelListWithin(inner.constraints.permittedRegistries, outer.constraints.permittedRegistries)
    && RankWithin(inner.constraints.requiredPriorityRank, outer.constraints.requiredPriorityRank)
    && (inner.constraints.additionalCollateralizationAllowed ==> outer.constraints.additionalCollateralizationAllowed)
  }

  /** The part that is only recorded: an obligation's label and two declarations. */
  predicate RecordedWithin(inner: Terms, outer: Terms) {
    && inner.securedObligationKind == outer.securedObligationKind
    && FlagWithin(inner.constraints.exclusive, outer.constraints.exclusive)
    && FlagWithin(inner.constraints.releaseEvidenceRequired, outer.constraints.releaseEvidenceRequired)
  }

  predicate SameStatusAndWindow(a: Mandate, b: Mandate) {
    a.status == b.status && a.effectiveFrom == b.effectiveFrom && a.expiresAt == b.expiresAt
  }

  /** Whatever the contained terms authorize, the containing terms authorize. */
  lemma ContainmentIsSound(inner: Mandate, outer: Mandate, attempt: Attempt)
    requires EnforcedWithin(inner.terms, outer.terms) && SameStatusAndWindow(inner, outer)
    requires Authorizes(inner, attempt)
    ensures Authorizes(outer, attempt)
  {
    WithinIsPartialOrder(attempt.exercise.scope, inner.terms.scope, outer.terms.scope);
    if attempt.alreadyCommittedScope.Some? {
      var total := ScopeSum(attempt.alreadyCommittedScope.value, attempt.exercise.scope).value;
      WithinIsPartialOrder(total, inner.terms.scope, outer.terms.scope);
    }
  }

  /** A mandate under which some exercise is possible: in force at `at`, naming a right, with no empty allow-list. */
  predicate Exercisable(mandate: Mandate, at: Instant) {
    && mandate.status == Active
    && at.At? && !Less(at, mandate.effectiveFrom) && !GreaterOrEqual(at, mandate.expiresAt)
    && mandate.terms.rights != []
    && mandate.terms.constraints.permittedJurisdictions != Some([])
    && mandate.terms.constraints.permittedRegistries != Some([])
  }

  function FirstOf(labels: Option<seq<string>>): Option<string> {
    if labels.None? || labels.value == [] then None else Some(labels.value[0])
  }

  /** The exercise that claims everything the mandate offers. */
  function FullestExercise(terms: Terms, at: Instant): Exercise {
    Exercise(
      terms.executorRef, terms.securedObligationRef, terms.securedPartyRef, terms.rights, terms.scope, at,
      terms.constraints.maximumSecuredAmount,
      FirstOf(terms.constraints.permittedRegistries),
      FirstOf(terms.constraints.permittedJurisdictions),
      terms.constraints.requiredPriorityRank)
  }

  /** What the evidence validator accepts of an exercise. */
  predicate AcceptableEvidence(e: Exercise) {
    && e.executorRef != "" && e.securedObligationRef != "" && e.securedPartyRef != ""
    && e.rights != [] && NoRepeats(e.rights) && (forall right | right in e.rights :: right in RIGHT_TYPES)
    && WellFormedScope(e.scope)
    && (e.securedAmount.Some? ==> 0 <= e.securedAmount.value.minorUnits <= MAX_SAFE_INTEGER && e.securedAmount.value.currency != "")
    && e.externalRegistry != Some("") && e.jurisdiction != Some("")
    && (e.priorityRank.Some? ==> 1 <= e.priorityRank.value <= MAX_SAFE_INTEGER)
  }

  /** The exercise claims all that the terms offer, under any of the labels they permit. */
  predicate ClaimsAll(terms: Terms, e: Exercise) {
    var limits := terms.constraints;
    && e.executorRef == terms.executorRef && e.securedObligationRef == terms.securedObligationRef && e.securedPartyRef == terms.securedPartyRef
    && e.rights == terms.rights && e.scope == terms.scope
    && e.securedAmount == limits.maximumSecuredAmount && e.priorityRank == limits.requiredPriorityRank
    && Names(e.externalRegistry, limits.permittedRegistries) && Names(e.jurisdiction, limits.permittedJurisdictions)
  }

  /** One of the labels listed, or none where there is no list. */
  predicate Names(name: Option<string>, list: Option<seq<string>>) {
    name.Some? == list.Some? && (name.Some? ==> name.value in list.value)
  }

  /**
   Terms are well-formed exactly when some exercise can claim all they offer, the evidence of
   every such exercise is acceptable, and the kind of the obligation, which is only recorded, is not empty.
   */
  lemma WellFormedTermsIff(terms: Terms)
    ensures WellFormedTerms(terms) <==>
      && terms.securedObligationKind != Some("")
      && (exists e :: ClaimsAll(terms, e))
      && (forall e :: ClaimsAll(terms, e) ==> AcceptableEvidence(e))
  {
    var limits, fullest := terms.constraints, FullestExercise(terms, Unreadable);
    if WellFormedTerms(terms) {
      assert ClaimsAll(terms, fullest);
    }
    if exists e :: ClaimsAll(terms, e) {
      assert ClaimsAll(terms, fullest);
      if limits.permittedRegistries.Some? && "" in limits.permittedRegistries.value {
        assert ClaimsAll(terms, fullest.(externalRegistry := Some("")));
      }
      if limits.permittedJurisdictions.Some? && "" in limits.permittedJurisdictions.value {
        assert ClaimsAll(terms, fullest.(jurisdiction := Some("")));
      }
    }
  }

  /** And whoever claims all of it, while the mandate is in force and unused, is authorized. */
  lemma ClaimingAllIsAuthorized(mandate: Mandate, e: Exercise)
    requires ClaimsAll(mandate.terms, e) && Exercisable(mandate, e.at)
    ensures Authorizes(mandate, Attempt(e, None, None))
  {
    WithinIsPartialOrder(e.scope, e.scope, e.scope);
  }

  /** Containment refuses nothing it could have allowed: where it fails, some attempt is authorized inside and refused outside. */
  lemma ContainmentIsTight(inner: Mandate, outer: Mandate, at: Instant) returns (attempt: Attempt)
    requires SameStatusAndWindow(inner, outer) && Exercisable(inner, at)
    requires !EnforcedWithin(inner.terms, outer.terms)
    ensures Authorizes(inner, attempt) && !Authorizes(outer, attempt)
  {
    var x, y := inner.terms, outer.terms;
    WithinIsPartialOrder(x.scope, x.scope, x.scope);
    attempt := Attempt(FullestExercise(x, at), None, None);
    if !(forall right | right in x.rights :: right in y.rights) {
      var right :| right in x.rights && right !in y.rights;
      attempt := attempt.(exercise := attempt.exercise.(rights := [right]));
      assert right in attempt.exercise.rights;
    } else if !LabelListWithin(x.constraints.permittedJurisdictions, y.constraints.permittedJurisdictions) {
      if x.constraints.permittedJurisdictions.Some? {
        var entry :| entry in x.constraints.permittedJurisdictions.value && entry !in y.constraints.permittedJurisdictions.value;
        attempt := attempt.(exercise := attempt.exercise.(jurisdiction := Some(entry)));
      }
    } else if !LabelListWithin(x.constraints.permittedRegistries, y.constraints.permittedRegistries) {
      if x.constraints.permittedRegistries.Some? {
        var entry :| entry in x.constraints.permittedRegistries.value && entry !in y.constraints.permittedRegistries.value;
        attempt := attempt.(exercise := attempt.exercise.(externalRegistry := Some(entry)));
      }
    } else if x.constraints.additionalCollateralizationAllowed && !y.constraints.additionalCollateralizationAllowed {
      attempt := attempt.(priorExecutionCount := Some(1));
    }
  }

  /** For an exercisable mandate, enforced containment is exactly inclusion of what is authorized. */
  lemma ContainmentIsExact(inner: Mandate, outer: Mandate, at: Instant)
    requires SameStatusAndWindow(inner, outer) && Exercisable(inner, at)
    ensures (forall attempt :: Authorizes(inner, attempt) ==> Authorizes(outer, attempt))
      <==> EnforcedWithin(inner.terms, outer.terms)
    ensures TermsWithin(inner.terms, outer.terms)
      <==> EnforcedWithin(inner.terms, outer.terms) && RecordedWithin(inner.terms, outer.terms)
  {
    if EnforcedWithin(inner.terms, outer.terms) {
      forall attempt | Authorizes(inner, attempt) ensures Authorizes(outer, attempt) {
        ContainmentIsSound(inner, outer, attempt);
      }
    } else {
      var attempt := ContainmentIsTight(inner, outer, at);
    }
  }
}
