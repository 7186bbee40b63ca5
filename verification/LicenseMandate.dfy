/**
 License mandates: the single function that authorizes one external grant, and
 the exact relation between containment of terms and what they authorize.
 */
module LicenseMandate {
  import opened Options
  import opened Instants
  import opened Ordering
  import opened Records
  import opened RightsScope
  import opened AuthorizationArtifact
  import opened LicenseTerms

  datatype Mandate = Mandate(status: Status, effectiveFrom: string, expiresAt: string, terms: Terms)

  /** One concrete license a caller proposes to grant. */
  datatype Attempt = Attempt(
    executedBy: string,
    licenseeRef: string,
    rights: seq<string>,
    grantedUses: seq<string>,
    exclusivity: Exclusivity,
    at: string,
    rightsScope: Option<Scope>,
    contexts: Option<Contexts>,
    licenseExpiresAt: Option<string>,
    licensedUnits: Option<Units>,
    hasExternalAgreementReference: Option<bool>,
    priorExecutionCount: Option<int>)

  datatype RefusalCode =
    | INVALID_EXERCISE_INSTANT
    | MANDATE_REVOKED
    | MANDATE_NOT_YET_EFFECTIVE
    | MANDATE_EXPIRED
    | EXECUTOR_NOT_AUTHORIZED
    | LICENSEE_NOT_AUTHORIZED
    | RIGHTS_NOT_AUTHORIZED
    | USES_NOT_AUTHORIZED
    | USE_PROHIBITED
    | EXCLUSIVITY_EXCEEDS_MANDATE
    | RIGHTS_SCOPE_EXCEEDS_MANDATE
    | CONTEXT_NOT_PERMITTED
    | LICENSE_TERM_EXCEEDS_MANDATE
    | LICENSED_UNITS_EXCEED_MANDATE
    | EXTERNAL_AGREEMENT_REFERENCE_REQUIRED
    | ADDITIONAL_LICENSES_PROHIBITED

  /** The first ground for refusing the attempt, if there is one. */
  function Refusal(parse: string -> Instant, mandate: Mandate, attempt: Attempt): Option<RefusalCode> {
    var terms, at := mandate.terms, parse(attempt.at);
    var constraints := terms.constraints;
    var prior := if attempt.priorExecutionCount.Some? then attempt.priorExecutionCount.value else 0;
    if mandate.status == Revoked then Some(MANDATE_REVOKED)
    else if at == Unreadable then Some(INVALID_EXERCISE_INSTANT)
    else if Less(at, parse(mandate.effectiveFrom)) then Some(MANDATE_NOT_YET_EFFECTIVE)
    else if GreaterOrEqual(at, parse(mandate.expiresAt)) then Some(MANDATE_EXPIRED)
    else if terms.executorRef.Some? && attempt.executedBy != terms.executorRef.value then Some(EXECUTOR_NOT_AUTHORIZED)
    else if attempt.licenseeRef != terms.licenseeRef && constraints.assignment != Permitted then Some(LICENSEE_NOT_AUTHORIZED)
    else if attempt.rights == [] || !AllIn(attempt.rights, terms.rights) then Some(RIGHTS_NOT_AUTHORIZED)
    else if attempt.grantedUses == [] || !AllIn(attempt.grantedUses, terms.permittedUses) then Some(USES_NOT_AUTHORIZED)
    else if constraints.prohibitedUses.Some? && !Disjoint(attempt.grantedUses, constraints.prohibitedUses.value) then
      Some(USE_PROHIBITED)
    else if ExclusivityRank(attempt.exclusivity) > ExclusivityRank(terms.exclusivity) then Some(EXCLUSIVITY_EXCEEDS_MANDATE)
    else if !RightsScopeWithin(attempt.rightsScope, terms.rightsScope) then Some(RIGHTS_SCOPE_EXCEEDS_MANDATE)
    else if !ContextsWithin(attempt.contexts, constraints.permittedContexts) then Some(CONTEXT_NOT_PERMITTED)
    else if !TermEndWithin(parse, attempt.licenseExpiresAt, constraints.maximumLicenseTermEndsAt) then
      Some(LICENSE_TERM_EXCEEDS_MANDATE)
    else if !UnitsWithin(attempt.licensedUnits, constraints.maximumLicensedUnits) then Some(LICENSED_UNITS_EXCEED_MANDATE)
    else if constraints.externalAgreementReferenceRequired == Some(true) && attempt.hasExternalAgreementReference != Some(true) then
      Some(EXTERNAL_AGREEMENT_REFERENCE_REQUIRED)
    else if prior > 0 && !constraints.additionalLicensesAllowed then Some(ADDITIONAL_LICENSES_PROHIBITED)
    else None
  }

  predicate Authorizes(parse: string -> Instant, mandate: Mandate, attempt: Attempt) {
    Refusal(parse, mandate, attempt).None?
  }

  /** What each refusal says about the mandate and the attempt, on its own. */
  predicate Ground(parse: string -> Instant, mandate: Mandate, attempt: Attempt, code: RefusalCode) {
    var terms, at := mandate.terms, parse(attempt.at);
    var limits := terms.constraints;
    match code
    case MANDATE_REVOKED => mandate.status == Revoked
    case INVALID_EXERCISE_INSTANT => at.Unreadable?
    case MANDATE_NOT_YET_EFFECTIVE => at.At? && parse(mandate.effectiveFrom).At? && at.ms < parse(mandate.effectiveFrom).ms
    case MANDATE_EXPIRED => at.At? && parse(mandate.expiresAt).At? && parse(mandate.expiresAt).ms <= at.ms
    case EXECUTOR_NOT_AUTHORIZED => terms.executorRef.Some? && terms.executorRef != Some(attempt.executedBy)
    case LICENSEE_NOT_AUTHORIZED => limits.assignment != Permitted && attempt.licenseeRef != terms.licenseeRef
    case RIGHTS_NOT_AUTHORIZED => !(|attempt.rights| > 0 && forall right | right in attempt.rights :: right in terms.rights)
    case USES_NOT_AUTHORIZED => !(|attempt.grantedUses| > 0 && forall use | use in attempt.grantedUses :: use in terms.permittedUses)
    case USE_PROHIBITED => limits.prohibitedUses.Some? && exists use | use in attempt.grantedUses :: use in limits.prohibitedUses.value
    case EXCLUSIVITY_EXCEEDS_MANDATE => !(attempt.exclusivity == NonExclusive || terms.exclusivity == Exclusive || attempt.exclusivity == terms.exclusivity)
    case RIGHTS_SCOPE_EXCEEDS_MANDATE =>
      attempt.rightsScope.Some? != terms.rightsScope.Some?
      || (attempt.rightsScope.Some? && !(
            Commensurable(attempt.rightsScope.value, terms.rightsScope.value)
            && Amount(attempt.rightsScope.value) <= Amount(terms.rightsScope.value)))
    case CONTEXT_NOT_PERMITTED => ContextsStray(attempt.contexts, limits.permittedContexts)
    case LICENSE_TERM_EXCEEDS_MANDATE =>
      limits.maximumLicenseTermEndsAt.Some?
      && (attempt.licenseExpiresAt.None?
          || (parse(attempt.licenseExpiresAt.value).At? && parse(limits.maximumLicenseTermEndsAt.value).At?
              && parse(limits.maximumLicenseTermEndsAt.value).ms < parse(attempt.licenseExpiresAt.value).ms))
    case LICENSED_UNITS_EXCEED_MANDATE =>
      limits.maximumLicensedUnits.Some? && !(
        attempt.licensedUnits.Some? && attempt.licensedUnits.value.unitDenomination == limits.maximumLicensedUnits.value.unitDenomination
        && attempt.licensedUnits.value.units <= limits.maximumLicensedUnits.value.units)
    case EXTERNAL_AGREEMENT_REFERENCE_REQUIRED =>
      limits.externalAgreementReferenceRequired == Some(true) && attempt.hasExternalAgreementReference != Some(true)
    case ADDITIONAL_LICENSES_PROHIBITED =>
      !limits.additionalLicensesAllowed && attempt.priorExecutionCount.Some? && attempt.priorExecutionCount.value > 0
  }

  /** Which of several grounds is reported: identity before permission, exhaustion last. */
  function Precedence(code: RefusalCode): nat {
    match code
    case MANDATE_REVOKED => 0
    case INVALID_EXERCISE_INSTANT => 1
    case MANDATE_NOT_YET_EFFECTIVE => 2
    case MANDATE_EXPIRED => 3
    case EXECUTOR_NOT_AUTHORIZED => 4
    case LICENSEE_NOT_AUTHORIZED => 5
    case RIGHTS_NOT_AUTHORIZED => 6
    case USES_NOT_AUTHORIZED => 7
    case USE_PROHIBITED => 8
    case EXCLUSIVITY_EXCEEDS_MANDATE => 9
    case RIGHTS_SCOPE_EXCEEDS_MANDATE => 10
    case CONTEXT_NOT_PERMITTED => 11
    case LICENSE_TERM_EXCEEDS_MANDATE => 12
    case LICENSED_UNITS_EXCEED_MANDATE => 13
    case EXTERNAL_AGREEMENT_REFERENCE_REQUIRED => 14
    case ADDITIONAL_LICENSES_PROHIBITED => 15
  }

  lemma ScopeGround(inner: Option<Scope>, outer: Option<Scope>)
    ensures RightsScopeWithin(inner, outer) <==>
      && inner.Some? == outer.Some?
      && (inner.Some? ==> Commensurable(inner.value, outer.value) && Amount(inner.value) <= Amount(outer.value))
  {
    if inner.Some? && outer.Some? { WithinIsPartialOrder(inner.value, outer.value, outer.value); }
  }

  lemma RankGround(inner: Exclusivity, outer: Exclusivity)
    ensures ExclusivityRank(inner) <= ExclusivityRank(outer) <==> inner == NonExclusive || outer == Exclusive || inner == outer
  {
  }

  lemma RefusalHasItsGround(parse: string -> Instant, mandate: Mandate, attempt: Attempt, code: RefusalCode)
    requires Refusal(parse, mandate, attempt) == Some(code)
    ensures Ground(parse, mandate, attempt, code)
  {
    ScopeGround(attempt.rightsScope, mandate.terms.rightsScope);
    RankGround(attempt.exclusivity, mandate.terms.exclusivity);
    ContextsWithinIff(attempt.contexts, mandate.terms.constraints.permittedContexts);
  }

  /** An attempt is refused exactly when there is a ground for it, and then for the ground that comes first. */
  lemma RefusalIsTheFirstGround(parse: string -> Instant, mandate: Mandate, attempt: Attempt, code: RefusalCode)
    ensures Refusal(parse, mandate, attempt) == Some(code) ==> Ground(parse, mandate, attempt, code)
    ensures Ground(parse, mandate, attempt, code) ==>
      Refusal(parse, mandate, attempt).Some? && Precedence(Refusal(parse, mandate, attempt).value) <= Precedence(code)
  {
    if Refusal(parse, mandate, attempt) == Some(code) {
      RefusalHasItsGround(parse, mandate, attempt, code);
    } else {
      ScopeGround(attempt.rightsScope, mandate.terms.rightsScope);
      RankGround(attempt.exclusivity, mandate.terms.exclusivity);
      ContextsWithinIff(attempt.contexts, mandate.terms.constraints.permittedContexts);
    }
  }

  /** An authorized license reports, in every dimension its mandate restricts, at least one value and only permitted ones. */
  lemma AuthorizedStaysInContext(parse: string -> Instant, mandate: Mandate, attempt: Attempt, entry: (string, seq<string>))
    requires Authorizes(parse, mandate, attempt)
    requires mandate.terms.constraints.permittedContexts.Some? && entry in mandate.terms.constraints.permittedContexts.value
    ensures attempt.contexts.Some?
    ensures exists values :: (entry.0, values) in attempt.contexts.value && values != [] && forall value | value in values :: value in entry.1
  {
    ContextsWithinIff(attempt.contexts, mandate.terms.constraints.permittedContexts);
    var contexts := attempt.contexts.value;
    var k: nat :| k < |contexts| && FirstAt(contexts, entry.0, k) && |contexts[k].1| > 0 && forall value | value in contexts[k].1 :: value in entry.1;
    assert contexts[k] == (entry.0, contexts[k].1);
    assert (entry.0, contexts[k].1) in contexts;
  }

  /** In a mandate whose terms contradict no use, the explicit exclusion is never the ground of refusal. */
  lemma UseProhibitedIsUnreachable(parse: string -> Instant, mandate: Mandate, attempt: Attempt)
    requires mandate.terms.constraints.prohibitedUses.Some?
      ==> Disjoint(mandate.terms.constraints.prohibitedUses.value, mandate.terms.permittedUses)
    ensures Refusal(parse, mandate, attempt) != Some(USE_PROHIBITED)
  {
    var prohibited := mandate.terms.constraints.prohibitedUses;
    if prohibited.Some? && AllIn(attempt.grantedUses, mandate.terms.permittedUses) {
      forall use | use in attempt.grantedUses ensures use !in prohibited.value {
        assert use in mandate.terms.permittedUses;
      }
    }
  }

  // ---- What authorization can observe of the terms -----------------------------

  /** A use the terms both permit and do not exclude. */
  predicate UseAllowed(t: Terms, use: string) {
    use in t.permittedUses && (t.constraints.prohibitedUses.Some? ==> use !in t.constraints.prohibitedUses.value)
  }

  predicate UsesCovered(inner: Terms, outer: Terms) {
    forall use | use in inner.permittedUses && UseAllowed(inner, use) :: UseAllowed(outer, use)
  }

  predicate ExecutorCovered(inner: Terms, outer: Terms) {
    outer.executorRef.None? || inner.executorRef == outer.executorRef
  }

  /** A license declared freely assignable does not bind its licensee; any other disposition does. */
  predicate LicenseeCovered(inner: Terms, outer: Terms) {
    outer.constraints.assignment == Permitted
    || (inner.constraints.assignment != Permitted && inner.licenseeRef == outer.licenseeRef)
  }

  /** An unreadable ceiling admits every reported end, so a readable one does not cover it. */
  predicate TermEndCovered(parse: string -> Instant, inner: Option<string>, outer: Option<string>) {
    outer.None? || (inner.Some? && (parse(outer.value).At? ==> parse(inner.value).At? && parse(inner.value).ms <= parse(outer.value).ms))
  }

  predicate EnforcedWithin(parse: string -> Instant, inner: Terms, outer: Terms) {
    && ExecutorCovered(inner, outer)
    && LicenseeCovered(inner, outer)
    && AllIn(inner.rights, outer.rights)
    && UsesCovered(inner, outer)
    && ExclusivityRank(inner.exclusivity) <= ExclusivityRank(outer.exclusivity)
    && RightsScopeWithin(inner.rightsScope, outer.rightsScope)
    && ContextsWithin(inner.constraints.permittedContexts, outer.constraints.permittedContexts)
    && TermEndCovered(parse, inner.constraints.maximumLicenseTermEndsAt, outer.constraints.maximumLicenseTermEndsAt)
    && UnitsWithin(inner.constraints.maximumLicensedUnits, outer.constraints.maximumLicensedUnits)
    && FlagWithin(inner.constraints.externalAgreementReferenceRequired, outer.constraints.externalAgreementReferenceRequired)
    && (inner.constraints.additionalLicensesAllowed ==> outer.constraints.additionalLicensesAllowed)
  }

  predicate SameStatusAndWindow(a: Mandate, b: Mandate) {
    a.status == b.status && a.effectiveFrom == b.effectiveFrom && a.expiresAt == b.expiresAt
  }

  lemma EnforcedIsSound(parse: string -> Instant, inner: Mandate, outer: Mandate, attempt: Attempt)
    requires IsContextMap(inner.terms.constraints.permittedContexts)
    requires EnforcedWithin(parse, inner.terms, outer.terms) && SameStatusAndWindow(inner, outer)
    requires Authorizes(parse, inner, attempt)
    ensures Authorizes(parse, outer, attempt)
  {
    var x, y := inner.terms, outer.terms;
    ContextsWithinTransitive(attempt.contexts, x.constraints.permittedContexts, y.constraints.permittedContexts);
    if y.rightsScope.Some? {
      WithinIsPartialOrder(attempt.rightsScope.value, x.rightsScope.value, y.rightsScope.value);
    }
    forall use | use in attempt.grantedUses ensures UseAllowed(y, use) {
      assert use in x.permittedUses && UseAllowed(x, use);
    }
  }

  /** A mandate under which some grant is possible at `at`. */
  predicate Exercisable(parse: string -> Instant, mandate: Mandate, at: string) {
    && mandate.status == Active
    && parse(at).At? && !Less(parse(at), parse(mandate.effectiveFrom)) && !GreaterOrEqual(parse(at), parse(mandate.expiresAt))
    && mandate.terms.rights != []
    && (exists use :: use in mandate.terms.permittedUses && UseAllowed(mandate.terms, use))
    && EveryDimensionNamesAValue(mandate.terms.constraints.permittedContexts)
  }

  /** The attempt that claims all the terms offer, for one use. */
  function FullestAttempt(t: Terms, at: string, use: string): Attempt {
    Attempt(
      if t.executorRef.Some? then t.executorRef.value else "", t.licenseeRef, t.rights, [use], t.exclusivity, at, t.rightsScope,
      t.constraints.permittedContexts, t.constraints.maximumLicenseTermEndsAt, t.constraints.maximumLicensedUnits,
      t.constraints.externalAgreementReferenceRequired, if t.constraints.additionalLicensesAllowed then Some(1) else None)
  }

  lemma FullestAttemptIsAuthorized(parse: string -> Instant, mandate: Mandate, at: string, use: string)
    requires IsContextMap(mandate.terms.constraints.permittedContexts) && Exercisable(parse, mandate, at)
    requires UseAllowed(mandate.terms, use)
    ensures Authorizes(parse, mandate, FullestAttempt(mandate.terms, at, use))
  {
    TermsWithinReflexiveIff(parse, mandate.terms);
  }

  /** A name other than `name`. */
  function Other(name: string): (r: string)
    ensures r != name
  {
    assert |name + "'"| == |name| + 1;
    name + "'"
  }

  /** Where enforced containment fails some attempt is authorized inside and refused outside. */
  lemma EnforcedIsTight(parse: string -> Instant, inner: Mandate, outer: Mandate, at: string, later: string) returns (attempt: Attempt)
    requires IsContextMap(inner.terms.constraints.permittedContexts)
    requires SameStatusAndWindow(inner, outer) && Exercisable(parse, inner, at)
    requires LaterThanCeiling(parse, later, outer.terms)
    requires !EnforcedWithin(parse, inner.terms, outer.terms)
    ensures Authorizes(parse, inner, attempt) && !Authorizes(parse, outer, attempt)
  {
    var x, y := inner.terms, outer.terms;
    var use :| use in x.permittedUses && UseAllowed(x, use);
    FullestAttemptIsAuthorized(parse, inner, at, use);
    attempt := FullestAttempt(x, at, use);
    if !ExecutorCovered(x, y) {
      if x.executorRef.None? { attempt := attempt.(executedBy := Other(y.executorRef.value)); }
    } else if !LicenseeCovered(x, y) {
      if x.constraints.assignment == Permitted { attempt := attempt.(licenseeRef := Other(y.licenseeRef)); }
    } else if !UsesCovered(x, y) {
      var beyond :| beyond in x.permittedUses && UseAllowed(x, beyond) && !UseAllowed(y, beyond);
      FullestAttemptIsAuthorized(parse, inner, at, beyond);
      attempt := FullestAttempt(x, at, beyond);
      assert beyond in attempt.grantedUses;
    } else if !TermEndCovered(parse, x.constraints.maximumLicenseTermEndsAt, y.constraints.maximumLicenseTermEndsAt) {
      if UnreadableTermEnd(parse, x) { attempt := attempt.(licenseExpiresAt := Some(later)); }
    }
  }

  /** `later` is an instant past the ceiling the terms name, if that can be read at all. */
  predicate LaterThanCeiling(parse: string -> Instant, later: string, t: Terms) {
    t.constraints.maximumLicenseTermEndsAt.Some? ==>
      parse(t.constraints.maximumLicenseTermEndsAt.value) == Unreadable
      || Greater(parse(later), parse(t.constraints.maximumLicenseTermEndsAt.value))
  }

  /** Inclusion of what is authorized is exactly enforced containment of the terms. */
  lemma EnforcedIsExact(parse: string -> Instant, inner: Mandate, outer: Mandate, at: string, later: string)
    requires IsContextMap(inner.terms.constraints.permittedContexts)
    requires SameStatusAndWindow(inner, outer) && Exercisable(parse, inner, at)
    requires LaterThanCeiling(parse, later, outer.terms)
    ensures (forall attempt :: Authorizes(parse, inner, attempt) ==> Authorizes(parse, outer, attempt))
      <==> EnforcedWithin(parse, inner.terms, outer.terms)
  {
    if EnforcedWithin(parse, inner.terms, outer.terms) {
      forall attempt | Authorizes(parse, inner, attempt) ensures Authorizes(parse, outer, attempt) {
        EnforcedIsSound(parse, inner, outer, attempt);
      }
    } else {
      var attempt := EnforcedIsTight(parse, inner, outer, at, later);
    }
  }

  /** The one gap of the containment test: an unreadable ceiling placed under a readable one. */
  predicate CeilingSlipsThrough(parse: string -> Instant, inner: Terms, outer: Terms) {
    && UnreadableTermEnd(parse, inner)
    && outer.constraints.maximumLicenseTermEndsAt.Some?
    && !UnreadableTermEnd(parse, outer)
  }

  /** The part of containment that authorization does not observe: who is named, what is declared, and what is listed twice over. */
  predicate RecordedWithin(inner: Terms, outer: Terms) {
    var x, y := inner.constraints, outer.constraints;
    && inner.licenseeRef == outer.licenseeRef
    && inner.executorRef == outer.executorRef
    && (forall use | use in inner.permittedUses :: use in outer.permittedUses)
    && (y.prohibitedUses.Some? ==> forall use | use in y.prohibitedUses.value :: x.prohibitedUses.Some? && use in x.prohibitedUses.value)
    && (x.sublicensing == Prohibited || y.sublicensing == Permitted || x.sublicensing == y.sublicensing)
    && (x.assignment == Prohibited || y.assignment == Permitted || x.assignment == y.assignment)
  }

  function WithoutTermEnd(t: Terms): Terms {
    t.(constraints := t.constraints.(maximumLicenseTermEndsAt := None))
  }

  /** The containment test is what is enforced and what is recorded, but for a ceiling that slips through. */
  lemma TermsWithinIff(parse: string -> Instant, inner: Terms, outer: Terms)
    ensures TermsWithin(parse, inner, outer) <==>
      && RecordedWithin(inner, outer)
      && EnforcedWithin(parse, inner, if CeilingSlipsThrough(parse, inner, outer) then WithoutTermEnd(outer) else outer)
  {
    assert DispositionRank(inner.constraints.sublicensing) <= DispositionRank(outer.constraints.sublicensing) <==>
      inner.constraints.sublicensing == Prohibited || outer.constraints.sublicensing == Permitted
      || inner.constraints.sublicensing == outer.constraints.sublicensing;
  }

  lemma WithinEnforcesIff(parse: string -> Instant, inner: Terms, outer: Terms)
    requires TermsWithin(parse, inner, outer)
    ensures EnforcedWithin(parse, inner, outer) <==> !CeilingSlipsThrough(parse, inner, outer)
  {
  }

  /** Terms inside terms never authorize more, provided the granted ceiling can be read where the requested one can. */
  lemma ContainmentIsSound(parse: string -> Instant, inner: Mandate, outer: Mandate, attempt: Attempt)
    requires IsContextMap(inner.terms.constraints.permittedContexts)
    requires TermsWithin(parse, inner.terms, outer.terms) && SameStatusAndWindow(inner, outer)
    requires !CeilingSlipsThrough(parse, inner.terms, outer.terms)
    requires Authorizes(parse, inner, attempt)
    ensures Authorizes(parse, outer, attempt)
  {
    WithinEnforcesIff(parse, inner.terms, outer.terms);
    EnforcedIsSound(parse, inner, outer, attempt);
  }

  /** And only then: for terms that passed the containment test, that guard decides soundness. */
  lemma ContainmentIsSoundIff(parse: string -> Instant, inner: Mandate, outer: Mandate, at: string, later: string)
    requires IsContextMap(inner.terms.constraints.permittedContexts)
    requires SameStatusAndWindow(inner, outer) && Exercisable(parse, inner, at)
    requires LaterThanCeiling(parse, later, outer.terms)
    requires TermsWithin(parse, inner.terms, outer.terms)
    ensures (forall attempt :: Authorizes(parse, inner, attempt) ==> Authorizes(parse, outer, attempt))
      <==> !CeilingSlipsThrough(parse, inner.terms, outer.terms)
  {
    WithinEnforcesIff(parse, inner.terms, outer.terms);
    EnforcedIsExact(parse, inner, outer, at, later);
  }
}
