/**
 The collectors of the license terms validator, as they push issues one after the
 other, and what their verdict means to a caller: nothing is reported exactly when
 the candidate carries something well-formed.
 */
module LicenseValidator {
  import opened Options
  import opened Lists
  import opened Ordering
  import opened Records
  import opened SafeIntegers
  import opened RightsScope
  import opened Json
  import opened LicenseTerms
  import opened LicenseJson
  import opened LicenseIssues
  import opened LicenseRoundTrip

  ghost predicate CarriesSomeScope(j: Json) {
    exists s :: WellFormedScope(s) && CarriesScope(Some(j), Some(s))
  }

  lemma ScopeAcceptedIff(j: Json)
    ensures ScopeIssues(j) == [] <==> CarriesSomeScope(j)
  {
    if ScopeIssues(j) == [] {
      var s := ReadScope(Some(j)).value;
      assert WellFormedScope(s) && CarriesScope(Some(j), Some(s));
    }
    if s :| WellFormedScope(s) && CarriesScope(Some(j), Some(s)) { ScopeAccepted(Some(j), Some(s)); }
  }

  ghost predicate CarriesSomeConstraints(v: Option<Json>, permittedUses: seq<string>) {
    exists x :: IsObj(v) && ConstraintsCarried(ConstraintFieldsOf(v.value), x) && WellFormedConstraints(x, permittedUses)
  }

  lemma ConstraintsAcceptedIff(v: Option<Json>, permittedUses: seq<string>)
    requires v.Some? ==> Proper(v.value)
    ensures ConstraintIssues(v, Some(permittedUses)) == [] <==> CarriesSomeConstraints(v, permittedUses)
  {
    if ConstraintIssues(v, Some(permittedUses)) == [] {
      var c := ConstraintFieldsOf(v.value);
      ProperConstraintFields(v.value);
      ConstraintsReadBack(c, permittedUses);
      assert ConstraintsCarried(c, ReadConstraints(c, Some(permittedUses)));
    }
    if x :| IsObj(v) && ConstraintsCarried(ConstraintFieldsOf(v.value), x) && WellFormedConstraints(x, permittedUses) {
      ConstraintsAccepted(ConstraintFieldsOf(v.value), x, permittedUses);
    }
  }

  ghost predicate CarriesSomeTerms(candidate: Json) {
    exists t :: Carries(candidate, t) && WellFormedTerms(t)
  }

  // ---- The collectors -----------------------------------------------------------

  /** One generic validator of context maps: it returns on the first dimension that is out of order. */
  method CollectContextIssues<T(==)>(candidate: Json, code: T) returns (issues: seq<T>)
    ensures issues == if IsContextMapJson(candidate) then [] else [code]
  {
    if !candidate.Obj? { return [code]; }
    if candidate.fields == [] { return [code]; }
    var i := 0;
    while i < |candidate.fields|
      invariant i <= |candidate.fields|
      invariant forall k | 0 <= k < i :: candidate.fields[k].0 != "" && IsIdArray(candidate.fields[k].1) && candidate.fields[k].1.items != []
    {
      var (dimension, values) := candidate.fields[i];
      assert candidate.fields[i] in candidate.fields;
      if dimension == "" { return [code]; }
      if !IsIdArray(values) || values.items == [] { return [code]; }
      i := i + 1;
    }
    return [];
  }

  method CollectScopeIssues(candidate: Json) returns (issues: seq<Code>)
    ensures issues == ScopeIssues(candidate)
    ensures issues == [] <==> CarriesSomeScope(candidate)
  {
    ScopeAcceptedIff(candidate);
    issues := [];
    if !candidate.Obj? { return issues + [INVALID_RIGHTS_SCOPE]; }
    if Get(candidate, "kind") == Some(Str("proportional")) {
      var basisPoints := Get(candidate, "basisPoints");
      if !IsPositiveInteger(basisPoints) || basisPoints.value.r.Floor > FULL_BASIS_POINTS {
        issues := issues + [INVALID_RIGHTS_SCOPE_BASIS_POINTS];
      }
    } else if Get(candidate, "kind") == Some(Str("unitized")) {
      if !IsPositiveInteger(Get(candidate, "units")) { issues := issues + [INVALID_RIGHTS_SCOPE_UNITS]; }
      if !IsNonEmptyString(Get(candidate, "unitDenomination")) { issues := issues + [INVALID_RIGHTS_SCOPE_UNIT_DENOMINATION]; }
    } else {
      issues := issues + [INVALID_RIGHTS_SCOPE_KIND];
    }
  }

  method CollectPresentScopeIssues(scope: Option<Json>) returns (issues: seq<Code>)
    ensures issues == RightsScopeIssues(scope)
  {
    issues := [];
    if scope.Some? {
      issues := CollectScopeIssues(scope.value);
    }
  }

  method CollectProhibitedUsesIssues(prohibitedUses: Option<Json>, permittedUses: Option<seq<string>>) returns (issues: seq<Code>)
    ensures issues == ProhibitedUsesIssues(prohibitedUses, permittedUses)
  {
    issues := [];
    if prohibitedUses.Some? {
      if !IsWordArray(prohibitedUses.value, USE_TYPES) || prohibitedUses.value.items == [] {
        issues := issues + [INVALID_PROHIBITED_USES];
      } else if !NoRepeats(StringsOf(prohibitedUses.value.items)) {
        issues := issues + [INVALID_PROHIBITED_USES];
      } else if permittedUses.Some? {
        if !Disjoint(StringsOf(prohibitedUses.value.items), permittedUses.value) { issues := issues + [CONTRADICTORY_USES]; }
      }
    }
  }

  method CollectDispositionIssues(c: ConstraintFields) returns (issues: seq<Code>)
    ensures issues == DispositionsIssues(c)
  {
    issues := [];
    var dispositions := [(c.sublicensing, MISSING_SUBLICENSING, INVALID_SUBLICENSING), (c.assignment, MISSING_ASSIGNMENT, INVALID_ASSIGNMENT)];
    for i := 0 to |dispositions|
      invariant i == 0 ==> issues == []
      invariant i == 1 ==> issues == DispositionIssues(c.sublicensing, MISSING_SUBLICENSING, INVALID_SUBLICENSING)
      invariant i == 2 ==> issues == DispositionsIssues(c)
    {
      var (value, missingCode, invalidCode) := dispositions[i];
      if value.None? {
        issues := issues + [missingCode];
      } else if !IsDisposition(value.value) {
        issues := issues + [invalidCode];
      }
    }
  }

  method CollectDeclarationIssues(c: ConstraintFields) returns (issues: seq<Code>)
    ensures issues == DeclarationIssues(c)
  {
    issues := [];
    if c.additionalLicensesAllowed.None? {
      issues := issues + [MISSING_ADDITIONAL_LICENSES_ALLOWED];
    } else if !IsBool(c.additionalLicensesAllowed) {
      issues := issues + [INVALID_ADDITIONAL_LICENSES_ALLOWED];
    }
    if c.externalAgreementReferenceRequired.Some? && !IsBool(c.externalAgreementReferenceRequired) {
      issues := issues + [INVALID_EXTERNAL_AGREEMENT_REFERENCE_REQUIRED];
    }
  }

  method CollectPresentContextIssues(contexts: Option<Json>) returns (issues: seq<Code>)
    ensures issues == ContextIssues(contexts)
  {
    issues := [];
    if contexts.Some? {
      issues := CollectContextIssues(contexts.value, INVALID_PERMITTED_CONTEXTS);
    }
  }

  method CollectConstraintIssues(candidate: Option<Json>, permittedUses: Option<seq<string>>) returns (issues: seq<Code>)
    ensures issues == ConstraintIssues(candidate, permittedUses)
    ensures permittedUses.Some? && (candidate.Some? ==> Proper(candidate.value)) ==>
      (issues == [] <==> CarriesSomeConstraints(candidate, permittedUses.value))
  {
    if permittedUses.Some? && (candidate.Some? ==> Proper(candidate.value)) {
      ConstraintsAcceptedIff(candidate, permittedUses.value);
    }
    if !IsObj(candidate) { return [MISSING_CONSTRAINTS]; }
    var c := ConstraintFieldsOf(candidate.value);
    issues := CollectProhibitedUsesIssues(c.prohibitedUses, permittedUses);
    var found := CollectPresentContextIssues(c.permittedContexts);
    issues := issues + found;
    issues := issues + CeilingIssues(c);
    found := CollectDispositionIssues(c);
    issues := issues + found;
    found := CollectDeclarationIssues(c);
    issues := issues + found;
  }

  method PushTermsIssues(candidate: Json) returns (issues: seq<Code>)
    ensures issues == TermsIssues(candidate)
  {
    if !candidate.Obj? { return [MISSING_TERMS]; }
    var c := TermsFieldsOf(candidate);
    issues := RightsIssues(c) + LicenseeIssues(c);
    var permittedUses := None;
    if PermittedUsesIssues(c) != [] {
      issues := issues + PermittedUsesIssues(c);
    } else {
      permittedUses := Some(StringsOf(c.permittedUses.value.items));
    }
    issues := issues + ExclusivityIssues(c);
    var found := CollectPresentScopeIssues(c.rightsScope);
    issues := issues + found + ExecutorIssues(c);
    found := CollectConstraintIssues(c.constraints, permittedUses);
    issues := issues + found;
  }

  /** Nothing is reported exactly when the candidate carries well-formed terms; each issue is reported exactly on its own ground. */
  method CollectTermsIssues(candidate: Json) returns (issues: seq<Code>)
    ensures issues == TermsIssues(candidate)
    ensures Proper(candidate) ==> (issues == [] <==> CarriesSomeTerms(candidate))
    ensures forall code :: code in issues <==> if candidate.Obj? then TermsGround(TermsFieldsOf(candidate), code) else code == MISSING_TERMS
    ensures Ranked(Place, issues, 0, 15)
  {
    issues := PushTermsIssues(candidate);
    IssuesRanked(candidate);
    if Proper(candidate) { AcceptedIff(candidate); }
    if candidate.Obj? {
      forall code ensures code in issues <==> TermsGround(TermsFieldsOf(candidate), code) {
        ReportedIffGround(candidate, code);
      }
    }
  }
}
