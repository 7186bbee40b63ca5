/** What each issue of the license terms validator says about the candidate, independently of how issues are collected. */
module LicenseIssues {
  import opened Options
  import opened Ordering
  import opened Lists
  import opened SafeIntegers
  import opened RightsScope
  import opened Json
  import opened LicenseTerms
  import opened LicenseJson

  datatype Part = Whole | Rights | Licensee | Uses | Exclusiveness | Portion | Executor | Prohibitions | Contexts | Ceilings | Dispositions | Declarations

  /** The part of the candidate an issue is about. */
  function About(code: Code): Part {
    match code
    case MISSING_TERMS => Whole
    case MISSING_CONSTRAINTS => Whole
    case MISSING_RIGHTS => Rights
    case INVALID_RIGHTS => Rights
    case EMPTY_RIGHTS => Rights
    case DUPLICATE_RIGHTS => Rights
    case MISSING_LICENSEE_REF => Licensee
    case INVALID_LICENSEE_REF => Licensee
    case MISSING_PERMITTED_USES => Uses
    case INVALID_PERMITTED_USES => Uses
    case EMPTY_PERMITTED_USES => Uses
    case DUPLICATE_PERMITTED_USES => Uses
    case MISSING_EXCLUSIVITY => Exclusiveness
    case INVALID_EXCLUSIVITY => Exclusiveness
    case INVALID_RIGHTS_SCOPE => Portion
    case INVALID_RIGHTS_SCOPE_KIND => Portion
    case INVALID_RIGHTS_SCOPE_BASIS_POINTS => Portion
    case INVALID_RIGHTS_SCOPE_UNITS => Portion
    case INVALID_RIGHTS_SCOPE_UNIT_DENOMINATION => Portion
    case INVALID_EXECUTOR_REF => Executor
    case INVALID_PROHIBITED_USES => Prohibitions
    case CONTRADICTORY_USES => Prohibitions
    case INVALID_PERMITTED_CONTEXTS => Contexts
    case INVALID_MAXIMUM_LICENSE_TERM_ENDS_AT => Ceilings
    case INVALID_MAXIMUM_LICENSED_UNITS => Ceilings
    case MISSING_SUBLICENSING => Dispositions
    case INVALID_SUBLICENSING => Dispositions
    case MISSING_ASSIGNMENT => Dispositions
    case INVALID_ASSIGNMENT => Dispositions
    case MISSING_ADDITIONAL_LICENSES_ALLOWED => Declarations
    case INVALID_ADDITIONAL_LICENSES_ALLOWED => Declarations
    case INVALID_EXTERNAL_AGREEMENT_REFERENCE_REQUIRED => Declarations
  }

  /** A present list of vocabulary words, in order apart from repetition. */
  predicate WordsGiven(v: Option<Json>, words: seq<string>) {
    v.Some? && IsWordArray(v.value, words)
  }

  predicate GivenTwice(v: Option<Json>, words: seq<string>) {
    WordsGiven(v, words) && !NoRepeats(StringsOf(v.value.items))
  }

  predicate ScopeKind(v: Option<Json>, kind: string) {
    IsObj(v) && Get(v.value, "kind") == Some(Str(kind))
  }

  predicate TermsGround(f: TermsFields, code: Code) {
    match code
    case MISSING_TERMS => false
    case MISSING_RIGHTS => f.rights.None?
    case INVALID_RIGHTS => f.rights.Some? && !WordsGiven(f.rights, RIGHT_TYPES)
    case EMPTY_RIGHTS => f.rights == Some(Arr([]))
    case DUPLICATE_RIGHTS => GivenTwice(f.rights, RIGHT_TYPES)
    case MISSING_LICENSEE_REF => f.licenseeRef.None?
    case INVALID_LICENSEE_REF => f.licenseeRef.Some? && !IsNonEmptyString(f.licenseeRef)
    case MISSING_PERMITTED_USES => f.permittedUses.None?
    case INVALID_PERMITTED_USES => f.permittedUses.Some? && !WordsGiven(f.permittedUses, USE_TYPES)
    case EMPTY_PERMITTED_USES => f.permittedUses == Some(Arr([]))
    case DUPLICATE_PERMITTED_USES => GivenTwice(f.permittedUses, USE_TYPES)
    case MISSING_EXCLUSIVITY => f.exclusivity.None?
    case INVALID_EXCLUSIVITY => f.exclusivity.Some? && !IsExclusivity(f.exclusivity.value)
    case INVALID_RIGHTS_SCOPE => f.rightsScope.Some? && !IsObj(f.rightsScope)
    case INVALID_RIGHTS_SCOPE_KIND =>
      IsObj(f.rightsScope) && !ScopeKind(f.rightsScope, "proportional") && !ScopeKind(f.rightsScope, "unitized")
    case INVALID_RIGHTS_SCOPE_BASIS_POINTS =>
      ScopeKind(f.rightsScope, "proportional")
      && !exists n | 1 <= n <= FULL_BASIS_POINTS :: Get(f.rightsScope.value, "basisPoints") == Some(FromInt(n))
    case INVALID_RIGHTS_SCOPE_UNITS =>
      ScopeKind(f.rightsScope, "unitized")
      && !exists n | 1 <= n <= MAX_SAFE_INTEGER :: Get(f.rightsScope.value, "units") == Some(FromInt(n))
    case INVALID_RIGHTS_SCOPE_UNIT_DENOMINATION =>
      ScopeKind(f.rightsScope, "unitized") && !IsNonEmptyString(Get(f.rightsScope.value, "unitDenomination"))
    case INVALID_EXECUTOR_REF => f.executorRef.Some? && !IsNonEmptyString(f.executorRef)
    case MISSING_CONSTRAINTS => !IsObj(f.constraints)
    case _ => IsObj(f.constraints) && ConstraintGround(ConstraintFieldsOf(f.constraints.value), PermittedUsesIfValid(f), code)
  }

  predicate ConstraintGround(c: ConstraintFields, permitted: Option<seq<string>>, code: Code) {
    match code
    case INVALID_PROHIBITED_USES =>
      c.prohibitedUses.Some?
      && (!WordsGiven(c.prohibitedUses, USE_TYPES) || c.prohibitedUses == Some(Arr([])) || GivenTwice(c.prohibitedUses, USE_TYPES))
    case CONTRADICTORY_USES =>
      WordsGiven(c.prohibitedUses, USE_TYPES) && !GivenTwice(c.prohibitedUses, USE_TYPES) && permitted.Some?
      && exists use | use in StringsOf(c.prohibitedUses.value.items) :: use in permitted.value
    case INVALID_PERMITTED_CONTEXTS => c.permittedContexts.Some? && !IsContextMapJson(c.permittedContexts.value)
    case INVALID_MAXIMUM_LICENSE_TERM_ENDS_AT => c.maximumLicenseTermEndsAt.Some? && !IsTimestamp(c.maximumLicenseTermEndsAt)
    case INVALID_MAXIMUM_LICENSED_UNITS => c.maximumLicensedUnits.Some? && !IsUnits(c.maximumLicensedUnits.value)
    case MISSING_SUBLICENSING => c.sublicensing.None?
    case INVALID_SUBLICENSING => c.sublicensing.Some? && !IsDisposition(c.sublicensing.value)
    case MISSING_ASSIGNMENT => c.assignment.None?
    case INVALID_ASSIGNMENT => c.assignment.Some? && !IsDisposition(c.assignment.value)
    case MISSING_ADDITIONAL_LICENSES_ALLOWED => c.additionalLicensesAllowed.None?
    case INVALID_ADDITIONAL_LICENSES_ALLOWED => c.additionalLicensesAllowed.Some? && !IsBool(c.additionalLicensesAllowed)
    case INVALID_EXTERNAL_AGREEMENT_REFERENCE_REQUIRED =>
      c.externalAgreementReferenceRequired.Some? && !IsBool(c.externalAgreementReferenceRequired)
    case _ => false
  }

  // ---- Part by part -----------------------------------------------------------------

  lemma NothingIsGivenTwice(v: Option<Json>, words: seq<string>)
    ensures v == Some(Arr([])) <==> WordsGiven(v, words) && v.value.items == []
    ensures v == Some(Arr([])) ==> !GivenTwice(v, words)
  {
    assert StringsOf([]) == [];
  }

  /** Four mutually exclusive outcomes, told apart by three questions. */
  function Outcome(given: bool, nothing: bool, twice: bool, invalid: Code, empty: Code, repeated: Code): seq<Code> {
    if !given then [invalid] else if nothing then [empty] else if twice then [repeated] else []
  }

  lemma OutcomeCodes(given: bool, nothing: bool, twice: bool, invalid: Code, empty: Code, repeated: Code, code: Code)
    requires invalid != empty && invalid != repeated && empty != repeated
    requires (nothing ==> given && !twice) && (twice ==> given)
    ensures code in Outcome(given, nothing, twice, invalid, empty, repeated) <==>
      (code == invalid && !given) || (code == empty && nothing) || (code == repeated && twice)
  {
  }

  lemma WordListCodes(v: Option<Json>, words: seq<string>, missing: Code, invalid: Code, empty: Code, repeated: Code, code: Code)
    requires missing != invalid && missing != empty && missing != repeated && invalid != empty && invalid != repeated && empty != repeated
    ensures code in WordListIssues(v, words, missing, invalid, empty, repeated) <==>
      || (code == missing && v.None?)
      || (code == invalid && v.Some? && !WordsGiven(v, words))
      || (code == empty && v == Some(Arr([])))
      || (code == repeated && GivenTwice(v, words))
  {
    if v.Some? {
      NothingIsGivenTwice(v, words);
      var given, nothing, twice := WordsGiven(v, words), v == Some(Arr([])), GivenTwice(v, words);
      assert WordListIssues(v, words, missing, invalid, empty, repeated) == Outcome(given, nothing, twice, invalid, empty, repeated);
      OutcomeCodes(given, nothing, twice, invalid, empty, repeated, code);
    }
  }

  lemma PositiveIntegers(v: Option<Json>, bound: int)
    requires bound <= MAX_SAFE_INTEGER
    ensures IsPositiveInteger(v) && v.value.r.Floor <= bound <==> exists n | 1 <= n <= bound :: v == Some(FromInt(n))
  {
    if IsPositiveInteger(v) && v.value.r.Floor <= bound { assert v == Some(FromInt(v.value.r.Floor)); }
  }

  lemma ScopeCodes(f: TermsFields, code: Code)
    ensures code in RightsScopeIssues(f.rightsScope) <==> About(code) == Portion && TermsGround(f, code)
  {
    if IsObj(f.rightsScope) {
      PositiveIntegers(Get(f.rightsScope.value, "basisPoints"), FULL_BASIS_POINTS);
      PositiveIntegers(Get(f.rightsScope.value, "units"), MAX_SAFE_INTEGER);
    }
  }

  lemma PlainCodes(f: TermsFields, code: Code)
    ensures code in LicenseeIssues(f) <==> About(code) == Licensee && TermsGround(f, code)
    ensures code in ExclusivityIssues(f) <==> About(code) == Exclusiveness && TermsGround(f, code)
    ensures code in ExecutorIssues(f) <==> About(code) == Executor && TermsGround(f, code)
  {
  }

  lemma RightsCodes(f: TermsFields, code: Code)
    ensures code in RightsIssues(f) <==> About(code) == Rights && TermsGround(f, code)
  {
    WordListCodes(f.rights, RIGHT_TYPES, MISSING_RIGHTS, INVALID_RIGHTS, EMPTY_RIGHTS, DUPLICATE_RIGHTS, code);
  }

  lemma UsesCodes(f: TermsFields, code: Code)
    ensures code in PermittedUsesIssues(f) <==> About(code) == Uses && TermsGround(f, code)
  {
    WordListCodes(f.permittedUses, USE_TYPES,
                  MISSING_PERMITTED_USES, INVALID_PERMITTED_USES, EMPTY_PERMITTED_USES, DUPLICATE_PERMITTED_USES, code);
  }

  lemma ProhibitionCodes(c: ConstraintFields, permitted: Option<seq<string>>, code: Code)
    ensures code in ProhibitedUsesIssues(c.prohibitedUses, permitted) <==> About(code) == Prohibitions && ConstraintGround(c, permitted, code)
  {
  }

  lemma LimitCodes(c: ConstraintFields, permitted: Option<seq<string>>, code: Code)
    ensures code in ContextIssues(c.permittedContexts) <==> About(code) == Contexts && ConstraintGround(c, permitted, code)
    ensures code in CeilingIssues(c) <==> About(code) == Ceilings && ConstraintGround(c, permitted, code)
  {
  }

  lemma DispositionCodes(c: ConstraintFields, permitted: Option<seq<string>>, code: Code)
    ensures code in DispositionsIssues(c) <==> About(code) == Dispositions && ConstraintGround(c, permitted, code)
  {
  }

  lemma DeclarationCodes(c: ConstraintFields, permitted: Option<seq<string>>, code: Code)
    ensures code in DeclarationIssues(c) <==> About(code) == Declarations && ConstraintGround(c, permitted, code)
  {
  }

  /** An issue is reported exactly when its own ground holds, whatever else is wrong with the candidate. */
  lemma ReportedIffGround(candidate: Json, code: Code)
    requires candidate.Obj?
    ensures code in TermsIssues(candidate) <==> TermsGround(TermsFieldsOf(candidate), code)
  {
    var f := TermsFieldsOf(candidate);
    RightsCodes(f, code);
    UsesCodes(f, code);
    PlainCodes(f, code);
    ScopeCodes(f, code);
    if IsObj(f.constraints) {
      var c, permitted := ConstraintFieldsOf(f.constraints.value), PermittedUsesIfValid(f);
      ProhibitionCodes(c, permitted, code);
      LimitCodes(c, permitted, code);
      DispositionCodes(c, permitted, code);
      DeclarationCodes(c, permitted, code);
    }
    InParts(f, code);
  }

  lemma InParts(f: TermsFields, code: Code)
    ensures code in FieldIssues(f) <==>
      || code in RightsIssues(f) || code in LicenseeIssues(f) || code in PermittedUsesIssues(f) || code in ExclusivityIssues(f)
      || code in RightsScopeIssues(f.rightsScope) || code in ExecutorIssues(f)
      || (if !IsObj(f.constraints) then code == MISSING_CONSTRAINTS
          else
            var c, permitted := ConstraintFieldsOf(f.constraints.value), PermittedUsesIfValid(f);
            || code in ProhibitedUsesIssues(c.prohibitedUses, permitted) || code in ContextIssues(c.permittedContexts)
            || code in CeilingIssues(c) || code in DispositionsIssues(c) || code in DeclarationIssues(c))
  {
  }

  // ---- The order of the issues ----------------------------------------------------

  /** The field an issue is about, by its place in the order of checks. */
  function Place(code: Code): int {
    match About(code)
    case Whole => if code == MISSING_TERMS then 0 else 8
    case Rights => 1
    case Licensee => 2
    case Uses => 3
    case Exclusiveness => 4
    case Portion => if code == INVALID_RIGHTS_SCOPE_UNIT_DENOMINATION then 6 else 5
    case Executor => 7
    case Prohibitions => 8
    case Contexts => 9
    case Ceilings => if code == INVALID_MAXIMUM_LICENSE_TERM_ENDS_AT then 10 else 11
    case Dispositions => if code == MISSING_SUBLICENSING || code == INVALID_SUBLICENSING then 12 else 13
    case Declarations => if code == INVALID_EXTERNAL_AGREEMENT_REFERENCE_REQUIRED then 15 else 14
  }

  lemma WordsRanked(v: Option<Json>, words: seq<string>, missing: Code, invalid: Code, empty: Code, repeated: Code, place: int)
    requires Place(missing) == place && Place(invalid) == place && Place(empty) == place && Place(repeated) == place
    ensures Ranked(Place, WordListIssues(v, words, missing, invalid, empty, repeated), place, place)
  {
  }

  lemma RightsRanked(f: TermsFields)
    ensures Ranked(Place, RightsIssues(f), 1, 1)
    ensures Ranked(Place, PermittedUsesIssues(f), 3, 3)
  {
    WordsRanked(f.rights, RIGHT_TYPES, MISSING_RIGHTS, INVALID_RIGHTS, EMPTY_RIGHTS, DUPLICATE_RIGHTS, 1);
    WordsRanked(f.permittedUses, USE_TYPES,
                MISSING_PERMITTED_USES, INVALID_PERMITTED_USES, EMPTY_PERMITTED_USES, DUPLICATE_PERMITTED_USES, 3);
  }

  lemma PlainRanked(f: TermsFields)
    ensures Ranked(Place, LicenseeIssues(f), 2, 2)
    ensures Ranked(Place, ExclusivityIssues(f), 4, 4)
    ensures Ranked(Place, ExecutorIssues(f), 7, 7)
  {
  }

  lemma PortionRanked(f: TermsFields)
    ensures Ranked(Place, RightsScopeIssues(f.rightsScope), 5, 6)
  {
  }

  lemma ProhibitionsRanked(c: ConstraintFields, permitted: Option<seq<string>>)
    ensures Ranked(Place, ProhibitedUsesIssues(c.prohibitedUses, permitted), 8, 8)
  {
  }

  lemma PairRanked(first: bool, a: Code, second: bool, b: Code)
    requires Place(a) <= Place(b)
    ensures Ranked(Place, When(first, a) + When(second, b), Place(a), Place(b))
  {
  }

  lemma LimitsRanked(c: ConstraintFields)
    ensures Ranked(Place, ContextIssues(c.permittedContexts), 9, 9)
    ensures Ranked(Place, CeilingIssues(c), 10, 11)
  {
    PairRanked(c.maximumLicenseTermEndsAt.Some? && !IsTimestamp(c.maximumLicenseTermEndsAt), INVALID_MAXIMUM_LICENSE_TERM_ENDS_AT,
               c.maximumLicensedUnits.Some? && !IsUnits(c.maximumLicensedUnits.value), INVALID_MAXIMUM_LICENSED_UNITS);
  }

  lemma DispositionRanked(v: Option<Json>, missing: Code, invalid: Code, place: int)
    requires Place(missing) == place && Place(invalid) == place
    ensures Ranked(Place, DispositionIssues(v, missing, invalid), place, place)
  {
  }

  lemma DispositionsRanked(c: ConstraintFields)
    ensures Ranked(Place, DispositionsIssues(c), 12, 13)
  {
    DispositionRanked(c.sublicensing, MISSING_SUBLICENSING, INVALID_SUBLICENSING, 12);
    DispositionRanked(c.assignment, MISSING_ASSIGNMENT, INVALID_ASSIGNMENT, 13);
    RankedJoin(Place, DispositionIssues(c.sublicensing, MISSING_SUBLICENSING, INVALID_SUBLICENSING),
               DispositionIssues(c.assignment, MISSING_ASSIGNMENT, INVALID_ASSIGNMENT), 12, 13, 13);
  }

  lemma ChoiceRanked(absent: bool, unread: bool, missing: Code, invalid: Code, place: int)
    requires Place(missing) == place && Place(invalid) == place
    ensures Ranked(Place, if absent then [missing] else When(unread, invalid), place, place)
  {
  }

  lemma DeclarationsRanked(c: ConstraintFields)
    ensures Ranked(Place, DeclarationIssues(c), 14, 15)
  {
    var absent, unread := c.additionalLicensesAllowed.None?, !IsBool(c.additionalLicensesAllowed);
    var allowed := if absent then [MISSING_ADDITIONAL_LICENSES_ALLOWED] else When(unread, INVALID_ADDITIONAL_LICENSES_ALLOWED);
    var reference := When(c.externalAgreementReferenceRequired.Some? && !IsBool(c.externalAgreementReferenceRequired),
                          INVALID_EXTERNAL_AGREEMENT_REFERENCE_REQUIRED);
    ChoiceRanked(absent, unread, MISSING_ADDITIONAL_LICENSES_ALLOWED, INVALID_ADDITIONAL_LICENSES_ALLOWED, 14);
    RankedJoin(Place, allowed, reference, 14, 15, 15);
    assert DeclarationIssues(c) == allowed + reference;
  }

  lemma ConstraintsRanked(c: ConstraintFields, permitted: Option<seq<string>>)
    ensures Ranked(Place, ConstraintFieldIssues(c, permitted), 8, 15)
  {
    var prohibitions, contexts, ceilings := ProhibitedUsesIssues(c.prohibitedUses, permitted), ContextIssues(c.permittedContexts), CeilingIssues(c);
    ProhibitionsRanked(c, permitted);
    LimitsRanked(c);
    DispositionsRanked(c);
    DeclarationsRanked(c);
    RankedJoin(Place, prohibitions, contexts, 8, 9, 9);
    RankedJoin(Place, prohibitions + contexts, ceilings, 8, 10, 11);
    RankedJoin(Place, prohibitions + contexts + ceilings, DispositionsIssues(c), 8, 12, 13);
    RankedJoin(Place, prohibitions + contexts + ceilings + DispositionsIssues(c), DeclarationIssues(c), 8, 14, 15);
  }

  lemma CarriedRanked(v: Option<Json>, permitted: Option<seq<string>>)
    ensures Ranked(Place, ConstraintIssues(v, permitted), 8, 15)
  {
    if IsObj(v) { ConstraintsRanked(ConstraintFieldsOf(v.value), permitted); }
  }

  lemma FieldsRanked(rights: seq<Code>, licensee: seq<Code>, uses: seq<Code>, exclusivity: seq<Code>, portion: seq<Code>, executor: seq<Code>, constraints: seq<Code>)
    requires Ranked(Place, rights, 1, 1) && Ranked(Place, licensee, 2, 2) && Ranked(Place, uses, 3, 3) && Ranked(Place, exclusivity, 4, 4)
    requires Ranked(Place, portion, 5, 6) && Ranked(Place, executor, 7, 7) && Ranked(Place, constraints, 8, 15)
    ensures Ranked(Place, rights + licensee + uses + exclusivity + portion + executor + constraints, 0, 15)
  {
    RankedJoin(Place, rights, licensee, 0, 2, 2);
    RankedJoin(Place, rights + licensee, uses, 0, 3, 3);
    RankedJoin(Place, rights + licensee + uses, exclusivity, 0, 4, 4);
    RankedJoin(Place, rights + licensee + uses + exclusivity, portion, 0, 5, 6);
    RankedJoin(Place, rights + licensee + uses + exclusivity + portion, executor, 0, 7, 7);
    RankedJoin(Place, rights + licensee + uses + exclusivity + portion + executor, constraints, 0, 8, 15);
  }

  /** The issues come in the order of the fields. */
  lemma IssuesRanked(candidate: Json)
    ensures Ranked(Place, TermsIssues(candidate), 0, 15)
  {
    if candidate.Obj? {
      var f := TermsFieldsOf(candidate);
      RightsRanked(f);
      PlainRanked(f);
      PortionRanked(f);
      CarriedRanked(f.constraints, PermittedUsesIfValid(f));
      FieldsRanked(RightsIssues(f), LicenseeIssues(f), PermittedUsesIssues(f), ExclusivityIssues(f),
                   RightsScopeIssues(f.rightsScope), ExecutorIssues(f), ConstraintIssues(f.constraints, PermittedUsesIfValid(f)));
    }
  }
}
