/**
 License terms over untyped input: the validator, the reader and the serializer,
 and the relation that ties the three together.
 */
module LicenseJson {
  import opened Options
  import opened Instants
  import opened Ordering
  import opened Records
  import opened SafeIntegers
  import opened RightsScope
  import opened Json
  import opened LicenseTerms

  datatype Code =
    | MISSING_TERMS
    | MISSING_RIGHTS | INVALID_RIGHTS | EMPTY_RIGHTS | DUPLICATE_RIGHTS
    | MISSING_LICENSEE_REF | INVALID_LICENSEE_REF
    | MISSING_PERMITTED_USES | INVALID_PERMITTED_USES | EMPTY_PERMITTED_USES | DUPLICATE_PERMITTED_USES
    | MISSING_EXCLUSIVITY | INVALID_EXCLUSIVITY
    | INVALID_RIGHTS_SCOPE | INVALID_RIGHTS_SCOPE_KIND | INVALID_RIGHTS_SCOPE_BASIS_POINTS
    | INVALID_RIGHTS_SCOPE_UNITS | INVALID_RIGHTS_SCOPE_UNIT_DENOMINATION
    | INVALID_EXECUTOR_REF
    | MISSING_CONSTRAINTS | INVALID_PROHIBITED_USES | CONTRADICTORY_USES | INVALID_PERMITTED_CONTEXTS
    | INVALID_MAXIMUM_LICENSE_TERM_ENDS_AT | INVALID_MAXIMUM_LICENSED_UNITS
    | MISSING_SUBLICENSING | INVALID_SUBLICENSING | MISSING_ASSIGNMENT | INVALID_ASSIGNMENT
    | MISSING_ADDITIONAL_LICENSES_ALLOWED | INVALID_ADDITIONAL_LICENSES_ALLOWED
    | INVALID_EXTERNAL_AGREEMENT_REFERENCE_REQUIRED

  // ---- Names of the enumerations ---------------------------------------------

  function ExclusivityName(e: Exclusivity): string {
    match e
    case NonExclusive => "non-exclusive"
    case Sole => "sole"
    case Exclusive => "exclusive"
  }

  function DispositionName(d: Disposition): string {
    match d
    case Prohibited => "prohibited"
    case ApprovalRequired => "approval-required"
    case Permitted => "permitted"
  }

  predicate IsExclusivity(j: Json) {
    j.Str? && j.s in ["non-exclusive", "sole", "exclusive"]
  }

  predicate IsDisposition(j: Json) {
    j.Str? && j.s in ["prohibited", "approval-required", "permitted"]
  }

  function ReadExclusivity(j: Json): (e: Exclusivity)
    requires IsExclusivity(j)
    ensures Str(ExclusivityName(e)) == j
  {
    if j.s == "non-exclusive" then NonExclusive else if j.s == "sole" then Sole else Exclusive
  }

  function ReadDisposition(j: Json): (d: Disposition)
    requires IsDisposition(j)
    ensures Str(DispositionName(d)) == j
  {
    if j.s == "prohibited" then Prohibited else if j.s == "approval-required" then ApprovalRequired else Permitted
  }

  // ---- The fields the validator looks at -----------------------------------------

  datatype TermsFields = TermsFields(
    rights: Option<Json>,
    licenseeRef: Option<Json>,
    permittedUses: Option<Json>,
    exclusivity: Option<Json>,
    rightsScope: Option<Json>,
    executorRef: Option<Json>,
    constraints: Option<Json>)

  datatype ConstraintFields = ConstraintFields(
    prohibitedUses: Option<Json>,
    permittedContexts: Option<Json>,
    maximumLicenseTermEndsAt: Option<Json>,
    maximumLicensedUnits: Option<Json>,
    sublicensing: Option<Json>,
    assignment: Option<Json>,
    additionalLicensesAllowed: Option<Json>,
    externalAgreementReferenceRequired: Option<Json>)

  const TERMS_NAMES: seq<string> :=
    ["rights", "licenseeRef", "permittedUses", "exclusivity", "rightsScope", "executorRef", "constraints"]

  const CONSTRAINT_NAMES: seq<string> :=
    ["prohibitedUses", "permittedContexts", "maximumLicenseTermEndsAt", "maximumLicensedUnits",
     "sublicensing", "assignment", "additionalLicensesAllowed", "externalAgreementReferenceRequired"]

  function TermsFieldsOf(c: Json): TermsFields {
    TermsFields(
      Get(c, TERMS_NAMES[0]), Get(c, TERMS_NAMES[1]), Get(c, TERMS_NAMES[2]), Get(c, TERMS_NAMES[3]),
      Get(c, TERMS_NAMES[4]), Get(c, TERMS_NAMES[5]), Get(c, TERMS_NAMES[6]))
  }

  function ConstraintFieldsOf(c: Json): ConstraintFields {
    ConstraintFields(
      Get(c, CONSTRAINT_NAMES[0]), Get(c, CONSTRAINT_NAMES[1]), Get(c, CONSTRAINT_NAMES[2]), Get(c, CONSTRAINT_NAMES[3]),
      Get(c, CONSTRAINT_NAMES[4]), Get(c, CONSTRAINT_NAMES[5]), Get(c, CONSTRAINT_NAMES[6]), Get(c, CONSTRAINT_NAMES[7]))
  }

  // ---- What the validator demands of each field -------------------------------

  /** Rights and uses: present, drawn from a vocabulary, non-empty, without repetition. */
  function WordListIssues(v: Option<Json>, words: seq<string>, missing: Code, invalid: Code, empty: Code, repeated: Code): seq<Code> {
    if v.None? then [missing]
    else if !IsWordArray(v.value, words) then [invalid]
    else if v.value.items == [] then [empty]
    else if !NoRepeats(StringsOf(v.value.items)) then [repeated]
    else []
  }

  function RightsIssues(c: TermsFields): seq<Code> {
    WordListIssues(c.rights, RIGHT_TYPES, MISSING_RIGHTS, INVALID_RIGHTS, EMPTY_RIGHTS, DUPLICATE_RIGHTS)
  }

  function PermittedUsesIssues(c: TermsFields): seq<Code> {
    WordListIssues(c.permittedUses, USE_TYPES,
                   MISSING_PERMITTED_USES, INVALID_PERMITTED_USES, EMPTY_PERMITTED_USES, DUPLICATE_PERMITTED_USES)
  }

  function ScopeIssues(j: Json): seq<Code> {
    if !j.Obj? then [INVALID_RIGHTS_SCOPE]
    else if Get(j, "kind") == Some(Str("proportional")) then
      if IsPositiveInteger(Get(j, "basisPoints")) && Get(j, "basisPoints").value.r.Floor <= FULL_BASIS_POINTS then []
      else [INVALID_RIGHTS_SCOPE_BASIS_POINTS]
    else if Get(j, "kind") == Some(Str("unitized")) then
      (if IsPositiveInteger(Get(j, "units")) then [] else [INVALID_RIGHTS_SCOPE_UNITS])
      + (if IsNonEmptyString(Get(j, "unitDenomination")) then [] else [INVALID_RIGHTS_SCOPE_UNIT_DENOMINATION])
    else [INVALID_RIGHTS_SCOPE_KIND]
  }

  predicate IsContextMapJson(j: Json) {
    && j.Obj? && j.fields != []
    && forall field | field in j.fields :: field.0 != "" && IsIdArray(field.1) && field.1.items != []
  }

  predicate IsUnits(j: Json) {
    j.Obj? && IsPositiveInteger(Get(j, "units")) && IsNonEmptyString(Get(j, "unitDenomination"))
  }

  /** `permitted` is the list of permitted uses, when that list itself is in order. */
  function ProhibitedUsesIssues(v: Option<Json>, permitted: Option<seq<string>>): seq<Code> {
    if v.None? then []
    else if !IsWordArray(v.value, USE_TYPES) || v.value.items == [] then [INVALID_PROHIBITED_USES]
    else if !NoRepeats(StringsOf(v.value.items)) then [INVALID_PROHIBITED_USES]
    else if permitted.Some? && !Disjoint(StringsOf(v.value.items), permitted.value) then [CONTRADICTORY_USES]
    else []
  }

  function DispositionIssues(v: Option<Json>, missing: Code, invalid: Code): seq<Code> {
    if v.None? then [missing] else When(!IsDisposition(v.value), invalid)
  }

  function ContextIssues(v: Option<Json>): seq<Code> {
    When(v.Some? && !IsContextMapJson(v.value), INVALID_PERMITTED_CONTEXTS)
  }

  function CeilingIssues(c: ConstraintFields): seq<Code> {
    When(c.maximumLicenseTermEndsAt.Some? && !IsTimestamp(c.maximumLicenseTermEndsAt), INVALID_MAXIMUM_LICENSE_TERM_ENDS_AT)
    + When(c.maximumLicensedUnits.Some? && !IsUnits(c.maximumLicensedUnits.value), INVALID_MAXIMUM_LICENSED_UNITS)
  }

  function DispositionsIssues(c: ConstraintFields): seq<Code> {
    DispositionIssues(c.sublicensing, MISSING_SUBLICENSING, INVALID_SUBLICENSING)
    + DispositionIssues(c.assignment, MISSING_ASSIGNMENT, INVALID_ASSIGNMENT)
  }

  function DeclarationIssues(c: ConstraintFields): seq<Code> {
    (if c.additionalLicensesAllowed.None? then [MISSING_ADDITIONAL_LICENSES_ALLOWED]
     else When(!IsBool(c.additionalLicensesAllowed), INVALID_ADDITIONAL_LICENSES_ALLOWED))
    + When(c.externalAgreementReferenceRequired.Some? && !IsBool(c.externalAgreementReferenceRequired),
           INVALID_EXTERNAL_AGREEMENT_REFERENCE_REQUIRED)
  }

  function ConstraintFieldIssues(c: ConstraintFields, permitted: Option<seq<string>>): seq<Code> {
    ProhibitedUsesIssues(c.prohibitedUses, permitted) + ContextIssues(c.permittedContexts) + CeilingIssues(c)
    + DispositionsIssues(c) + DeclarationIssues(c)
  }

  function ConstraintIssues(v: Option<Json>, permitted: Option<seq<string>>): seq<Code> {
    if !IsObj(v) then [MISSING_CONSTRAINTS] else ConstraintFieldIssues(ConstraintFieldsOf(v.value), permitted)
  }

  function PermittedUsesIfValid(c: TermsFields): Option<seq<string>> {
    if PermittedUsesIssues(c) == [] then Some(StringsOf(c.permittedUses.value.items)) else None
  }

  function LicenseeIssues(c: TermsFields): seq<Code> {
    if IsNonEmptyString(c.licenseeRef) then []
    else [if c.licenseeRef.None? then MISSING_LICENSEE_REF else INVALID_LICENSEE_REF]
  }

  function ExclusivityIssues(c: TermsFields): seq<Code> {
    if c.exclusivity.None? then [MISSING_EXCLUSIVITY]
    else When(!IsExclusivity(c.exclusivity.value), INVALID_EXCLUSIVITY)
  }

  function RightsScopeIssues(v: Option<Json>): seq<Code> {
    if v.None? then [] else ScopeIssues(v.value)
  }

  function ExecutorIssues(c: TermsFields): seq<Code> {
    When(c.executorRef.Some? && !IsNonEmptyString(c.executorRef), INVALID_EXECUTOR_REF)
  }

  function FieldIssues(c: TermsFields): seq<Code> {
    RightsIssues(c) + LicenseeIssues(c) + PermittedUsesIssues(c) + ExclusivityIssues(c)
    + RightsScopeIssues(c.rightsScope) + ExecutorIssues(c)
    + ConstraintIssues(c.constraints, PermittedUsesIfValid(c))
  }

  function TermsIssues(c: Json): seq<Code> {
    if !c.Obj? then [MISSING_TERMS] else FieldIssues(TermsFieldsOf(c))
  }
}
