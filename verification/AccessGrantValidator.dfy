/**
 The access-grant validator as it pushes issues one after the other, and what its
 verdict means to a caller.
 */
module AccessGrantValidator {
  import opened Options
  import opened Instants
  import opened Ordering
  import opened Json
  import opened Lists
  import opened ReferenceLists
  import opened AccessGrant
  import opened AccessGrantPrinting
  import R = ResourceRefs

  // ---- What each issue says, on its own ------------------------------------------

  predicate Ground(parse: string -> Instant, f: Fields, code: Code) {
    match code
    case UNSUPPORTED_SCHEMA_VERSION => f.schemaVersion != Some(Str("1.0.0"))
    case MISSING_ID => f.id.None?
    case INVALID_ID => f.id.Some? && !IsNonEmptyString(f.id)
    case MISSING_STATUS => f.status.None?
    case INVALID_STATUS => f.status.Some? && f.status.value !in [Str("active"), Str("revoked")]
    case MISSING_RESOURCE => !IsObj(f.resource)
    case INVALID_RESOURCE_IDENTITY => IsObj(f.resource) && !R.IdentityPresent(R.FieldsOf(f.resource.value))
    case MISSING_DECISION_REF => f.decisionRef.None?
    case INVALID_DECISION_REF => f.decisionRef.Some? && !IsNonEmptyString(f.decisionRef)
    case MISSING_PRINCIPAL_ID => f.principalId.None?
    case INVALID_PRINCIPAL_ID => f.principalId.Some? && !IsNonEmptyString(f.principalId)
    case MISSING_ISSUED_AT => f.issuedAt.None?
    case INVALID_ISSUED_AT => f.issuedAt.Some? && !IsTimestamp(f.issuedAt)
    case MISSING_EXPIRES_AT => f.expiresAt.None?
    case INVALID_EXPIRES_AT => f.expiresAt.Some? && !IsTimestamp(f.expiresAt)
    case INVALID_EXPIRATION_ORDER =>
      IsTimestamp(f.issuedAt) && IsTimestamp(f.expiresAt) && GreaterOrEqual(parse(f.issuedAt.value.s), parse(f.expiresAt.value.s))
    case MISSING_CORRELATION_ID => !IsNonEmptyString(f.correlationId)
    case INVALID_ISSUER_REF => f.issuerRef.Some? && !IsNonEmptyString(f.issuerRef)
    case INVALID_OBLIGATION_REFS => RefsMalformed(f.obligationRefs)
    case DUPLICATE_OBLIGATION_REF => RefsGivenTwice(f.obligationRefs)
    case INVALID_AUDIT_REFS => RefsMalformed(f.auditRefs)
    case DUPLICATE_AUDIT_REF => RefsGivenTwice(f.auditRefs)
  }

  datatype Part = Document | Status | Resource | Decision | Principal | Window | Correlation | Obligations | Audits

  function About(code: Code): Part {
    match code
    case MISSING_STATUS => Status
    case INVALID_STATUS => Status
    case MISSING_RESOURCE => Resource
    case INVALID_RESOURCE_IDENTITY => Resource
    case MISSING_DECISION_REF => Decision
    case INVALID_DECISION_REF => Decision
    case MISSING_PRINCIPAL_ID => Principal
    case INVALID_PRINCIPAL_ID => Principal
    case MISSING_ISSUED_AT => Window
    case INVALID_ISSUED_AT => Window
    case MISSING_EXPIRES_AT => Window
    case INVALID_EXPIRES_AT => Window
    case INVALID_EXPIRATION_ORDER => Window
    case MISSING_CORRELATION_ID => Correlation
    case INVALID_ISSUER_REF => Correlation
    case INVALID_OBLIGATION_REFS => Obligations
    case DUPLICATE_OBLIGATION_REF => Obligations
    case INVALID_AUDIT_REFS => Audits
    case DUPLICATE_AUDIT_REF => Audits
    case _ => Document
  }

  lemma DocumentCodes(parse: string -> Instant, f: Fields, code: Code)
    ensures code in When(f.schemaVersion != Some(Str(SCHEMA_VERSION)), UNSUPPORTED_SCHEMA_VERSION) + TextIssues(f.id, MISSING_ID, INVALID_ID)
      <==> About(code) == Document && Ground(parse, f, code)
  {
  }

  lemma StatusCodes(parse: string -> Instant, f: Fields, code: Code)
    ensures code in StatusIssues(f.status) <==> About(code) == Status && Ground(parse, f, code)
  {
  }

  lemma ResourceCodes(parse: string -> Instant, f: Fields, code: Code)
    ensures code in ResourceIssues(f.resource) <==> About(code) == Resource && Ground(parse, f, code)
  {
  }

  lemma PartyCodes(parse: string -> Instant, f: Fields, code: Code)
    ensures code in TextIssues(f.decisionRef, MISSING_DECISION_REF, INVALID_DECISION_REF) <==> About(code) == Decision && Ground(parse, f, code)
    ensures code in TextIssues(f.principalId, MISSING_PRINCIPAL_ID, INVALID_PRINCIPAL_ID) <==> About(code) == Principal && Ground(parse, f, code)
  {
  }

  lemma IdentityCodes(parse: string -> Instant, f: Fields, code: Code)
    ensures code in IdentityIssues(f) <==> About(code) in [Document, Status, Resource, Decision, Principal] && Ground(parse, f, code)
  {
    DocumentCodes(parse, f, code);
    StatusCodes(parse, f, code);
    ResourceCodes(parse, f, code);
    PartyCodes(parse, f, code);
  }

  lemma WindowCodes(parse: string -> Instant, f: Fields, code: Code)
    ensures code in WindowIssues(parse, f) <==> About(code) == Window && Ground(parse, f, code)
  {
  }

  lemma CorrelationCodes(parse: string -> Instant, f: Fields, code: Code)
    ensures code in CorrelationIssues(f) <==> About(code) == Correlation && Ground(parse, f, code)
  {
  }

  lemma ObligationGround(parse: string -> Instant, f: Fields, code: Code)
    ensures RefsGround(f.obligationRefs, INVALID_OBLIGATION_REFS, DUPLICATE_OBLIGATION_REF, code) <==>
      About(code) == Obligations && Ground(parse, f, code)
  {
  }

  lemma AuditGround(parse: string -> Instant, f: Fields, code: Code)
    ensures RefsGround(f.auditRefs, INVALID_AUDIT_REFS, DUPLICATE_AUDIT_REF, code) <==> About(code) == Audits && Ground(parse, f, code)
  {
  }

  lemma ListedCodes(f: Fields, code: Code)
    ensures code in ReferenceIssues(f) <==>
      || code in CorrelationIssues(f)
      || RefsGround(f.obligationRefs, INVALID_OBLIGATION_REFS, DUPLICATE_OBLIGATION_REF, code)
      || RefsGround(f.auditRefs, INVALID_AUDIT_REFS, DUPLICATE_AUDIT_REF, code)
  {
    OptionalRefsCodes(f.obligationRefs, INVALID_OBLIGATION_REFS, DUPLICATE_OBLIGATION_REF, code);
    OptionalRefsCodes(f.auditRefs, INVALID_AUDIT_REFS, DUPLICATE_AUDIT_REF, code);
  }

  lemma ReferenceCodes(parse: string -> Instant, f: Fields, code: Code)
    ensures code in ReferenceIssues(f) <==> About(code) in [Correlation, Obligations, Audits] && Ground(parse, f, code)
  {
    ListedCodes(f, code);
    CorrelationCodes(parse, f, code);
    ObligationGround(parse, f, code);
    AuditGround(parse, f, code);
  }

  /** An issue is reported exactly when its own ground holds, whatever else is wrong with the candidate. */
  lemma ReportedIffGround(parse: string -> Instant, candidate: Json, code: Code)
    requires candidate.Obj?
    ensures code in Issues(parse, candidate) <==> Ground(parse, FieldsOf(candidate), code)
  {
    IdentityCodes(parse, FieldsOf(candidate), code);
    WindowCodes(parse, FieldsOf(candidate), code);
    ReferenceCodes(parse, FieldsOf(candidate), code);
  }

  // ---- The order of the issues ----------------------------------------------------

  /** The field an issue is about, by its place in the order of checks. */
  function Place(code: Code): int {
    match code
    case UNSUPPORTED_SCHEMA_VERSION => 0
    case MISSING_ID => 1
    case INVALID_ID => 1
    case MISSING_STATUS => 2
    case INVALID_STATUS => 2
    case MISSING_RESOURCE => 3
    case INVALID_RESOURCE_IDENTITY => 3
    case MISSING_DECISION_REF => 4
    case INVALID_DECISION_REF => 4
    case MISSING_PRINCIPAL_ID => 5
    case INVALID_PRINCIPAL_ID => 5
    case MISSING_ISSUED_AT => 6
    case INVALID_ISSUED_AT => 6
    case MISSING_EXPIRES_AT => 7
    case INVALID_EXPIRES_AT => 7
    case INVALID_EXPIRATION_ORDER => 8
    case MISSING_CORRELATION_ID => 9
    case INVALID_ISSUER_REF => 10
    case INVALID_OBLIGATION_REFS => 11
    case DUPLICATE_OBLIGATION_REF => 11
    case INVALID_AUDIT_REFS => 12
    case DUPLICATE_AUDIT_REF => 12
  }

  lemma DocumentRanked(f: Fields)
    ensures Ranked(Place, When(f.schemaVersion != Some(Str(SCHEMA_VERSION)), UNSUPPORTED_SCHEMA_VERSION) + TextIssues(f.id, MISSING_ID, INVALID_ID), 0, 1)
  {
  }

  lemma StatusRanked(f: Fields)
    ensures Ranked(Place, StatusIssues(f.status), 2, 2)
  {
  }

  lemma ResourceRanked(f: Fields)
    ensures Ranked(Place, ResourceIssues(f.resource), 3, 3)
  {
  }

  lemma PartyRanked(f: Fields)
    ensures Ranked(Place, TextIssues(f.decisionRef, MISSING_DECISION_REF, INVALID_DECISION_REF), 4, 4)
    ensures Ranked(Place, TextIssues(f.principalId, MISSING_PRINCIPAL_ID, INVALID_PRINCIPAL_ID), 5, 5)
  {
  }

  lemma FiveRanked(document: seq<Code>, status: seq<Code>, resource: seq<Code>, decision: seq<Code>, principal: seq<Code>)
    requires Ranked(Place, document, 0, 1) && Ranked(Place, status, 2, 2) && Ranked(Place, resource, 3, 3)
    requires Ranked(Place, decision, 4, 4) && Ranked(Place, principal, 5, 5)
    ensures Ranked(Place, document + status + resource + decision + principal, 0, 5)
  {
    RankedJoin(Place, document, status, 0, 2, 2);
    RankedJoin(Place, document + status, resource, 0, 3, 3);
    RankedJoin(Place, document + status + resource, decision, 0, 4, 4);
    RankedJoin(Place, document + status + resource + decision, principal, 0, 5, 5);
  }

  lemma IdentityRanked(f: Fields)
    ensures Ranked(Place, IdentityIssues(f), 0, 5)
  {
    DocumentRanked(f);
    StatusRanked(f);
    ResourceRanked(f);
    PartyRanked(f);
    FiveRanked(When(f.schemaVersion != Some(Str(SCHEMA_VERSION)), UNSUPPORTED_SCHEMA_VERSION) + TextIssues(f.id, MISSING_ID, INVALID_ID),
               StatusIssues(f.status), ResourceIssues(f.resource), TextIssues(f.decisionRef, MISSING_DECISION_REF, INVALID_DECISION_REF),
               TextIssues(f.principalId, MISSING_PRINCIPAL_ID, INVALID_PRINCIPAL_ID));
  }

  lemma InstantsRanked(f: Fields)
    ensures Ranked(Place, TimestampIssues(f.issuedAt, MISSING_ISSUED_AT, INVALID_ISSUED_AT), 6, 6)
    ensures Ranked(Place, TimestampIssues(f.expiresAt, MISSING_EXPIRES_AT, INVALID_EXPIRES_AT), 7, 7)
  {
  }

  lemma WindowJoined(issued: seq<Code>, expires: seq<Code>, outOfOrder: bool)
    requires Ranked(Place, issued, 6, 6) && Ranked(Place, expires, 7, 7)
    ensures Ranked(Place, issued + expires + When(outOfOrder, INVALID_EXPIRATION_ORDER), 6, 8)
  {
    RankedJoin(Place, issued, expires, 6, 7, 7);
    RankedJoin(Place, issued + expires, When(outOfOrder, INVALID_EXPIRATION_ORDER), 6, 8, 8);
  }

  lemma WindowRanked(parse: string -> Instant, f: Fields)
    ensures Ranked(Place, WindowIssues(parse, f), 6, 8)
  {
    InstantsRanked(f);
    WindowJoined(TimestampIssues(f.issuedAt, MISSING_ISSUED_AT, INVALID_ISSUED_AT),
                 TimestampIssues(f.expiresAt, MISSING_EXPIRES_AT, INVALID_EXPIRES_AT),
                 OutOfOrder(parse, f.issuedAt, f.expiresAt));
  }

  lemma CorrelationRanked(f: Fields)
    ensures Ranked(Place, CorrelationIssues(f), 9, 10)
  {
  }

  lemma ListsRanked(f: Fields)
    ensures Ranked(Place, OptionalRefsIssues(f.obligationRefs, INVALID_OBLIGATION_REFS, DUPLICATE_OBLIGATION_REF), 11, 11)
    ensures Ranked(Place, OptionalRefsIssues(f.auditRefs, INVALID_AUDIT_REFS, DUPLICATE_AUDIT_REF), 12, 12)
  {
    RefsRanked(Place, f.obligationRefs, INVALID_OBLIGATION_REFS, DUPLICATE_OBLIGATION_REF, 11, 11);
    RefsRanked(Place, f.auditRefs, INVALID_AUDIT_REFS, DUPLICATE_AUDIT_REF, 12, 12);
  }

  lemma ThreeRanked(correlation: seq<Code>, obligations: seq<Code>, audits: seq<Code>)
    requires Ranked(Place, correlation, 9, 10) && Ranked(Place, obligations, 11, 11) && Ranked(Place, audits, 12, 12)
    ensures Ranked(Place, correlation + obligations + audits, 9, 12)
  {
    RankedJoin(Place, correlation, obligations, 9, 11, 11);
    RankedJoin(Place, correlation + obligations, audits, 9, 12, 12);
  }

  lemma ReferencesRanked(f: Fields)
    ensures Ranked(Place, ReferenceIssues(f), 9, 12)
  {
    CorrelationRanked(f);
    ListsRanked(f);
    ThreeRanked(CorrelationIssues(f), OptionalRefsIssues(f.obligationRefs, INVALID_OBLIGATION_REFS, DUPLICATE_OBLIGATION_REF),
                OptionalRefsIssues(f.auditRefs, INVALID_AUDIT_REFS, DUPLICATE_AUDIT_REF));
  }

  /** The issues come in the order of the fields. */
  lemma IssuesRanked(parse: string -> Instant, candidate: Json)
    ensures Ranked(Place, Issues(parse, candidate), 0, 12)
  {
    if candidate.Obj? {
      var f := FieldsOf(candidate);
      IdentityRanked(f);
      WindowRanked(parse, f);
      ReferencesRanked(f);
      RankedJoin(Place, IdentityIssues(f), WindowIssues(parse, f), 0, 6, 8);
      RankedJoin(Place, IdentityIssues(f) + WindowIssues(parse, f), ReferenceIssues(f), 0, 9, 12);
    }
  }

  // ---- The validator ------------------------------------------------------------------

  ghost predicate CarriesSomeGrant(parse: string -> Instant, candidate: Json) {
    exists g :: Carries(candidate, g) && WellFormed(parse, g)
  }

  method CollectWindowIssues(parse: string -> Instant, f: Fields) returns (errors: seq<Code>)
    ensures errors == WindowIssues(parse, f)
  {
    errors := [];
    var issuedAtValid, expiresAtValid := false, false;
    if f.issuedAt.None? {
      errors := errors + [MISSING_ISSUED_AT];
    } else if !IsTimestamp(f.issuedAt) {
      errors := errors + [INVALID_ISSUED_AT];
    } else {
      issuedAtValid := true;
    }
    if f.expiresAt.None? {
      errors := errors + [MISSING_EXPIRES_AT];
    } else if !IsTimestamp(f.expiresAt) {
      errors := errors + [INVALID_EXPIRES_AT];
    } else {
      expiresAtValid := true;
    }
    if issuedAtValid && expiresAtValid && GreaterOrEqual(parse(f.issuedAt.value.s), parse(f.expiresAt.value.s)) {
      errors := errors + [INVALID_EXPIRATION_ORDER];
    }
  }

  method PushIssues(parse: string -> Instant, candidate: Json) returns (errors: seq<Code>)
    ensures errors == Issues(parse, candidate)
  {
    if !candidate.Obj? { return [MISSING_ID]; }
    var f := FieldsOf(candidate);
    var window := CollectWindowIssues(parse, f);
    var obligations := CollectOptionalRefsIssues(f.obligationRefs, INVALID_OBLIGATION_REFS, DUPLICATE_OBLIGATION_REF);
    var audits := CollectOptionalRefsIssues(f.auditRefs, INVALID_AUDIT_REFS, DUPLICATE_AUDIT_REF);
    errors := IdentityIssues(f) + window + (CorrelationIssues(f) + obligations + audits);
  }

  /**
   For a candidate whose unchecked parts are well-typed, nothing is reported exactly when it
   carries a valid grant; and each issue is reported exactly on its own ground.
   */
  method Validate(parse: string -> Instant, candidate: Json) returns (errors: seq<Code>)
    ensures errors == Issues(parse, candidate)
    ensures Proper(candidate) && candidate.Obj? && ResourceRestTyped(FieldsOf(candidate)) ==>
      (errors == [] <==> CarriesSomeGrant(parse, candidate))
    ensures forall code :: code in errors <==> if candidate.Obj? then Ground(parse, FieldsOf(candidate), code) else code == MISSING_ID
    ensures Ranked(Place, errors, 0, 12)
  {
    errors := PushIssues(parse, candidate);
    IssuesRanked(parse, candidate);
    if candidate.Obj? {
      if Proper(candidate) { AcceptedAndTypedIff(parse, candidate); }
      forall code ensures code in errors <==> Ground(parse, FieldsOf(candidate), code) {
        ReportedIffGround(parse, candidate, code);
      }
    }
  }
}
