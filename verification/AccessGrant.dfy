/** Access grants over untyped input: equality, the validator, the reader and the printer. */
module AccessGrant {
  import opened Options
  import opened Instants
  import opened Ordering
  import opened Records
  import opened Json
  import opened ReferenceLists
  import R = ResourceRefs

  const SCHEMA_VERSION := "1.0.0"

  datatype Status = Active | Revoked

  datatype Grant = Grant(
    schemaVersion: string,
    id: string,
    status: Status,
    resource: R.ResourceRef,
    decisionRef: string,
    principalId: string,
    issuedAt: string,
    expiresAt: string,
    correlationId: string,
    issuerRef: Option<string>,
    obligationRefs: Option<seq<string>>,
    auditRefs: Option<seq<string>>)

  predicate GrantIdentityEquals(a: Grant, b: Grant) {
    a.id == b.id && a.decisionRef == b.decisionRef && a.principalId == b.principalId && R.IdentityEquals(a.resource, b.resource)
  }

  predicate GrantEquals(a: Grant, b: Grant) {
    && GrantIdentityEquals(a, b)
    && a.schemaVersion == b.schemaVersion
    && R.AttributesEquals(a.resource.attributes, b.resource.attributes)
    && a.status == b.status
    && a.issuedAt == b.issuedAt
    && a.expiresAt == b.expiresAt
    && a.correlationId == b.correlationId
    && a.issuerRef == b.issuerRef
    && OptionalArrayEquals(a.obligationRefs, b.obligationRefs)
    && OptionalArrayEquals(a.auditRefs, b.auditRefs)
  }

  /** What a valid grant is. Two instants that cannot both be read are not found out of order. */
  ghost predicate WellFormed(parse: string -> Instant, g: Grant) {
    && g.schemaVersion == SCHEMA_VERSION
    && g.id != ""
    && R.WellFormedResource(g.resource)
    && g.decisionRef != "" && g.principalId != "" && g.correlationId != ""
    && IsIsoTimestamp(g.issuedAt) && IsIsoTimestamp(g.expiresAt)
    && !GreaterOrEqual(parse(g.issuedAt), parse(g.expiresAt))
    && g.issuerRef != Some("")
    && WellFormedOptionalRefs(g.obligationRefs)
    && WellFormedOptionalRefs(g.auditRefs)
  }

  // ---- Validation ---------------------------------------------------------------

  datatype Code =
    | UNSUPPORTED_SCHEMA_VERSION
    | MISSING_ID | INVALID_ID
    | MISSING_STATUS | INVALID_STATUS
    | MISSING_RESOURCE | INVALID_RESOURCE_IDENTITY
    | MISSING_DECISION_REF | INVALID_DECISION_REF
    | MISSING_PRINCIPAL_ID | INVALID_PRINCIPAL_ID
    | MISSING_ISSUED_AT | INVALID_ISSUED_AT
    | MISSING_EXPIRES_AT | INVALID_EXPIRES_AT
    | INVALID_EXPIRATION_ORDER
    | MISSING_CORRELATION_ID | INVALID_ISSUER_REF
    | INVALID_OBLIGATION_REFS | DUPLICATE_OBLIGATION_REF
    | INVALID_AUDIT_REFS | DUPLICATE_AUDIT_REF

  datatype Fields = Fields(
    schemaVersion: Option<Json>, id: Option<Json>, status: Option<Json>, resource: Option<Json>, decisionRef: Option<Json>,
    principalId: Option<Json>, issuedAt: Option<Json>, expiresAt: Option<Json>, correlationId: Option<Json>,
    issuerRef: Option<Json>, obligationRefs: Option<Json>, auditRefs: Option<Json>)

  const NAMES: seq<string> :=
    ["schemaVersion", "id", "status", "resource", "decisionRef", "principalId", "issuedAt", "expiresAt", "correlationId",
     "issuerRef", "obligationRefs", "auditRefs"]

  function FieldsOf(c: Json): Fields {
    Fields(Get(c, NAMES[0]), Get(c, NAMES[1]), Get(c, NAMES[2]), Get(c, NAMES[3]), Get(c, NAMES[4]), Get(c, NAMES[5]),
           Get(c, NAMES[6]), Get(c, NAMES[7]), Get(c, NAMES[8]), Get(c, NAMES[9]), Get(c, NAMES[10]), Get(c, NAMES[11]))
  }

  /** A required string: one code when it is absent, another when it is not one. */
  function TextIssues(v: Option<Json>, missing: Code, invalid: Code): seq<Code> {
    if IsNonEmptyString(v) then [] else [if v.None? then missing else invalid]
  }

  predicate IsStatus(j: Json) {
    j == Str("active") || j == Str("revoked")
  }

  function StatusIssues(v: Option<Json>): seq<Code> {
    if v.None? then [MISSING_STATUS] else When(!IsStatus(v.value), INVALID_STATUS)
  }

  function ResourceIssues(v: Option<Json>): seq<Code> {
    if !IsObj(v) then [MISSING_RESOURCE] else When(!R.IdentityPresent(R.FieldsOf(v.value)), INVALID_RESOURCE_IDENTITY)
  }

  function TimestampIssues(v: Option<Json>, missing: Code, invalid: Code): seq<Code> {
    if v.None? then [missing] else When(!IsTimestamp(v), invalid)
  }

  predicate OutOfOrder(parse: string -> Instant, issuedAt: Option<Json>, expiresAt: Option<Json>) {
    IsTimestamp(issuedAt) && IsTimestamp(expiresAt) && GreaterOrEqual(parse(issuedAt.value.s), parse(expiresAt.value.s))
  }

  function IdentityIssues(f: Fields): seq<Code> {
    When(f.schemaVersion != Some(Str(SCHEMA_VERSION)), UNSUPPORTED_SCHEMA_VERSION)
    + TextIssues(f.id, MISSING_ID, INVALID_ID)
    + StatusIssues(f.status)
    + ResourceIssues(f.resource)
    + TextIssues(f.decisionRef, MISSING_DECISION_REF, INVALID_DECISION_REF)
    + TextIssues(f.principalId, MISSING_PRINCIPAL_ID, INVALID_PRINCIPAL_ID)
  }

  function WindowIssues(parse: string -> Instant, f: Fields): seq<Code> {
    TimestampIssues(f.issuedAt, MISSING_ISSUED_AT, INVALID_ISSUED_AT)
    + TimestampIssues(f.expiresAt, MISSING_EXPIRES_AT, INVALID_EXPIRES_AT)
    + When(OutOfOrder(parse, f.issuedAt, f.expiresAt), INVALID_EXPIRATION_ORDER)
  }

  function CorrelationIssues(f: Fields): seq<Code> {
    TextIssues(f.correlationId, MISSING_CORRELATION_ID, MISSING_CORRELATION_ID)
    + When(f.issuerRef.Some? && !IsNonEmptyString(f.issuerRef), INVALID_ISSUER_REF)
  }

  function ReferenceIssues(f: Fields): seq<Code> {
    CorrelationIssues(f)
    + OptionalRefsIssues(f.obligationRefs, INVALID_OBLIGATION_REFS, DUPLICATE_OBLIGATION_REF)
    + OptionalRefsIssues(f.auditRefs, INVALID_AUDIT_REFS, DUPLICATE_AUDIT_REF)
  }

  function FieldIssues(parse: string -> Instant, f: Fields): seq<Code> {
    IdentityIssues(f) + WindowIssues(parse, f) + ReferenceIssues(f)
  }

  function Issues(parse: string -> Instant, c: Json): seq<Code> {
    if !c.Obj? then [MISSING_ID] else FieldIssues(parse, FieldsOf(c))
  }

  // ---- What a candidate carries ---------------------------------------------------

  function StatusName(s: Status): string {
    if s == Active then "active" else "revoked"
  }

  predicate Carried(f: Fields, g: Grant) {
    && f.schemaVersion == Some(Str(g.schemaVersion))
    && f.id == Some(Str(g.id))
    && f.status == Some(Str(StatusName(g.status)))
    && IsObj(f.resource) && R.Carried(R.FieldsOf(f.resource.value), g.resource)
    && f.decisionRef == Some(Str(g.decisionRef))
    && f.principalId == Some(Str(g.principalId))
    && f.issuedAt == Some(Str(g.issuedAt))
    && f.expiresAt == Some(Str(g.expiresAt))
    && f.correlationId == Some(Str(g.correlationId))
    && f.issuerRef == TextOf(g.issuerRef)
    && f.obligationRefs == ListOf(g.obligationRefs)
    && f.auditRefs == ListOf(g.auditRefs)
  }

  predicate Carries(c: Json, g: Grant) {
    c.Obj? && Carried(FieldsOf(c), g)
  }

  /** The validator does not look at these, and the reader takes them as they come. */
  predicate ResourceRestTyped(f: Fields) {
    IsObj(f.resource) ==> R.RestTyped(R.FieldsOf(f.resource.value))
  }

  function ReadFields(parse: string -> Instant, f: Fields): Grant
    requires FieldIssues(parse, f) == [] && ResourceRestTyped(f)
  {
    ReferencesReadBack(parse, f);
    Grant(
      SCHEMA_VERSION, f.id.value.s, if f.status.value.s == "active" then Active else Revoked,
      R.Read(R.FieldsOf(f.resource.value)), f.decisionRef.value.s, f.principalId.value.s, f.issuedAt.value.s, f.expiresAt.value.s,
      f.correlationId.value.s, ReadText(f.issuerRef), ReadList(f.obligationRefs), ReadList(f.auditRefs))
  }

  lemma ReferencesReadBack(parse: string -> Instant, f: Fields)
    requires FieldIssues(parse, f) == []
    ensures f.obligationRefs.Some? ==> IsStringArray(f.obligationRefs.value)
    ensures f.auditRefs.Some? ==> IsStringArray(f.auditRefs.value)
    ensures ListOf(ReadList(f.obligationRefs)) == f.obligationRefs && WellFormedOptionalRefs(ReadList(f.obligationRefs))
    ensures ListOf(ReadList(f.auditRefs)) == f.auditRefs && WellFormedOptionalRefs(ReadList(f.auditRefs))
  {
    OptionalRefsReadBack(f.obligationRefs, INVALID_OBLIGATION_REFS, DUPLICATE_OBLIGATION_REF);
    OptionalRefsReadBack(f.auditRefs, INVALID_AUDIT_REFS, DUPLICATE_AUDIT_REF);
  }

  /** Validates, then maps every field explicitly. */
  function Deserialize(parse: string -> Instant, c: Json): Grant
    requires Issues(parse, c) == [] && ResourceRestTyped(FieldsOf(c))
  {
    ReadFields(parse, FieldsOf(c))
  }

  lemma IdentityAccepted(parse: string -> Instant, f: Fields, g: Grant)
    requires Carried(f, g) && WellFormed(parse, g)
    ensures IdentityIssues(f) == []
  {
  }

  lemma WindowAccepted(parse: string -> Instant, f: Fields, g: Grant)
    requires Carried(f, g) && WellFormed(parse, g)
    ensures WindowIssues(parse, f) == []
  {
  }

  lemma ReferencesAccepted(parse: string -> Instant, f: Fields, g: Grant)
    requires Carried(f, g) && WellFormed(parse, g)
    ensures ReferenceIssues(f) == []
    ensures (f.obligationRefs.Some? ==> IsStringArray(f.obligationRefs.value)) && ReadList(f.obligationRefs) == g.obligationRefs
    ensures (f.auditRefs.Some? ==> IsStringArray(f.auditRefs.value)) && ReadList(f.auditRefs) == g.auditRefs
  {
    OptionalRefsAccepted(g.obligationRefs, INVALID_OBLIGATION_REFS, DUPLICATE_OBLIGATION_REF);
    OptionalRefsAccepted(g.auditRefs, INVALID_AUDIT_REFS, DUPLICATE_AUDIT_REF);
  }

  lemma CarriedIsAccepted(parse: string -> Instant, f: Fields, g: Grant)
    requires Carried(f, g) && WellFormed(parse, g)
    ensures FieldIssues(parse, f) == [] && ResourceRestTyped(f) && ReadFields(parse, f) == g
  {
    IdentityAccepted(parse, f, g);
    WindowAccepted(parse, f, g);
    ReferencesAccepted(parse, f, g);
    R.CarriedReadsBack(R.FieldsOf(f.resource.value), g.resource);
  }
}
