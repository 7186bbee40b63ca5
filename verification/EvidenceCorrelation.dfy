/** Evidence correlation graphs: equality as sets of references, graph consistency, metadata hygiene, and the validator over untyped input. */
module EvidenceCorrelation {
  import opened Options
  import opened Ordering
  import opened Records
  import opened Json
  import opened ReferenceLists
  import R = ResourceRefs

  const SCHEMA_VERSION := "1.0.0"

  /** Opaque keys, each with a string, a number or a boolean. */
  type Metadata = seq<(string, Json)>

  datatype Graph = Graph(
    schemaVersion: string,
    id: string,
    resource: R.ResourceRef,
    decisionRefs: seq<string>,
    correlatedAt: string,
    obligationRefs: Option<seq<string>>,
    grantRefs: Option<seq<string>>,
    usageRefs: Option<seq<string>>,
    revocationRefs: Option<seq<string>>,
    metadata: Option<Metadata>,
    description: Option<string>)

  predicate GraphIdentityEquals(a: Graph, b: Graph) {
    && a.id == b.id
    && R.IdentityEquals(a.resource, b.resource)
    && StringArrayEquals(a.decisionRefs, b.decisionRefs)
    && OptionalArrayEquals(a.obligationRefs, b.obligationRefs)
    && OptionalArrayEquals(a.grantRefs, b.grantRefs)
    && OptionalArrayEquals(a.usageRefs, b.usageRefs)
    && OptionalArrayEquals(a.revocationRefs, b.revocationRefs)
  }

  /** Strict equality of scalars: a number that is not one differs from itself. */
  predicate StrictEquals(v: Option<Json>, w: Option<Json>) {
    v == w && v != Some(NotANumber)
  }

  predicate MetadataEquals(a: Option<Metadata>, b: Option<Metadata>) {
    if a.None? || b.None? then a == b
    else
      && SortStrings(Keys(a.value)) == SortStrings(Keys(b.value))
      && forall key | key in Keys(a.value) :: StrictEquals(Lookup(a.value, key), Lookup(b.value, key))
  }

  predicate GraphEquals(a: Graph, b: Graph) {
    && GraphIdentityEquals(a, b)
    && a.schemaVersion == b.schemaVersion
    && R.AttributesEquals(a.resource.attributes, b.resource.attributes)
    && a.correlatedAt == b.correlatedAt
    && MetadataEquals(a.metadata, b.metadata)
    && a.description == b.description
  }

  // ---- Metadata keys ------------------------------------------------------------

  const FORBIDDEN_KEY_PARTS: seq<string> :=
    ["apikey", "api-key", "token", "jwt", "credential", "password", "secret", "bearer", "url", "accesskey", "sessionid", "cookie"]

  function LowerChar(c: char): char {
    if 'A' <= c <= 'Z' then c + 32 as char else c
  }

  function Lower(s: string): string {
    seq(|s|, i requires 0 <= i < |s| => LowerChar(s[i]))
  }

  predicate Includes(s: string, part: string) {
    part <= s || (s != [] && Includes(s[1..], part))
  }

  predicate MentionsAny(s: string, parts: seq<string>) {
    parts != [] && (Includes(s, parts[0]) || MentionsAny(s, parts[1..]))
  }

  predicate IsForbiddenKey(key: string) {
    MentionsAny(Lower(key), FORBIDDEN_KEY_PARTS)
  }

  predicate StandsAt(part: string, s: string, i: nat) {
    i + |part| <= |s| && s[i..i + |part|] == part
  }

  /** `part` stands in `s` at some place. */
  predicate Occurs(part: string, s: string) {
    exists i: nat | i <= |s| :: StandsAt(part, s, i)
  }

  lemma {:induction false} IncludesIff(s: string, part: string)
    ensures Includes(s, part) <==> Occurs(part, s)
  {
    if part <= s {
      assert StandsAt(part, s, 0);
    } else if s != [] {
      IncludesIff(s[1..], part);
      if i: nat :| i <= |s[1..]| && StandsAt(part, s[1..], i) {
        assert s[i + 1..i + 1 + |part|] == s[1..][i..i + |part|];
        assert StandsAt(part, s, i + 1);
      }
      if i: nat :| i <= |s| && StandsAt(part, s, i) {
        assert i > 0;
        assert s[1..][i - 1..i - 1 + |part|] == s[i..i + |part|];
        assert StandsAt(part, s[1..], i - 1);
      }
    }
  }

  lemma {:induction false} MentionsIff(s: string, parts: seq<string>)
    ensures MentionsAny(s, parts) <==> exists part | part in parts :: Occurs(part, s)
  {
    if parts != [] {
      IncludesIff(s, parts[0]);
      MentionsIff(s, parts[1..]);
      assert parts == [parts[0]] + parts[1..];
    }
  }

  /** Two strings of one length that differ at most in the case of their letters, the second of which has no capital. */
  predicate InLowerCase(s: string, lower: string) {
    && |s| == |lower|
    && forall i | 0 <= i < |s| ::
         && !('A' <= lower[i] <= 'Z')
         && (lower[i] == s[i] || ('A' <= s[i] <= 'Z' && lower[i] as int - s[i] as int == 'a' as int - 'A' as int))
  }

  /** A metadata key is refused exactly when, in lower case, it contains one of twelve words. */
  lemma ForbiddenIff(key: string)
    ensures InLowerCase(key, Lower(key))
    ensures IsForbiddenKey(key) <==> exists word | word in
      ["token", "jwt", "bearer", "secret", "password", "credential", "cookie", "sessionid", "apikey", "api-key", "accesskey", "url"] ::
      Occurs(word, Lower(key))
  {
    MentionsIff(Lower(key), FORBIDDEN_KEY_PARTS);
  }

  predicate IsMetadataValue(j: Json) {
    j.Str? || j.Bool? || j.Number?
  }

  predicate EntryAllowed(entry: (string, Json)) {
    IsMetadataValue(entry.1) && !IsForbiddenKey(entry.0)
  }

  // ---- Valid graphs ----------------------------------------------------------------

  /** Usage and revocation are correlated only together with a grant. */
  predicate Consistent(grantRefs: Option<seq<string>>, usageRefs: Option<seq<string>>, revocationRefs: Option<seq<string>>) {
    usageRefs.Some? || revocationRefs.Some? ==> grantRefs.Some?
  }

  ghost predicate WellFormedMetadata(metadata: Option<Metadata>) {
    metadata.Some? ==> IsObject(metadata.value) && forall i | 0 <= i < |metadata.value| :: EntryAllowed(metadata.value[i])
  }

  ghost predicate WellFormed(g: Graph) {
    && g.schemaVersion == SCHEMA_VERSION
    && g.id != ""
    && R.WellFormedResource(g.resource)
    && WellFormedRefs(g.decisionRefs)
    && WellFormedOptionalRefs(g.obligationRefs) && WellFormedOptionalRefs(g.grantRefs)
    && WellFormedOptionalRefs(g.usageRefs) && WellFormedOptionalRefs(g.revocationRefs)
    && Consistent(g.grantRefs, g.usageRefs, g.revocationRefs)
    && IsIsoTimestamp(g.correlatedAt)
    && WellFormedMetadata(g.metadata)
    && g.description != Some("")
  }

  // ---- Validation -------------------------------------------------------------------

  datatype Code =
    | UNSUPPORTED_SCHEMA_VERSION
    | MISSING_ID | INVALID_ID
    | MISSING_RESOURCE | INVALID_RESOURCE_IDENTITY
    | MISSING_DECISION_REFS | INVALID_DECISION_REFS | DUPLICATE_DECISION_REF
    | INVALID_OBLIGATION_REFS | DUPLICATE_OBLIGATION_REF
    | INVALID_GRANT_REFS | DUPLICATE_GRANT_REF
    | INVALID_USAGE_REFS | DUPLICATE_USAGE_REF
    | INVALID_REVOCATION_REFS | DUPLICATE_REVOCATION_REF
    | USAGE_WITHOUT_GRANT | REVOCATION_WITHOUT_GRANT
    | MISSING_CORRELATED_AT | INVALID_CORRELATED_AT
    | INVALID_METADATA | FORBIDDEN_METADATA_KEY
    | INVALID_DESCRIPTION

  datatype Fields = Fields(
    schemaVersion: Option<Json>, id: Option<Json>, resource: Option<Json>, decisionRefs: Option<Json>, correlatedAt: Option<Json>,
    obligationRefs: Option<Json>, grantRefs: Option<Json>, usageRefs: Option<Json>, revocationRefs: Option<Json>,
    metadata: Option<Json>, description: Option<Json>)

  const NAMES: seq<string> :=
    ["schemaVersion", "id", "resource", "decisionRefs", "correlatedAt", "obligationRefs", "grantRefs", "usageRefs", "revocationRefs",
     "metadata", "description"]

  function FieldsOf(c: Json): Fields {
    Fields(Get(c, NAMES[0]), Get(c, NAMES[1]), Get(c, NAMES[2]), Get(c, NAMES[3]), Get(c, NAMES[4]), Get(c, NAMES[5]),
           Get(c, NAMES[6]), Get(c, NAMES[7]), Get(c, NAMES[8]), Get(c, NAMES[9]), Get(c, NAMES[10]))
  }

  function IdentityIssues(f: Fields): seq<Code> {
    When(f.schemaVersion != Some(Str(SCHEMA_VERSION)), UNSUPPORTED_SCHEMA_VERSION)
    + (if IsNonEmptyString(f.id) then [] else [if f.id.None? then MISSING_ID else INVALID_ID])
    + (if !IsObj(f.resource) then [MISSING_RESOURCE]
       else When(!R.IdentityPresent(R.FieldsOf(f.resource.value)), INVALID_RESOURCE_IDENTITY))
  }

  function DecisionIssues(v: Option<Json>): seq<Code> {
    if v.None? then [MISSING_DECISION_REFS] else RefsIssues(v.value, INVALID_DECISION_REFS, DUPLICATE_DECISION_REF)
  }

  function ReferenceIssues(f: Fields): seq<Code> {
    DecisionIssues(f.decisionRefs)
    + OptionalRefsIssues(f.obligationRefs, INVALID_OBLIGATION_REFS, DUPLICATE_OBLIGATION_REF)
    + OptionalRefsIssues(f.grantRefs, INVALID_GRANT_REFS, DUPLICATE_GRANT_REF)
    + OptionalRefsIssues(f.usageRefs, INVALID_USAGE_REFS, DUPLICATE_USAGE_REF)
    + OptionalRefsIssues(f.revocationRefs, INVALID_REVOCATION_REFS, DUPLICATE_REVOCATION_REF)
  }

  predicate Populated(v: Option<Json>) {
    v.Some? && v.value.Arr? && v.value.items != []
  }

  function ConsistencyIssues(f: Fields): seq<Code> {
    When(Populated(f.usageRefs) && !Populated(f.grantRefs), USAGE_WITHOUT_GRANT)
    + When(Populated(f.revocationRefs) && !Populated(f.grantRefs), REVOCATION_WITHOUT_GRANT)
  }

  function EntryIssues(entry: (string, Json)): seq<Code> {
    When(!IsMetadataValue(entry.1), INVALID_METADATA) + When(IsForbiddenKey(entry.0), FORBIDDEN_METADATA_KEY)
  }

  function EntriesIssues(fields: seq<(string, Json)>): seq<Code> {
    if fields == [] then [] else EntriesIssues(fields[..|fields| - 1]) + EntryIssues(fields[|fields| - 1])
  }

  function MetadataIssues(v: Option<Json>): seq<Code> {
    if v.None? then [] else if !v.value.Obj? then [INVALID_METADATA] else EntriesIssues(v.value.fields)
  }

  function CorrelatedAtIssues(v: Option<Json>): seq<Code> {
    if v.None? then [MISSING_CORRELATED_AT] else When(!IsTimestamp(v), INVALID_CORRELATED_AT)
  }

  function DescriptionIssues(v: Option<Json>): seq<Code> {
    When(v.Some? && !IsNonEmptyString(v), INVALID_DESCRIPTION)
  }

  function DescriptiveIssues(f: Fields): seq<Code> {
    CorrelatedAtIssues(f.correlatedAt)
    + MetadataIssues(f.metadata)
    + DescriptionIssues(f.description)
  }

  function FieldIssues(f: Fields): seq<Code> {
    IdentityIssues(f) + ReferenceIssues(f) + ConsistencyIssues(f) + DescriptiveIssues(f)
  }

  function Issues(c: Json): seq<Code> {
    if !c.Obj? then [MISSING_ID] else FieldIssues(FieldsOf(c))
  }

  // ---- What a candidate carries -------------------------------------------------------

  function MetadataOf(metadata: Option<Metadata>): Option<Json> {
    if metadata.Some? then Some(Obj(metadata.value)) else None
  }

  predicate Carried(f: Fields, g: Graph) {
    && f.schemaVersion == Some(Str(g.schemaVersion))
    && f.id == Some(Str(g.id))
    && IsObj(f.resource) && R.Carried(R.FieldsOf(f.resource.value), g.resource)
    && f.decisionRefs == Some(FromStrings(g.decisionRefs))
    && f.correlatedAt == Some(Str(g.correlatedAt))
    && f.obligationRefs == ListOf(g.obligationRefs)
    && f.grantRefs == ListOf(g.grantRefs)
    && f.usageRefs == ListOf(g.usageRefs)
    && f.revocationRefs == ListOf(g.revocationRefs)
    && f.metadata == MetadataOf(g.metadata)
    && f.description == TextOf(g.description)
  }

  predicate Carries(c: Json, g: Graph) {
    c.Obj? && Carried(FieldsOf(c), g)
  }

  predicate ResourceRestTyped(f: Fields) {
    IsObj(f.resource) ==> R.RestTyped(R.FieldsOf(f.resource.value))
  }

  lemma {:induction false} EntriesDecide(fields: seq<(string, Json)>)
    ensures EntriesIssues(fields) == [] <==> forall i | 0 <= i < |fields| :: EntryAllowed(fields[i])
  {
    if fields != [] {
      EntriesDecide(fields[..|fields| - 1]);
      assert forall i | 0 <= i < |fields| - 1 :: fields[..|fields| - 1][i] == fields[i];
      if EntriesIssues(fields) == [] {
        forall i | 0 <= i < |fields| ensures EntryAllowed(fields[i]) {
          if i < |fields| - 1 { assert EntryAllowed(fields[..|fields| - 1][i]); }
        }
      }
    }
  }

  lemma ReferencesReadBack(f: Fields)
    requires ReferenceIssues(f) == []
    ensures f.decisionRefs.Some? && IsStringArray(f.decisionRefs.value)
    ensures FromStrings(StringsOf(f.decisionRefs.value.items)) == f.decisionRefs.value && WellFormedRefs(StringsOf(f.decisionRefs.value.items))
    ensures f.obligationRefs.Some? ==> IsStringArray(f.obligationRefs.value)
    ensures ListOf(ReadList(f.obligationRefs)) == f.obligationRefs && WellFormedOptionalRefs(ReadList(f.obligationRefs))
    ensures f.grantRefs.Some? ==> IsStringArray(f.grantRefs.value)
    ensures ListOf(ReadList(f.grantRefs)) == f.grantRefs && WellFormedOptionalRefs(ReadList(f.grantRefs))
    ensures f.usageRefs.Some? ==> IsStringArray(f.usageRefs.value)
    ensures ListOf(ReadList(f.usageRefs)) == f.usageRefs && WellFormedOptionalRefs(ReadList(f.usageRefs))
    ensures f.revocationRefs.Some? ==> IsStringArray(f.revocationRefs.value)
    ensures ListOf(ReadList(f.revocationRefs)) == f.revocationRefs && WellFormedOptionalRefs(ReadList(f.revocationRefs))
  {
    RefsIssuesDecide(f.decisionRefs.value, INVALID_DECISION_REFS, DUPLICATE_DECISION_REF);
    StringsPrintBack(f.decisionRefs.value);
    OptionalRefsReadBack(f.obligationRefs, INVALID_OBLIGATION_REFS, DUPLICATE_OBLIGATION_REF);
    OptionalRefsReadBack(f.grantRefs, INVALID_GRANT_REFS, DUPLICATE_GRANT_REF);
    OptionalRefsReadBack(f.usageRefs, INVALID_USAGE_REFS, DUPLICATE_USAGE_REF);
    OptionalRefsReadBack(f.revocationRefs, INVALID_REVOCATION_REFS, DUPLICATE_REVOCATION_REF);
  }

  function ReadMetadata(v: Option<Json>): Option<Metadata>
    requires v.Some? ==> v.value.Obj?
  {
    if v.Some? then Some(v.value.fields) else None
  }

  function ReadFields(f: Fields): Graph
    requires FieldIssues(f) == [] && ResourceRestTyped(f)
  {
    ReferencesReadBack(f);
    Graph(
      SCHEMA_VERSION, f.id.value.s, R.Read(R.FieldsOf(f.resource.value)), StringsOf(f.decisionRefs.value.items), f.correlatedAt.value.s,
      ReadList(f.obligationRefs), ReadList(f.grantRefs), ReadList(f.usageRefs), ReadList(f.revocationRefs),
      ReadMetadata(f.metadata), ReadText(f.description))
  }

  /** Validates, then maps every field explicitly. */
  function Deserialize(c: Json): Graph
    requires Issues(c) == [] && ResourceRestTyped(FieldsOf(c))
  {
    ReadFields(FieldsOf(c))
  }

  lemma IdentityAccepted(f: Fields, g: Graph)
    requires Carried(f, g) && WellFormed(g)
    ensures IdentityIssues(f) == []
  {
  }

  lemma ReferencesAccepted(f: Fields, g: Graph)
    requires Carried(f, g) && WellFormed(g)
    ensures ReferenceIssues(f) == []
  {
    RefsPrintedAreAccepted(g.decisionRefs, INVALID_DECISION_REFS, DUPLICATE_DECISION_REF);
    OptionalRefsAccepted(g.obligationRefs, INVALID_OBLIGATION_REFS, DUPLICATE_OBLIGATION_REF);
    OptionalRefsAccepted(g.grantRefs, INVALID_GRANT_REFS, DUPLICATE_GRANT_REF);
    OptionalRefsAccepted(g.usageRefs, INVALID_USAGE_REFS, DUPLICATE_USAGE_REF);
    OptionalRefsAccepted(g.revocationRefs, INVALID_REVOCATION_REFS, DUPLICATE_REVOCATION_REF);
  }

  lemma ConsistencyAccepted(f: Fields, g: Graph)
    requires Carried(f, g) && WellFormed(g)
    ensures ConsistencyIssues(f) == []
  {
    if g.grantRefs.Some? { StringsRoundTrip(g.grantRefs.value); }
  }

  lemma DescriptionAccepted(f: Fields, g: Graph)
    requires Carried(f, g) && WellFormed(g)
    ensures DescriptiveIssues(f) == []
  {
    if g.metadata.Some? { EntriesDecide(g.metadata.value); }
  }

  lemma CarriedReadsBack(f: Fields, g: Graph)
    requires Carried(f, g) && WellFormed(g)
    requires FieldIssues(f) == [] && ResourceRestTyped(f)
    ensures ReadFields(f) == g
  {
    ReferencesReadBack(f);
    R.CarriedReadsBack(R.FieldsOf(f.resource.value), g.resource);
    StringsRoundTrip(g.decisionRefs);
    ListOfIsInjective(ReadList(f.obligationRefs), g.obligationRefs);
    ListOfIsInjective(ReadList(f.grantRefs), g.grantRefs);
    ListOfIsInjective(ReadList(f.usageRefs), g.usageRefs);
    ListOfIsInjective(ReadList(f.revocationRefs), g.revocationRefs);
  }

  lemma CarriedIsAccepted(f: Fields, g: Graph)
    requires Carried(f, g) && WellFormed(g)
    ensures FieldIssues(f) == [] && ResourceRestTyped(f) && ReadFields(f) == g
  {
    IdentityAccepted(f, g);
    ReferencesAccepted(f, g);
    ConsistencyAccepted(f, g);
    DescriptionAccepted(f, g);
    R.CarriedReadsBack(R.FieldsOf(f.resource.value), g.resource);
    CarriedReadsBack(f, g);
  }
}
