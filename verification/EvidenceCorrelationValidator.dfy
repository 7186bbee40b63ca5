/**
 The correlation-graph validator as it pushes issues one after the other, and what
 its verdict means to a caller.
 */
module EvidenceCorrelationValidator {
  import opened Options
  import opened Ordering
  import opened Json
  import opened Lists
  import opened ReferenceLists
  import opened EvidenceCorrelation
  import opened EvidenceCorrelationPrinting
  import R = ResourceRefs

  // ---- What each issue says, on its own ------------------------------------------

  predicate Ground(f: Fields, code: Code) {
    match code
    case UNSUPPORTED_SCHEMA_VERSION => f.schemaVersion != Some(Str("1.0.0"))
    case MISSING_ID => f.id.None?
    case INVALID_ID => f.id.Some? && !IsNonEmptyString(f.id)
    case MISSING_RESOURCE => !IsObj(f.resource)
    case INVALID_RESOURCE_IDENTITY => IsObj(f.resource) && !R.IdentityPresent(R.FieldsOf(f.resource.value))
    case MISSING_DECISION_REFS => f.decisionRefs.None?
    case INVALID_DECISION_REFS => RefsMalformed(f.decisionRefs)
    case DUPLICATE_DECISION_REF => RefsGivenTwice(f.decisionRefs)
    case INVALID_OBLIGATION_REFS => RefsMalformed(f.obligationRefs)
    case DUPLICATE_OBLIGATION_REF => RefsGivenTwice(f.obligationRefs)
    case INVALID_GRANT_REFS => RefsMalformed(f.grantRefs)
    case DUPLICATE_GRANT_REF => RefsGivenTwice(f.grantRefs)
    case INVALID_USAGE_REFS => RefsMalformed(f.usageRefs)
    case DUPLICATE_USAGE_REF => RefsGivenTwice(f.usageRefs)
    case INVALID_REVOCATION_REFS => RefsMalformed(f.revocationRefs)
    case DUPLICATE_REVOCATION_REF => RefsGivenTwice(f.revocationRefs)
    case USAGE_WITHOUT_GRANT => Populated(f.usageRefs) && !Populated(f.grantRefs)
    case REVOCATION_WITHOUT_GRANT => Populated(f.revocationRefs) && !Populated(f.grantRefs)
    case MISSING_CORRELATED_AT => f.correlatedAt.None?
    case INVALID_CORRELATED_AT => f.correlatedAt.Some? && !IsTimestamp(f.correlatedAt)
    case INVALID_METADATA =>
      f.metadata.Some? && (!f.metadata.value.Obj? || exists entry | entry in f.metadata.value.fields :: !IsMetadataValue(entry.1))
    case FORBIDDEN_METADATA_KEY => IsObj(f.metadata) && exists entry | entry in f.metadata.value.fields :: IsForbiddenKey(entry.0)
    case INVALID_DESCRIPTION => f.description.Some? && !IsNonEmptyString(f.description)
  }

  datatype Part = Identity | Decisions | Obligations | Grants | Usages | Revocations | Consistency | Instant | Metadata | Description

  function About(code: Code): Part {
    match code
    case MISSING_DECISION_REFS => Decisions
    case INVALID_DECISION_REFS => Decisions
    case DUPLICATE_DECISION_REF => Decisions
    case INVALID_OBLIGATION_REFS => Obligations
    case DUPLICATE_OBLIGATION_REF => Obligations
    case INVALID_GRANT_REFS => Grants
    case DUPLICATE_GRANT_REF => Grants
    case INVALID_USAGE_REFS => Usages
    case DUPLICATE_USAGE_REF => Usages
    case INVALID_REVOCATION_REFS => Revocations
    case DUPLICATE_REVOCATION_REF => Revocations
    case USAGE_WITHOUT_GRANT => Consistency
    case REVOCATION_WITHOUT_GRANT => Consistency
    case MISSING_CORRELATED_AT => Instant
    case INVALID_CORRELATED_AT => Instant
    case INVALID_METADATA => Metadata
    case FORBIDDEN_METADATA_KEY => Metadata
    case INVALID_DESCRIPTION => Description
    case _ => Identity
  }

  lemma IdentityCodes(f: Fields, code: Code)
    ensures code in IdentityIssues(f) <==> About(code) == Identity && Ground(f, code)
  {
  }

  lemma ConsistencyCodes(f: Fields, code: Code)
    ensures code in ConsistencyIssues(f) <==> About(code) == Consistency && Ground(f, code)
  {
  }

  lemma TextCodes(f: Fields, code: Code)
    ensures code in CorrelatedAtIssues(f.correlatedAt) <==> About(code) == Instant && Ground(f, code)
    ensures code in DescriptionIssues(f.description) <==> About(code) == Description && Ground(f, code)
  {
  }

  lemma DecisionCodes(f: Fields, code: Code)
    ensures code in DecisionIssues(f.decisionRefs) <==> About(code) == Decisions && Ground(f, code)
  {
    OptionalRefsCodes(f.decisionRefs, INVALID_DECISION_REFS, DUPLICATE_DECISION_REF, code);
  }

  lemma ObligationGround(f: Fields, code: Code)
    ensures RefsGround(f.obligationRefs, INVALID_OBLIGATION_REFS, DUPLICATE_OBLIGATION_REF, code) <==> About(code) == Obligations && Ground(f, code)
  {
  }

  lemma GrantGround(f: Fields, code: Code)
    ensures RefsGround(f.grantRefs, INVALID_GRANT_REFS, DUPLICATE_GRANT_REF, code) <==> About(code) == Grants && Ground(f, code)
  {
  }

  lemma UsageGround(f: Fields, code: Code)
    ensures RefsGround(f.usageRefs, INVALID_USAGE_REFS, DUPLICATE_USAGE_REF, code) <==> About(code) == Usages && Ground(f, code)
  {
  }

  lemma RevocationGround(f: Fields, code: Code)
    ensures RefsGround(f.revocationRefs, INVALID_REVOCATION_REFS, DUPLICATE_REVOCATION_REF, code) <==> About(code) == Revocations && Ground(f, code)
  {
  }

  /** The references other than the decisions, each list by its own codes. */
  predicate ListedGround(f: Fields, code: Code) {
    || RefsGround(f.obligationRefs, INVALID_OBLIGATION_REFS, DUPLICATE_OBLIGATION_REF, code)
    || RefsGround(f.grantRefs, INVALID_GRANT_REFS, DUPLICATE_GRANT_REF, code)
    || RefsGround(f.usageRefs, INVALID_USAGE_REFS, DUPLICATE_USAGE_REF, code)
    || RefsGround(f.revocationRefs, INVALID_REVOCATION_REFS, DUPLICATE_REVOCATION_REF, code)
  }

  lemma ListedCodes(f: Fields, code: Code)
    ensures code in ReferenceIssues(f) <==> code in DecisionIssues(f.decisionRefs) || ListedGround(f, code)
  {
    OptionalRefsCodes(f.obligationRefs, INVALID_OBLIGATION_REFS, DUPLICATE_OBLIGATION_REF, code);
    OptionalRefsCodes(f.grantRefs, INVALID_GRANT_REFS, DUPLICATE_GRANT_REF, code);
    OptionalRefsCodes(f.usageRefs, INVALID_USAGE_REFS, DUPLICATE_USAGE_REF, code);
    OptionalRefsCodes(f.revocationRefs, INVALID_REVOCATION_REFS, DUPLICATE_REVOCATION_REF, code);
  }

  lemma ReferenceCodes(f: Fields, code: Code)
    ensures code in ReferenceIssues(f) <==>
      About(code) in [Decisions, Obligations, Grants, Usages, Revocations] && Ground(f, code)
  {
    DecisionCodes(f, code);
    ListedCodes(f, code);
    ObligationGround(f, code);
    GrantGround(f, code);
    UsageGround(f, code);
    RevocationGround(f, code);
  }

  lemma {:induction false} EntriesCodes(fields: seq<(string, Json)>, code: Code)
    ensures code in EntriesIssues(fields) <==>
      || (code == INVALID_METADATA && exists entry | entry in fields :: !IsMetadataValue(entry.1))
      || (code == FORBIDDEN_METADATA_KEY && exists entry | entry in fields :: IsForbiddenKey(entry.0))
  {
    if fields != [] {
      var front, last := fields[..|fields| - 1], fields[|fields| - 1];
      EntriesCodes(front, code);
      assert fields == front + [last];
      assert last in fields;
      assert code in EntryIssues(last) <==>
        (code == INVALID_METADATA && !IsMetadataValue(last.1)) || (code == FORBIDDEN_METADATA_KEY && IsForbiddenKey(last.0));
    }
  }

  predicate HasBadValue(entry: (string, Json)) {
    !IsMetadataValue(entry.1)
  }

  predicate HasForbiddenKey(entry: (string, Json)) {
    IsForbiddenKey(entry.0)
  }

  function Reports(codes: seq<Code>, code: Code): nat {
    multiset(codes)[code]
  }

  lemma EntryCount(codes: seq<Code>, entry: (string, Json))
    ensures Reports(codes + EntryIssues(entry), INVALID_METADATA) == Reports(codes, INVALID_METADATA) + if HasBadValue(entry) then 1 else 0
    ensures Reports(codes + EntryIssues(entry), FORBIDDEN_METADATA_KEY)
      == Reports(codes, FORBIDDEN_METADATA_KEY) + if HasForbiddenKey(entry) then 1 else 0
  {
  }

  lemma {:induction false} CountEntries(fields: seq<(string, Json)>, all: seq<Code>)
    requires all == EntriesIssues(fields)
    ensures Reports(all, INVALID_METADATA) == |IndicesWhere(HasBadValue, fields)|
    ensures Reports(all, FORBIDDEN_METADATA_KEY) == |IndicesWhere(HasForbiddenKey, fields)|
  {
    IndicesFront(HasBadValue, fields);
    IndicesFront(HasForbiddenKey, fields);
    if fields != [] {
      var earlier := EntriesIssues(fields[..|fields| - 1]);
      CountEntries(fields[..|fields| - 1], earlier);
      EntryCount(earlier, fields[|fields| - 1]);
    }
  }

  /** Every entry with an inadmissible value is reported once for it, and every entry with a forbidden key once for that. */
  lemma EntriesCount(fields: seq<(string, Json)>)
    ensures Reports(EntriesIssues(fields), INVALID_METADATA) == |IndicesWhere(HasBadValue, fields)|
    ensures Reports(EntriesIssues(fields), FORBIDDEN_METADATA_KEY) == |IndicesWhere(HasForbiddenKey, fields)|
  {
    CountEntries(fields, EntriesIssues(fields));
  }

  lemma MetadataCodes(f: Fields, code: Code)
    ensures code in MetadataIssues(f.metadata) <==> About(code) == Metadata && Ground(f, code)
  {
    if IsObj(f.metadata) { EntriesCodes(f.metadata.value.fields, code); }
  }

  /** An issue is reported exactly when its own ground holds, whatever else is wrong with the candidate. */
  lemma ReportedIffGround(candidate: Json, code: Code)
    requires candidate.Obj?
    ensures code in Issues(candidate) <==> Ground(FieldsOf(candidate), code)
  {
    IdentityCodes(FieldsOf(candidate), code);
    ConsistencyCodes(FieldsOf(candidate), code);
    TextCodes(FieldsOf(candidate), code);
    ReferenceCodes(FieldsOf(candidate), code);
    MetadataCodes(FieldsOf(candidate), code);
  }

  // ---- The order of the issues ----------------------------------------------------

  /** The part an issue is about, by its place in the order of checks. */
  function Place(code: Code): int {
    match code
    case UNSUPPORTED_SCHEMA_VERSION => 0
    case MISSING_ID => 1
    case INVALID_ID => 1
    case MISSING_RESOURCE => 2
    case INVALID_RESOURCE_IDENTITY => 2
    case MISSING_DECISION_REFS => 3
    case INVALID_DECISION_REFS => 3
    case DUPLICATE_DECISION_REF => 3
    case INVALID_OBLIGATION_REFS => 4
    case DUPLICATE_OBLIGATION_REF => 4
    case INVALID_GRANT_REFS => 5
    case DUPLICATE_GRANT_REF => 5
    case INVALID_USAGE_REFS => 6
    case DUPLICATE_USAGE_REF => 6
    case INVALID_REVOCATION_REFS => 7
    case DUPLICATE_REVOCATION_REF => 7
    case USAGE_WITHOUT_GRANT => 8
    case REVOCATION_WITHOUT_GRANT => 9
    case MISSING_CORRELATED_AT => 10
    case INVALID_CORRELATED_AT => 10
    case INVALID_METADATA => 11
    case FORBIDDEN_METADATA_KEY => 11
    case INVALID_DESCRIPTION => 12
  }

  lemma IdentityRanked(f: Fields)
    ensures Ranked(Place, IdentityIssues(f), 0, 2)
  {
    var version := When(f.schemaVersion != Some(Str(SCHEMA_VERSION)), UNSUPPORTED_SCHEMA_VERSION);
    var id := if IsNonEmptyString(f.id) then [] else [if f.id.None? then MISSING_ID else INVALID_ID];
    var resource := if !IsObj(f.resource) then [MISSING_RESOURCE]
                    else When(!R.IdentityPresent(R.FieldsOf(f.resource.value)), INVALID_RESOURCE_IDENTITY);
    RankedJoin(Place, version, id, 0, 1, 1);
    RankedJoin(Place, version + id, resource, 0, 2, 2);
  }

  lemma DecisionsRanked(f: Fields)
    ensures Ranked(Place, DecisionIssues(f.decisionRefs), 3, 3)
  {
    RefsRanked(Place, f.decisionRefs, INVALID_DECISION_REFS, DUPLICATE_DECISION_REF, 3, 3);
  }

  lemma GrantsRanked(f: Fields)
    ensures Ranked(Place, OptionalRefsIssues(f.obligationRefs, INVALID_OBLIGATION_REFS, DUPLICATE_OBLIGATION_REF), 4, 4)
    ensures Ranked(Place, OptionalRefsIssues(f.grantRefs, INVALID_GRANT_REFS, DUPLICATE_GRANT_REF), 5, 5)
  {
    RefsRanked(Place, f.obligationRefs, INVALID_OBLIGATION_REFS, DUPLICATE_OBLIGATION_REF, 4, 4);
    RefsRanked(Place, f.grantRefs, INVALID_GRANT_REFS, DUPLICATE_GRANT_REF, 5, 5);
  }

  lemma UsagesRanked(f: Fields)
    ensures Ranked(Place, OptionalRefsIssues(f.usageRefs, INVALID_USAGE_REFS, DUPLICATE_USAGE_REF), 6, 6)
    ensures Ranked(Place, OptionalRefsIssues(f.revocationRefs, INVALID_REVOCATION_REFS, DUPLICATE_REVOCATION_REF), 7, 7)
  {
    RefsRanked(Place, f.usageRefs, INVALID_USAGE_REFS, DUPLICATE_USAGE_REF, 6, 6);
    RefsRanked(Place, f.revocationRefs, INVALID_REVOCATION_REFS, DUPLICATE_REVOCATION_REF, 7, 7);
  }

  lemma FiveRanked(decisions: seq<Code>, obligations: seq<Code>, grants: seq<Code>, usages: seq<Code>, revocations: seq<Code>)
    requires Ranked(Place, decisions, 3, 3) && Ranked(Place, obligations, 4, 4) && Ranked(Place, grants, 5, 5)
    requires Ranked(Place, usages, 6, 6) && Ranked(Place, revocations, 7, 7)
    ensures Ranked(Place, decisions + obligations + grants + usages + revocations, 3, 7)
  {
    RankedJoin(Place, decisions, obligations, 3, 4, 4);
    RankedJoin(Place, decisions + obligations, grants, 3, 5, 5);
    RankedJoin(Place, decisions + obligations + grants, usages, 3, 6, 6);
    RankedJoin(Place, decisions + obligations + grants + usages, revocations, 3, 7, 7);
  }

  lemma ReferencesRanked(f: Fields)
    ensures Ranked(Place, ReferenceIssues(f), 3, 7)
  {
    DecisionsRanked(f);
    GrantsRanked(f);
    UsagesRanked(f);
    FiveRanked(DecisionIssues(f.decisionRefs), OptionalRefsIssues(f.obligationRefs, INVALID_OBLIGATION_REFS, DUPLICATE_OBLIGATION_REF),
               OptionalRefsIssues(f.grantRefs, INVALID_GRANT_REFS, DUPLICATE_GRANT_REF),
               OptionalRefsIssues(f.usageRefs, INVALID_USAGE_REFS, DUPLICATE_USAGE_REF),
               OptionalRefsIssues(f.revocationRefs, INVALID_REVOCATION_REFS, DUPLICATE_REVOCATION_REF));
  }

  lemma ConsistencyRanked(f: Fields)
    ensures Ranked(Place, ConsistencyIssues(f), 8, 9)
  {
  }

  lemma EntryRanked(entry: (string, Json))
    ensures Ranked(Place, EntryIssues(entry), 11, 11)
  {
  }

  lemma {:induction false} EntriesRanked(fields: seq<(string, Json)>, all: seq<Code>)
    requires all == EntriesIssues(fields)
    ensures Ranked(Place, all, 11, 11)
  {
    if fields != [] {
      var front, last := fields[..|fields| - 1], fields[|fields| - 1];
      var earlier, own := EntriesIssues(front), EntryIssues(last);
      EntriesRanked(front, earlier);
      EntryRanked(last);
      RankedJoin(Place, earlier, own, 11, 11, 11);
    }
  }

  lemma MetadataRanked(f: Fields)
    ensures Ranked(Place, MetadataIssues(f.metadata), 11, 11)
  {
    if IsObj(f.metadata) { EntriesRanked(f.metadata.value.fields, EntriesIssues(f.metadata.value.fields)); }
  }

  lemma TextRanked(f: Fields)
    ensures Ranked(Place, CorrelatedAtIssues(f.correlatedAt), 10, 10)
    ensures Ranked(Place, DescriptionIssues(f.description), 12, 12)
  {
  }

  lemma DescriptiveRanked(f: Fields)
    ensures Ranked(Place, DescriptiveIssues(f), 10, 12)
  {
    MetadataRanked(f);
    TextRanked(f);
    var at, metadata, description := CorrelatedAtIssues(f.correlatedAt), MetadataIssues(f.metadata), DescriptionIssues(f.description);
    RankedJoin(Place, at, metadata, 10, 11, 11);
    RankedJoin(Place, at + metadata, description, 10, 12, 12);
  }

  /** The issues come in the order of the parts. */
  lemma IssuesRanked(candidate: Json)
    ensures Ranked(Place, Issues(candidate), 0, 12)
  {
    if candidate.Obj? {
      var f := FieldsOf(candidate);
      IdentityRanked(f);
      ReferencesRanked(f);
      ConsistencyRanked(f);
      DescriptiveRanked(f);
      RankedJoin(Place, IdentityIssues(f), ReferenceIssues(f), 0, 3, 7);
      RankedJoin(Place, IdentityIssues(f) + ReferenceIssues(f), ConsistencyIssues(f), 0, 8, 9);
      RankedJoin(Place, IdentityIssues(f) + ReferenceIssues(f) + ConsistencyIssues(f), DescriptiveIssues(f), 0, 10, 12);
    }
  }

  // ---- The validator ------------------------------------------------------------------

  ghost predicate CarriesSomeGraph(candidate: Json) {
    exists g :: Carries(candidate, g) && WellFormed(g)
  }

  lemma EntriesStep(fields: seq<(string, Json)>, i: nat)
    requires i < |fields|
    ensures EntriesIssues(fields[..i + 1]) == EntriesIssues(fields[..i]) + EntryIssues(fields[i])
  {
    assert fields[..i + 1][..i] == fields[..i];
  }

  method CollectMetadataIssues(metadata: Json) returns (errors: seq<Code>)
    ensures errors == MetadataIssues(Some(metadata))
  {
    errors := [];
    if !metadata.Obj? { return [INVALID_METADATA]; }
    for i := 0 to |metadata.fields|
      invariant errors == EntriesIssues(metadata.fields[..i])
    {
      var (key, value) := metadata.fields[i];
      EntriesStep(metadata.fields, i);
      if !IsMetadataValue(value) { errors := errors + [INVALID_METADATA]; }
      if IsForbiddenKey(key) { errors := errors + [FORBIDDEN_METADATA_KEY]; }
    }
    assert metadata.fields[..|metadata.fields|] == metadata.fields;
  }

  method CollectReferenceIssues(f: Fields) returns (errors: seq<Code>)
    ensures errors == ReferenceIssues(f)
  {
    if f.decisionRefs.None? {
      errors := [MISSING_DECISION_REFS];
    } else {
      errors := CollectRefsIssues(f.decisionRefs.value, INVALID_DECISION_REFS, DUPLICATE_DECISION_REF);
    }
    var found := CollectOptionalRefsIssues(f.obligationRefs, INVALID_OBLIGATION_REFS, DUPLICATE_OBLIGATION_REF);
    errors := errors + found;
    found := CollectOptionalRefsIssues(f.grantRefs, INVALID_GRANT_REFS, DUPLICATE_GRANT_REF);
    errors := errors + found;
    found := CollectOptionalRefsIssues(f.usageRefs, INVALID_USAGE_REFS, DUPLICATE_USAGE_REF);
    errors := errors + found;
    found := CollectOptionalRefsIssues(f.revocationRefs, INVALID_REVOCATION_REFS, DUPLICATE_REVOCATION_REF);
    errors := errors + found;
  }

  method CollectPresentMetadataIssues(metadata: Option<Json>) returns (errors: seq<Code>)
    ensures errors == MetadataIssues(metadata)
  {
    errors := [];
    if metadata.Some? { errors := CollectMetadataIssues(metadata.value); }
  }

  method CollectConsistencyIssues(f: Fields) returns (errors: seq<Code>)
    ensures errors == ConsistencyIssues(f)
  {
    errors := [];
    var hasGrantRefs := Populated(f.grantRefs);
    if Populated(f.usageRefs) && !hasGrantRefs { errors := errors + [USAGE_WITHOUT_GRANT]; }
    if Populated(f.revocationRefs) && !hasGrantRefs { errors := errors + [REVOCATION_WITHOUT_GRANT]; }
  }

  method CollectDescriptiveIssues(f: Fields) returns (errors: seq<Code>)
    ensures errors == DescriptiveIssues(f)
  {
    var metadata := CollectPresentMetadataIssues(f.metadata);
    errors := CorrelatedAtIssues(f.correlatedAt) + metadata + DescriptionIssues(f.description);
  }

  method PushIssues(candidate: Json) returns (errors: seq<Code>)
    ensures errors == Issues(candidate)
  {
    if !candidate.Obj? { return [MISSING_ID]; }
    var f := FieldsOf(candidate);
    var references := CollectReferenceIssues(f);
    var consistency := CollectConsistencyIssues(f);
    var descriptive := CollectDescriptiveIssues(f);
    errors := IdentityIssues(f) + references + consistency + descriptive;
  }

  /**
   For a candidate whose unchecked parts are well-typed, nothing is reported exactly when it
   carries a valid graph; and each issue is reported exactly on its own ground.
   */
  method Validate(candidate: Json) returns (errors: seq<Code>)
    ensures errors == Issues(candidate)
    ensures Proper(candidate) && candidate.Obj? && ResourceRestTyped(FieldsOf(candidate)) ==>
      (errors == [] <==> CarriesSomeGraph(candidate))
    ensures forall code :: code in errors <==> if candidate.Obj? then Ground(FieldsOf(candidate), code) else code == MISSING_ID
    ensures Ranked(Place, errors, 0, 12)
  {
    errors := PushIssues(candidate);
    IssuesRanked(candidate);
    if candidate.Obj? {
      if Proper(candidate) { AcceptedAndTypedIff(candidate); }
      forall code ensures code in errors <==> Ground(FieldsOf(candidate), code) {
        ReportedIffGround(candidate, code);
      }
    }
  }

  /** The identities declared more than once in a collection, each once, in ascending order. */
  method ValidateSet(graphs: seq<Graph>) returns (duplicates: seq<string>)
    ensures StrictlySortedBy(Self, duplicates)
    ensures forall id :: id in duplicates <==> exists i, j :: 0 <= i < j < |graphs| && graphs[i].id == id == graphs[j].id
  {
    var ids := seq(|graphs|, i requires 0 <= i < |graphs| => graphs[i].id);
    duplicates := FindDuplicateStrings(ids);
    DuplicatesAreExact(ids);
    forall id ensures id in duplicates <==> exists i, j :: 0 <= i < j < |graphs| && graphs[i].id == id == graphs[j].id {
      RepeatedIffTwice(ids, id);
      if i, j :| 0 <= i < j < |ids| && ids[i] == id == ids[j] { assert graphs[i].id == id == graphs[j].id; }
      if i, j :| 0 <= i < j < |graphs| && graphs[i].id == id == graphs[j].id { assert ids[i] == id == ids[j]; }
    }
  }
}
