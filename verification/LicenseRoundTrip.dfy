/**
 What a candidate value carries, and the three theorems over it: the validator
 accepts exactly the candidates that carry well-formed terms, the serializer and
 the reader are inverse up to equality, and equal terms are printed alike.
 */
module LicenseRoundTrip {
  import opened Options
  import opened Instants
  import opened Ordering
  import opened Records
  import opened SafeIntegers
  import opened RightsScope
  import opened Json
  import opened LicenseTerms
  import opened LicenseJson
  import LicenseMandate

  ghost predicate WellFormedTerms(t: Terms) {
    && Vocabulary(t.rights, RIGHT_TYPES)
    && t.licenseeRef != ""
    && Vocabulary(t.permittedUses, USE_TYPES)
    && (t.rightsScope.Some? ==> WellFormedScope(t.rightsScope.value))
    && t.executorRef != Some("")
    && WellFormedConstraints(t.constraints, t.permittedUses)
  }

  ghost predicate WellFormedConstraints(c: Constraints, permittedUses: seq<string>) {
    && (c.prohibitedUses.Some? ==> Vocabulary(c.prohibitedUses.value, USE_TYPES) && Disjoint(c.prohibitedUses.value, permittedUses))
    && (c.permittedContexts.Some? ==> WellFormedContexts(c.permittedContexts.value))
    && (c.maximumLicenseTermEndsAt.Some? ==> IsIsoTimestamp(c.maximumLicenseTermEndsAt.value))
    && (c.maximumLicensedUnits.Some? ==>
          1 <= c.maximumLicensedUnits.value.units <= MAX_SAFE_INTEGER && c.maximumLicensedUnits.value.unitDenomination != "")
  }

  // ---- What a candidate carries --------------------------------------------------

  function FromContexts(contexts: Contexts): Json {
    Obj(seq(|contexts|, i requires 0 <= i < |contexts| => (contexts[i].0, FromStrings(contexts[i].1))))
  }

  function ContextsOf(contexts: Option<Contexts>): Option<Json> {
    if contexts.Some? then Some(FromContexts(contexts.value)) else None
  }

  predicate CarriesScope(v: Option<Json>, s: Option<Scope>) {
    && v.None? == s.None?
    && (s.Some? ==>
          && v.value.Obj?
          && match s.value
             case Proportional(p) =>
               Get(v.value, "kind") == Some(Str("proportional")) && Get(v.value, "basisPoints") == Some(FromInt(p))
             case Unitized(u, d) =>
               && Get(v.value, "kind") == Some(Str("unitized"))
               && Get(v.value, "units") == Some(FromInt(u)) && Get(v.value, "unitDenomination") == Some(Str(d)))
  }

  predicate CarriesUnits(v: Option<Json>, u: Option<Units>) {
    && v.None? == u.None?
    && (u.Some? ==>
          && v.value.Obj?
          && Get(v.value, "units") == Some(FromInt(u.value.units))
          && Get(v.value, "unitDenomination") == Some(Str(u.value.unitDenomination)))
  }

  predicate ConstraintsCarried(c: ConstraintFields, x: Constraints) {
    && c.prohibitedUses == ListOf(x.prohibitedUses)
    && c.permittedContexts == ContextsOf(x.permittedContexts)
    && c.maximumLicenseTermEndsAt == TextOf(x.maximumLicenseTermEndsAt)
    && CarriesUnits(c.maximumLicensedUnits, x.maximumLicensedUnits)
    && c.sublicensing == Some(Str(DispositionName(x.sublicensing)))
    && c.assignment == Some(Str(DispositionName(x.assignment)))
    && c.additionalLicensesAllowed == Some(Bool(x.additionalLicensesAllowed))
    && c.externalAgreementReferenceRequired == FlagOf(x.externalAgreementReferenceRequired)
  }

  predicate TermsCarried(c: TermsFields, t: Terms) {
    && c.rights == Some(FromStrings(t.rights))
    && c.licenseeRef == Some(Str(t.licenseeRef))
    && c.permittedUses == Some(FromStrings(t.permittedUses))
    && c.exclusivity == Some(Str(ExclusivityName(t.exclusivity)))
    && CarriesScope(c.rightsScope, t.rightsScope)
    && c.executorRef == TextOf(t.executorRef)
    && IsObj(c.constraints) && ConstraintsCarried(ConstraintFieldsOf(c.constraints.value), t.constraints)
  }

  /** Every field of `t` stands in `c` under its name; anything else in `c` is ignored. */
  predicate Carries(c: Json, t: Terms) {
    c.Obj? && TermsCarried(TermsFieldsOf(c), t)
  }

  // ---- The reader -------------------------------------------------------------------

  function ReadScope(v: Option<Json>): Option<Scope>
    requires RightsScopeIssues(v) == []
  {
    if v.None? then None
    else if Get(v.value, "kind") == Some(Str("proportional")) then Some(Proportional(Get(v.value, "basisPoints").value.r.Floor))
    else Some(Unitized(Get(v.value, "units").value.r.Floor, Get(v.value, "unitDenomination").value.s))
  }

  function ReadUnits(v: Option<Json>): Option<Units>
    requires v.Some? ==> IsUnits(v.value)
  {
    if v.Some? then Some(Units(Get(v.value, "units").value.r.Floor, Get(v.value, "unitDenomination").value.s)) else None
  }

  predicate IsArrays(fields: seq<(string, Json)>) {
    forall i | 0 <= i < |fields| :: IsStringArray(fields[i].1)
  }

  function ContextsIn(fields: seq<(string, Json)>): Contexts
    requires IsArrays(fields)
  {
    seq(|fields|, i requires 0 <= i < |fields| => (fields[i].0, StringsOf(fields[i].1.items)))
  }

  lemma ContextMapsHoldArrays(j: Json)
    requires IsContextMapJson(j)
    ensures IsArrays(j.fields)
  {
    forall i | 0 <= i < |j.fields| ensures IsStringArray(j.fields[i].1) {
      assert j.fields[i] in j.fields;
    }
  }

  function ReadContexts(v: Option<Json>): Option<Contexts>
    requires ContextIssues(v) == []
  {
    if v.Some? then ContextMapsHoldArrays(v.value); Some(ContextsIn(v.value.fields)) else None
  }

  function ReadConstraints(c: ConstraintFields, permitted: Option<seq<string>>): Constraints
    requires ConstraintFieldIssues(c, permitted) == []
  {
    Constraints(
      ReadList(c.prohibitedUses),
      ReadContexts(c.permittedContexts),
      ReadText(c.maximumLicenseTermEndsAt),
      ReadUnits(c.maximumLicensedUnits),
      ReadDisposition(c.sublicensing.value),
      ReadDisposition(c.assignment.value),
      c.additionalLicensesAllowed.value.b,
      ReadFlag(c.externalAgreementReferenceRequired))
  }

  function ReadFields(c: TermsFields): Terms
    requires FieldIssues(c) == []
  {
    Terms(
      StringsOf(c.rights.value.items),
      c.licenseeRef.value.s,
      StringsOf(c.permittedUses.value.items),
      ReadExclusivity(c.exclusivity.value),
      ReadScope(c.rightsScope),
      ReadText(c.executorRef),
      ReadConstraints(ConstraintFieldsOf(c.constraints.value), PermittedUsesIfValid(c)))
  }

  /** Maps a validated candidate onto terms, field by field. */
  function Read(c: Json): Terms
    requires TermsIssues(c) == []
  {
    ReadFields(TermsFieldsOf(c))
  }

  // ---- Accepted exactly when well-formed terms are carried ----------------------------

  lemma WordListDecides(v: Option<Json>, words: seq<string>, missing: Code, invalid: Code, empty: Code, repeated: Code)
    requires WordListIssues(v, words, missing, invalid, empty, repeated) == []
    ensures v.Some? && IsStringArray(v.value) && v == Some(FromStrings(StringsOf(v.value.items)))
    ensures Vocabulary(StringsOf(v.value.items), words)
  {
    StringsPrintBack(v.value);
  }

  lemma VocabularyAccepted(xs: seq<string>, words: seq<string>, missing: Code, invalid: Code, empty: Code, repeated: Code)
    requires Vocabulary(xs, words)
    ensures WordListIssues(Some(FromStrings(xs)), words, missing, invalid, empty, repeated) == []
  {
    StringsRoundTrip(xs);
  }

  lemma ContextsReadBack(v: Option<Json>)
    requires ContextIssues(v) == [] && (v.Some? ==> Proper(v.value))
    ensures ContextsOf(ReadContexts(v)) == v
    ensures v.Some? ==> WellFormedContexts(ReadContexts(v).value)
  {
    if v.Some? {
      var fields := v.value.fields;
      ContextMapsHoldArrays(v.value);
      var contexts := ContextsIn(fields);
      forall i | 0 <= i < |fields|
        ensures (contexts[i].0, FromStrings(contexts[i].1)) == fields[i]
        ensures contexts[i].0 != "" && contexts[i].1 != [] && "" !in contexts[i].1
      {
        assert fields[i] in fields;
        StringsPrintBack(fields[i].1);
      }
      assert FromContexts(contexts).fields == fields;
      forall i, j | 0 <= i < j < |contexts| ensures KeyOf(contexts[i]) != KeyOf(contexts[j]) {
        assert KeyOf(fields[i]) != KeyOf(fields[j]);
      }
    }
  }

  lemma ContextsAccepted(contexts: Option<Contexts>)
    requires contexts.Some? ==> WellFormedContexts(contexts.value)
    ensures ContextIssues(ContextsOf(contexts)) == []
    ensures ReadContexts(ContextsOf(contexts)) == contexts
  {
    if contexts.Some? {
      var fields := FromContexts(contexts.value).fields;
      forall i | 0 <= i < |fields|
        ensures fields[i].0 != "" && IsIdArray(fields[i].1) && fields[i].1.items != []
        ensures StringsOf(fields[i].1.items) == contexts.value[i].1
      {
        assert contexts.value[i] in contexts.value;
        StringsRoundTrip(contexts.value[i].1);
      }
      assert ContextsIn(fields) == contexts.value;
    }
  }

  lemma ConstraintsReadBack(c: ConstraintFields, permitted: seq<string>)
    requires ConstraintFieldIssues(c, Some(permitted)) == []
    requires c.permittedContexts.Some? ==> Proper(c.permittedContexts.value)
    ensures ConstraintsCarried(c, ReadConstraints(c, Some(permitted)))
    ensures WellFormedConstraints(ReadConstraints(c, Some(permitted)), permitted)
  {
    if c.prohibitedUses.Some? { StringsPrintBack(c.prohibitedUses.value); }
    ContextsReadBack(c.permittedContexts);
  }

  lemma ConstraintsPass(c: ConstraintFields, x: Constraints, permitted: seq<string>)
    requires ConstraintsCarried(c, x) && WellFormedConstraints(x, permitted)
    ensures ConstraintFieldIssues(c, Some(permitted)) == []
  {
    if x.prohibitedUses.Some? { StringsRoundTrip(x.prohibitedUses.value); }
    ContextsAccepted(x.permittedContexts);
  }

  lemma ConstraintsAccepted(c: ConstraintFields, x: Constraints, permitted: seq<string>)
    requires ConstraintsCarried(c, x) && WellFormedConstraints(x, permitted)
    ensures ConstraintFieldIssues(c, Some(permitted)) == []
    ensures ReadConstraints(c, Some(permitted)) == x
  {
    ConstraintsPass(c, x, permitted);
    if x.prohibitedUses.Some? { StringsRoundTrip(x.prohibitedUses.value); }
    ContextsAccepted(x.permittedContexts);
  }

  lemma FieldsReadBack(c: TermsFields)
    requires FieldIssues(c) == []
    requires c.constraints.Some? ==> Proper(c.constraints.value)
    ensures TermsCarried(c, ReadFields(c)) && WellFormedTerms(ReadFields(c))
  {
    WordListDecides(c.rights, RIGHT_TYPES, MISSING_RIGHTS, INVALID_RIGHTS, EMPTY_RIGHTS, DUPLICATE_RIGHTS);
    WordListDecides(c.permittedUses, USE_TYPES,
                    MISSING_PERMITTED_USES, INVALID_PERMITTED_USES, EMPTY_PERMITTED_USES, DUPLICATE_PERMITTED_USES);
    ProperConstraintFields(c.constraints.value);
    ConstraintsReadBack(ConstraintFieldsOf(c.constraints.value), StringsOf(c.permittedUses.value.items));
  }

  lemma ProperConstraintFields(c: Json)
    requires Proper(c)
    ensures var contexts := ConstraintFieldsOf(c).permittedContexts; contexts.Some? ==> Proper(contexts.value)
  {
    if ConstraintFieldsOf(c).permittedContexts.Some? { ProperField(c, CONSTRAINT_NAMES[1]); }
  }

  lemma ListsAccepted(c: TermsFields, t: Terms)
    requires TermsCarried(c, t) && WellFormedTerms(t)
    ensures RightsIssues(c) == [] && IsStringArray(c.rights.value) && StringsOf(c.rights.value.items) == t.rights
    ensures PermittedUsesIssues(c) == [] && PermittedUsesIfValid(c) == Some(t.permittedUses)
  {
    VocabularyAccepted(t.rights, RIGHT_TYPES, MISSING_RIGHTS, INVALID_RIGHTS, EMPTY_RIGHTS, DUPLICATE_RIGHTS);
    VocabularyAccepted(t.permittedUses, USE_TYPES,
                       MISSING_PERMITTED_USES, INVALID_PERMITTED_USES, EMPTY_PERMITTED_USES, DUPLICATE_PERMITTED_USES);
    StringsRoundTrip(t.rights);
    StringsRoundTrip(t.permittedUses);
  }

  lemma ScopeAccepted(v: Option<Json>, s: Option<Scope>)
    requires CarriesScope(v, s) && (s.Some? ==> WellFormedScope(s.value))
    ensures RightsScopeIssues(v) == [] && ReadScope(v) == s
  {
  }

  lemma PlainFieldsAccepted(c: TermsFields, t: Terms)
    requires TermsCarried(c, t) && t.licenseeRef != "" && t.executorRef != Some("")
    ensures LicenseeIssues(c) == [] && ExclusivityIssues(c) == [] && ExecutorIssues(c) == []
  {
  }

  /** No field raises an issue. */
  predicate NoFieldIssues(c: TermsFields, permitted: seq<string>) {
    && RightsIssues(c) == [] && LicenseeIssues(c) == [] && PermittedUsesIssues(c) == [] && ExclusivityIssues(c) == []
    && RightsScopeIssues(c.rightsScope) == [] && ExecutorIssues(c) == []
    && PermittedUsesIfValid(c) == Some(permitted) && ConstraintIssues(c.constraints, Some(permitted)) == []
  }

  lemma NoFieldIssuesAtAll(c: TermsFields, permitted: seq<string>)
    requires NoFieldIssues(c, permitted)
    ensures FieldIssues(c) == []
  {
  }

  lemma ReadAsCarried(c: TermsFields, t: Terms)
    requires FieldIssues(c) == []
    requires c.licenseeRef == Some(Str(t.licenseeRef)) && c.executorRef == TextOf(t.executorRef)
    requires c.exclusivity == Some(Str(ExclusivityName(t.exclusivity)))
    requires StringsOf(c.rights.value.items) == t.rights && PermittedUsesIfValid(c) == Some(t.permittedUses)
    requires ReadScope(c.rightsScope) == t.rightsScope
    requires ConstraintFieldIssues(ConstraintFieldsOf(c.constraints.value), Some(t.permittedUses)) == []
    requires ReadConstraints(ConstraintFieldsOf(c.constraints.value), Some(t.permittedUses)) == t.constraints
    ensures ReadFields(c) == t
  {
  }

  lemma FieldsAccepted(c: TermsFields, t: Terms)
    requires TermsCarried(c, t) && WellFormedTerms(t)
    ensures FieldIssues(c) == [] && ReadFields(c) == t
  {
    ListsAccepted(c, t);
    PlainFieldsAccepted(c, t);
    ScopeAccepted(c.rightsScope, t.rightsScope);
    ConstraintsAccepted(ConstraintFieldsOf(c.constraints.value), t.constraints, t.permittedUses);
    NoFieldIssuesAtAll(c, t.permittedUses);
    ReadAsCarried(c, t);
  }

  lemma AcceptedIsCarried(c: Json)
    requires Proper(c) && TermsIssues(c) == []
    ensures Carries(c, Read(c)) && WellFormedTerms(Read(c))
  {
    if TermsFieldsOf(c).constraints.Some? { ProperField(c, TERMS_NAMES[6]); }
    FieldsReadBack(TermsFieldsOf(c));
  }

  lemma CarriedIsAccepted(c: Json, t: Terms)
    requires Carries(c, t) && WellFormedTerms(t)
    ensures TermsIssues(c) == [] && Read(c) == t
  {
    FieldsAccepted(TermsFieldsOf(c), t);
  }

  /** No issues exactly when the candidate decodes to well-formed terms, and then the reader finds the only such terms. */
  lemma AcceptedIff(c: Json)
    requires Proper(c)
    ensures TermsIssues(c) == [] <==> exists t :: Carries(c, t) && WellFormedTerms(t)
    ensures forall t :: Carries(c, t) && WellFormedTerms(t) ==> TermsIssues(c) == [] && Read(c) == t
  {
    if TermsIssues(c) == [] { AcceptedIsCarried(c); }
    forall t | Carries(c, t) && WellFormedTerms(t) ensures TermsIssues(c) == [] && Read(c) == t {
      CarriedIsAccepted(c, t);
    }
  }

  /** In a mandate whose terms passed the validator, the explicit exclusion is never the ground of refusal. */
  lemma ValidatedMandateNeverReportsUseProhibited(c: Json, parse: string -> Instant, mandate: LicenseMandate.Mandate, attempt: LicenseMandate.Attempt)
    requires Proper(c) && TermsIssues(c) == [] && mandate.terms == Read(c)
    ensures LicenseMandate.Refusal(parse, mandate, attempt) != Some(LicenseMandate.USE_PROHIBITED)
  {
    AcceptedIsCarried(c);
    LicenseMandate.UseProhibitedIsUnreachable(parse, mandate, attempt);
  }
}
