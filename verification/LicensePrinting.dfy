/** Deterministic printing of license terms: sorted, then field by field. */
module LicensePrinting {
  import opened Options
  import opened Ordering
  import opened Records
  import opened RightsScope
  import opened Json
  import opened LicenseTerms
  import opened LicenseJson
  import opened LicenseRoundTrip

  function SortedValues(contexts: Contexts): Contexts {
    seq(|contexts|, i requires 0 <= i < |contexts| => (contexts[i].0, SortStrings(contexts[i].1)))
  }

  /** Dimensions sorted, and the values under each. */
  function CanonicalContexts(contexts: Contexts): Contexts {
    SortedValues(SortEntries(contexts))
  }

  /** `[dimension, [...contexts[dimension]].sort()]` */
  function SortedEntry(contexts: Contexts, dimension: string): (string, seq<string>) {
    (dimension, SortStrings(ValuesOr(Lookup(contexts, dimension))))
  }

  lemma CanonicalEntry(contexts: Contexts, i: nat)
    requires IsObject(contexts) && i < |contexts|
    ensures |SortStrings(Keys(contexts))| == |contexts| == |CanonicalContexts(contexts)|
    ensures CanonicalContexts(contexts)[i] == SortedEntry(contexts, SortStrings(Keys(contexts))[i])
  {
    KeysOfSortedEntries(contexts);
    SortMembers(KeyOf<seq<string>>, contexts);
    var entry := SortEntries(contexts)[i];
    assert entry in contexts && Keys(SortEntries(contexts))[i] == entry.0;
    LookupIsMembership(contexts, entry.0);
    assert (entry.0, entry.1) == entry;
  }

  method FillSorted(contexts: Contexts, dimensions: seq<string>, ghost canonical: Contexts) returns (sorted: Contexts)
    requires |dimensions| == |canonical|
    requires forall i | 0 <= i < |dimensions| :: canonical[i] == SortedEntry(contexts, dimensions[i])
    ensures sorted == canonical
  {
    sorted := [];
    for i := 0 to |dimensions|
      invariant sorted == canonical[..i]
    {
      sorted := sorted + [SortedEntry(contexts, dimensions[i])];
    }
  }

  /** Filling a fresh object dimension by dimension, in sorted order. */
  method SerializeContexts(contexts: Contexts) returns (sorted: Contexts)
    requires IsObject(contexts)
    ensures sorted == CanonicalContexts(contexts)
  {
    var dimensions := SortStrings(Keys(contexts));
    forall i | 0 <= i < |contexts|
      ensures CanonicalContexts(contexts)[i] == SortedEntry(contexts, dimensions[i])
    {
      CanonicalEntry(contexts, i);
    }
    sorted := FillSorted(contexts, dimensions, CanonicalContexts(contexts));
  }

  /** The loop that copies an object back, sharing no array with it. */
  method CopyContexts(contexts: Contexts) returns (copy: Contexts)
    requires IsObject(contexts)
    ensures copy == contexts
  {
    copy := [];
    var dimensions := Keys(contexts);
    for i := 0 to |dimensions|
      invariant copy == contexts[..i]
    {
      LookupAt(contexts, i);
      copy := copy + [(dimensions[i], ValuesOr(Lookup(contexts, dimensions[i])))];
    }
  }

  function CanonicalOptional(contexts: Option<Contexts>): Option<Contexts> {
    if contexts.Some? then Some(CanonicalContexts(contexts.value)) else None
  }

  function CanonicalConstraints(c: Constraints): Constraints {
    c.(prohibitedUses := SortedList(c.prohibitedUses), permittedContexts := CanonicalOptional(c.permittedContexts))
  }

  /** The terms with every collection in its canonical order. */
  function Canonical(t: Terms): Terms {
    t.(rights := SortStrings(t.rights), permittedUses := SortStrings(t.permittedUses), constraints := CanonicalConstraints(t.constraints))
  }

  function ScopeImage(s: Option<Scope>): Option<Json> {
    if s.None? then None
    else Some(match s.value
      case Proportional(p) => Literal(["kind", "basisPoints"], [Some(Str("proportional")), Some(FromInt(p))])
      case Unitized(u, d) => Literal(["kind", "units", "unitDenomination"], [Some(Str("unitized")), Some(FromInt(u)), Some(Str(d))]))
  }

  function UnitsImage(u: Option<Units>): Option<Json> {
    if u.None? then None
    else Some(Literal(["units", "unitDenomination"], [Some(FromInt(u.value.units)), Some(Str(u.value.unitDenomination))]))
  }

  function ConstraintsImage(c: Constraints): Json {
    Literal(CONSTRAINT_NAMES,
      [ListOf(c.prohibitedUses), ContextsOf(c.permittedContexts), TextOf(c.maximumLicenseTermEndsAt), UnitsImage(c.maximumLicensedUnits),
       Some(Str(DispositionName(c.sublicensing))), Some(Str(DispositionName(c.assignment))),
       Some(Bool(c.additionalLicensesAllowed)), FlagOf(c.externalAgreementReferenceRequired)])
  }

  function Image(t: Terms): Json {
    Literal(TERMS_NAMES,
      [Some(FromStrings(t.rights)), Some(Str(t.licenseeRef)), Some(FromStrings(t.permittedUses)),
       Some(Str(ExclusivityName(t.exclusivity))), ScopeImage(t.rightsScope), TextOf(t.executorRef), Some(ConstraintsImage(t.constraints))])
  }

  function Serialize(t: Terms): Json {
    Image(Canonical(t))
  }

  // ---- Printing carries the terms ----------------------------------------------------

  lemma ScopeImageCarries(s: Option<Scope>)
    ensures CarriesScope(ScopeImage(s), s)
  {
    match s
    case Some(Proportional(p)) =>
      var names, values := ["kind", "basisPoints"], [Some(Str("proportional")), Some(FromInt(p))];
      LiteralGet(names, values, 0);
      LiteralGet(names, values, 1);
    case Some(Unitized(u, d)) =>
      var names, values := ["kind", "units", "unitDenomination"], [Some(Str("unitized")), Some(FromInt(u)), Some(Str(d))];
      LiteralGet(names, values, 0);
      LiteralGet(names, values, 1);
      LiteralGet(names, values, 2);
    case None =>
  }

  lemma UnitsImageCarries(u: Option<Units>)
    ensures CarriesUnits(UnitsImage(u), u)
  {
    if u.Some? {
      var names, values := ["units", "unitDenomination"], [Some(FromInt(u.value.units)), Some(Str(u.value.unitDenomination))];
      LiteralGet(names, values, 0);
      LiteralGet(names, values, 1);
    }
  }

  lemma ConstraintsImageFields(values: seq<Option<Json>>)
    requires |values| == |CONSTRAINT_NAMES|
    ensures ConstraintFieldsOf(Literal(CONSTRAINT_NAMES, values)) == ConstraintFields(
      values[0], values[1], values[2], values[3], values[4], values[5], values[6], values[7])
  {
    LiteralGetAll(CONSTRAINT_NAMES, values);
  }

  lemma TermsImageFields(values: seq<Option<Json>>)
    requires |values| == |TERMS_NAMES|
    ensures TermsFieldsOf(Literal(TERMS_NAMES, values)) ==
      TermsFields(values[0], values[1], values[2], values[3], values[4], values[5], values[6])
  {
    LiteralGetAll(TERMS_NAMES, values);
  }

  lemma ImageCarries(t: Terms)
    ensures Carries(Image(t), t)
  {
    var c := t.constraints;
    ScopeImageCarries(t.rightsScope);
    UnitsImageCarries(c.maximumLicensedUnits);
    ConstraintsImageFields(
      [ListOf(c.prohibitedUses), ContextsOf(c.permittedContexts), TextOf(c.maximumLicenseTermEndsAt), UnitsImage(c.maximumLicensedUnits),
       Some(Str(DispositionName(c.sublicensing))), Some(Str(DispositionName(c.assignment))),
       Some(Bool(c.additionalLicensesAllowed)), FlagOf(c.externalAgreementReferenceRequired)]);
    TermsImageFields(
      [Some(FromStrings(t.rights)), Some(Str(t.licenseeRef)), Some(FromStrings(t.permittedUses)),
       Some(Str(ExclusivityName(t.exclusivity))), ScopeImage(t.rightsScope), TextOf(t.executorRef), Some(ConstraintsImage(t.constraints))]);
  }

  // ---- Canonical contexts ---------------------------------------------------------------

  lemma CanonicalContextsLookup(contexts: Contexts, i: nat)
    requires IsObject(contexts) && i < |contexts|
    ensures |CanonicalContexts(contexts)| == |contexts|
    ensures var (key, values) := CanonicalContexts(contexts)[i];
      key in Keys(contexts) && Lookup(contexts, key).Some? && values == SortStrings(Lookup(contexts, key).value)
  {
    var entry := SortEntries(contexts)[i];
    SortMembers(KeyOf<seq<string>>, contexts);
    assert entry in contexts;
    LookupIsMembership(contexts, entry.0);
    assert (entry.0, entry.1) == entry;
  }

  lemma CanonicalContextsKeys(contexts: Contexts)
    requires IsObject(contexts)
    ensures Keys(CanonicalContexts(contexts)) == SortStrings(Keys(contexts))
    ensures IsObject(CanonicalContexts(contexts))
  {
    KeysOfSortedEntries(contexts);
    assert Keys(CanonicalContexts(contexts)) == Keys(SortEntries(contexts));
    KeysDoNotRepeat(contexts);
    SortStrictly(Self, Keys(contexts));
    assert NoRepeats(SortStrings(Keys(contexts))) by {
      forall i, j | 0 <= i < j < |SortStrings(Keys(contexts))|
        ensures SortStrings(Keys(contexts))[i] != SortStrings(Keys(contexts))[j]
      {
        assert Self(SortStrings(Keys(contexts))[i]) != Self(SortStrings(Keys(contexts))[j]);
      }
    }
    KeysDoNotRepeat(CanonicalContexts(contexts));
  }

  lemma EqualContextsHaveOneCanonicalForm(a: Contexts, b: Contexts)
    requires IsObject(a) && IsObject(b) && ContextsEquals(Some(a), Some(b))
    ensures CanonicalContexts(a) == CanonicalContexts(b)
  {
    var x, y := CanonicalContexts(a), CanonicalContexts(b);
    CanonicalContextsKeys(a);
    CanonicalContextsKeys(b);
    assert |x| == |Keys(x)| == |Keys(y)| == |y|;
    forall i | 0 <= i < |x| ensures x[i] == y[i] {
      CanonicalContextsLookup(a, i);
      CanonicalContextsLookup(b, i);
      assert Keys(x)[i] == Keys(y)[i];
    }
  }

  lemma IndexOfCanonicalKey(contexts: Contexts, key: string) returns (i: nat)
    requires IsObject(contexts) && key in Keys(contexts)
    ensures i < |CanonicalContexts(contexts)| && CanonicalContexts(contexts)[i].0 == key
  {
    CanonicalContextsKeys(contexts);
    SortMembers(Self, Keys(contexts));
    assert key in Keys(CanonicalContexts(contexts));
    i :| i < |CanonicalContexts(contexts)| && Keys(CanonicalContexts(contexts))[i] == key;
  }

  lemma OneCanonicalFormMakesContextsEqual(a: Contexts, b: Contexts)
    requires IsObject(a) && IsObject(b) && CanonicalContexts(a) == CanonicalContexts(b)
    ensures ContextsEquals(Some(a), Some(b))
  {
    CanonicalContextsKeys(a);
    CanonicalContextsKeys(b);
    forall key | key in Keys(a)
      ensures StringArrayEquals(ValuesOr(Lookup(a, key)), ValuesOr(Lookup(b, key)))
    {
      var i := IndexOfCanonicalKey(a, key);
      CanonicalContextsLookup(a, i);
      CanonicalContextsLookup(b, i);
    }
  }

  /** Two context maps are equal exactly when they have one canonical form. */
  lemma ContextsEqualIffCanonical(a: Contexts, b: Contexts)
    requires IsObject(a) && IsObject(b)
    ensures ContextsEquals(Some(a), Some(b)) <==> CanonicalContexts(a) == CanonicalContexts(b)
  {
    if ContextsEquals(Some(a), Some(b)) { EqualContextsHaveOneCanonicalForm(a, b); }
    if CanonicalContexts(a) == CanonicalContexts(b) { OneCanonicalFormMakesContextsEqual(a, b); }
  }

  lemma CanonicalContextsWellFormed(contexts: Contexts)
    requires WellFormedContexts(contexts)
    ensures WellFormedContexts(CanonicalContexts(contexts))
  {
    var canonical := CanonicalContexts(contexts);
    CanonicalContextsKeys(contexts);
    SortMembers(KeyOf<seq<string>>, contexts);
    forall entry | entry in canonical ensures entry.0 != "" && entry.1 != [] && "" !in entry.1 {
      var i :| 0 <= i < |canonical| && canonical[i] == entry;
      assert SortEntries(contexts)[i] in contexts;
      SortMembers(Self, SortEntries(contexts)[i].1);
    }
  }

  lemma SortedStringsEqual(xs: seq<string>)
    ensures StringArrayEquals(xs, SortStrings(xs))
  {
    StringArrayEqualsIsMultisetEquality(xs, SortStrings(xs));
  }

  lemma CanonicalContextsEqual(contexts: Contexts)
    requires IsObject(contexts)
    ensures ContextsEquals(Some(contexts), Some(CanonicalContexts(contexts)))
  {
    var canonical := CanonicalContexts(contexts);
    CanonicalContextsKeys(contexts);
    SortedStringsEqual(Keys(contexts));
    forall key | key in Keys(contexts)
      ensures StringArrayEquals(ValuesOr(Lookup(contexts, key)), ValuesOr(Lookup(canonical, key)))
    {
      var i := IndexOfCanonicalKey(contexts, key);
      LookupAt(canonical, i);
      CanonicalContextsLookup(contexts, i);
      SortedStringsEqual(Lookup(contexts, key).value);
    }
  }

  // ---- Round trip and faithful printing ---------------------------------------------------

  lemma SortKeepsVocabulary(xs: seq<string>, words: seq<string>)
    ensures Vocabulary(xs, words) ==> Vocabulary(SortStrings(xs), words)
    ensures StringArrayEquals(xs, SortStrings(xs))
  {
    SortMembers(Self, xs);
    StringArrayEqualsIsMultisetEquality(xs, SortStrings(xs));
    if NoRepeats(xs) {
      DistinctKeysPermute(Self, xs, SortStrings(xs));
      forall i, j | 0 <= i < j < |SortStrings(xs)| ensures SortStrings(xs)[i] != SortStrings(xs)[j] {
        assert Self(SortStrings(xs)[i]) != Self(SortStrings(xs)[j]);
      }
    }
  }

  lemma CanonicalConstraintsWellFormed(t: Terms)
    requires WellFormedConstraints(t.constraints, t.permittedUses)
    ensures WellFormedConstraints(Canonical(t).constraints, Canonical(t).permittedUses)
  {
    var c := t.constraints;
    SortMembers(Self, t.permittedUses);
    if c.prohibitedUses.Some? {
      SortKeepsVocabulary(c.prohibitedUses.value, USE_TYPES);
      SortMembers(Self, c.prohibitedUses.value);
    }
    if c.permittedContexts.Some? { CanonicalContextsWellFormed(c.permittedContexts.value); }
  }

  lemma CanonicalIsWellFormed(t: Terms)
    requires WellFormedTerms(t)
    ensures WellFormedTerms(Canonical(t))
  {
    SortKeepsVocabulary(t.rights, RIGHT_TYPES);
    SortKeepsVocabulary(t.permittedUses, USE_TYPES);
    CanonicalConstraintsWellFormed(t);
  }

  lemma CanonicalConstraintsEqual(c: Constraints)
    requires IsContextMap(c.permittedContexts)
    ensures ConstraintsEquals(c, CanonicalConstraints(c))
  {
    SortedListEquals(c.prohibitedUses);
    if c.permittedContexts.Some? { CanonicalContextsEqual(c.permittedContexts.value); }
  }

  lemma CanonicalIsEqual(t: Terms)
    requires IsContextMap(t.constraints.permittedContexts)
    ensures TermsEquals(t, Canonical(t))
  {
    SortedStringsEqual(t.rights);
    SortedStringsEqual(t.permittedUses);
    ScopesEqualIsEquality(t.rightsScope, t.rightsScope);
    CanonicalConstraintsEqual(t.constraints);
  }

  /** What the serializer prints the validator accepts, and the reader turns into equal, well-formed terms. */
  lemma RoundTrip(t: Terms)
    requires WellFormedTerms(t)
    ensures TermsIssues(Serialize(t)) == []
    ensures WellFormedTerms(Read(Serialize(t))) && TermsEquals(t, Read(Serialize(t)))
  {
    CanonicalIsWellFormed(t);
    CanonicalIsEqual(t);
    ImageCarries(Canonical(t));
    CarriedIsAccepted(Serialize(t), Canonical(t));
  }

  lemma OptionalContextsEqualIffCanonical(a: Option<Contexts>, b: Option<Contexts>)
    requires IsContextMap(a) && IsContextMap(b)
    ensures ContextsEquals(a, b) <==> CanonicalOptional(a) == CanonicalOptional(b)
  {
    if a.Some? && b.Some? { ContextsEqualIffCanonical(a.value, b.value); }
  }

  lemma ConstraintsEqualIffCanonical(a: Constraints, b: Constraints)
    requires IsContextMap(a.permittedContexts) && IsContextMap(b.permittedContexts)
    ensures ConstraintsEquals(a, b) <==> CanonicalConstraints(a) == CanonicalConstraints(b)
  {
    EqualIffSortedAlike(a.prohibitedUses, b.prohibitedUses);
    OptionalContextsEqualIffCanonical(a.permittedContexts, b.permittedContexts);
  }

  lemma ScopesEqualIsEquality(a: Option<Scope>, b: Option<Scope>)
    ensures ScopesEqual(a, b) <==> a == b
  {
  }

  lemma TermsEqualIffCanonical(a: Terms, b: Terms)
    requires IsContextMap(a.constraints.permittedContexts) && IsContextMap(b.constraints.permittedContexts)
    ensures TermsEquals(a, b) <==> Canonical(a) == Canonical(b)
  {
    ScopesEqualIsEquality(a.rightsScope, b.rightsScope);
    ConstraintsEqualIffCanonical(a.constraints, b.constraints);
  }

  /** Terms are equal exactly when they are printed identically. */
  lemma EqualIffPrintedAlike(a: Terms, b: Terms)
    requires WellFormedTerms(a) && WellFormedTerms(b)
    ensures TermsEquals(a, b) <==> Serialize(a) == Serialize(b)
  {
    TermsEqualIffCanonical(a, b);
    CanonicalIsWellFormed(a);
    CanonicalIsWellFormed(b);
    ImageCarries(Canonical(a));
    ImageCarries(Canonical(b));
    if Serialize(a) == Serialize(b) {
      CarriedIsAccepted(Serialize(a), Canonical(a));
      CarriedIsAccepted(Serialize(a), Canonical(b));
    }
  }
}
