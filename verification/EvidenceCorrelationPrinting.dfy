/** Deterministic printing of correlation graphs, and the theorems that tie printing, equality and validity together. */
module EvidenceCorrelationPrinting {
  import opened Options
  import opened Ordering
  import opened Records
  import opened Json
  import opened ReferenceLists
  import opened EvidenceCorrelation
  import R = ResourceRefs

  function SortedMetadata(metadata: Option<Metadata>): Option<Metadata> {
    if metadata.Some? then Some(SortedCopy(metadata.value)) else None
  }

  /** The metadata entry a copy by assignment loses, if there is one. */
  function LostMetadata(metadata: Option<Metadata>): Option<Json> {
    if metadata.Some? then Lookup(metadata.value, PROTO) else None
  }

  function Canonical(g: Graph): Graph {
    g.(resource := R.Canonical(g.resource),
       decisionRefs := SortStrings(g.decisionRefs),
       obligationRefs := SortedList(g.obligationRefs),
       grantRefs := SortedList(g.grantRefs),
       usageRefs := SortedList(g.usageRefs),
       revocationRefs := SortedList(g.revocationRefs),
       metadata := SortedMetadata(g.metadata))
  }

  function Values(g: Graph): (values: seq<Option<Json>>)
    ensures |values| == |NAMES|
  {
    [Some(Str(g.schemaVersion)), Some(Str(g.id)), Some(R.Image(g.resource)), Some(FromStrings(g.decisionRefs)), Some(Str(g.correlatedAt)),
     ListOf(g.obligationRefs), ListOf(g.grantRefs), ListOf(g.usageRefs), ListOf(g.revocationRefs),
     MetadataOf(g.metadata), TextOf(g.description)]
  }

  /** The object literal, optional fields left out when absent. */
  function Image(g: Graph): Json {
    Literal(NAMES, Values(g))
  }

  function Serialize(g: Graph): Json {
    Image(Canonical(g))
  }

  lemma NamesDiffer()
    ensures NoRepeats(NAMES)
  {
  }

  lemma LiteralFields(values: seq<Option<Json>>)
    requires |values| == |NAMES|
    ensures FieldsOf(Literal(NAMES, values)) == Fields(
      values[0], values[1], values[2], values[3], values[4], values[5], values[6], values[7], values[8], values[9], values[10])
  {
    NamesDiffer();
    LiteralGetAll(NAMES, values);
  }

  lemma ImageCarries(g: Graph)
    ensures Carries(Image(g), g)
  {
    LiteralFields(Values(g));
    R.ImageFields(g.resource);
  }

  lemma ImageIsInjective(a: Graph, b: Graph)
    requires Image(a) == Image(b)
    ensures a == b
  {
    LiteralFields(Values(a));
    LiteralFields(Values(b));
    R.ImageIsInjective(a.resource, b.resource);
    FromStringsInjective(a.decisionRefs, b.decisionRefs);
    ListOfIsInjective(a.obligationRefs, b.obligationRefs);
    ListOfIsInjective(a.grantRefs, b.grantRefs);
    ListOfIsInjective(a.usageRefs, b.usageRefs);
    ListOfIsInjective(a.revocationRefs, b.revocationRefs);
  }

  // ---- Equality and printing ---------------------------------------------------------

  ghost predicate RecordsAreObjects(g: Graph) {
    R.AttributesAreAnObject(g.resource) && (g.metadata.Some? ==> IsObject(g.metadata.value))
  }

  predicate EveryValueEqualsItself(metadata: Option<Metadata>) {
    metadata.Some? ==> forall key | key in Keys(metadata.value) :: Lookup(metadata.value, key) != Some(NotANumber)
  }

  lemma MetadataEqualIffSorted(a: Option<Metadata>, b: Option<Metadata>)
    requires a.Some? ==> IsObject(a.value)
    requires b.Some? ==> IsObject(b.value)
    ensures MetadataEquals(a, b) <==>
      SortedMetadata(a) == SortedMetadata(b) && LostMetadata(a) == LostMetadata(b) && EveryValueEqualsItself(a)
  {
    if a.Some? && b.Some? {
      RecordEqualsIffCopiedAlike(a.value, b.value);
      assert MetadataEquals(a, b) <==> RecordEquals(a.value, b.value) && EveryValueEqualsItself(a);
    }
  }

  /** They agree on the entries that are not printed. */
  predicate LoseAlike(a: Graph, b: Graph) {
    R.Lost(a.resource) == R.Lost(b.resource) && LostMetadata(a.metadata) == LostMetadata(b.metadata)
  }

  predicate LosesNothing(g: Graph) {
    R.Lost(g.resource).None? && LostMetadata(g.metadata).None?
  }

  /** The fields that are compared as they stand. */
  predicate PlainEquals(a: Graph, b: Graph) {
    a.schemaVersion == b.schemaVersion && a.id == b.id && a.correlatedAt == b.correlatedAt && a.description == b.description
  }

  predicate ReferencesEqual(a: Graph, b: Graph) {
    && StringArrayEquals(a.decisionRefs, b.decisionRefs)
    && OptionalArrayEquals(a.obligationRefs, b.obligationRefs)
    && OptionalArrayEquals(a.grantRefs, b.grantRefs)
    && OptionalArrayEquals(a.usageRefs, b.usageRefs)
    && OptionalArrayEquals(a.revocationRefs, b.revocationRefs)
  }

  predicate ReferencesSortAlike(a: Graph, b: Graph) {
    && SortStrings(a.decisionRefs) == SortStrings(b.decisionRefs)
    && SortedList(a.obligationRefs) == SortedList(b.obligationRefs)
    && SortedList(a.grantRefs) == SortedList(b.grantRefs)
    && SortedList(a.usageRefs) == SortedList(b.usageRefs)
    && SortedList(a.revocationRefs) == SortedList(b.revocationRefs)
  }

  lemma ReferencesEqualIffSortAlike(a: Graph, b: Graph)
    ensures ReferencesEqual(a, b) <==> ReferencesSortAlike(a, b)
  {
    EqualIffSortedAlike(a.obligationRefs, b.obligationRefs);
    EqualIffSortedAlike(a.grantRefs, b.grantRefs);
    EqualIffSortedAlike(a.usageRefs, b.usageRefs);
    EqualIffSortedAlike(a.revocationRefs, b.revocationRefs);
  }

  lemma GraphEqualsInParts(a: Graph, b: Graph)
    ensures GraphEquals(a, b) <==>
      && PlainEquals(a, b) && ReferencesEqual(a, b)
      && R.IdentityEquals(a.resource, b.resource) && R.AttributesEquals(a.resource.attributes, b.resource.attributes)
      && MetadataEquals(a.metadata, b.metadata)
  {
  }

  lemma CanonicalInParts(a: Graph, b: Graph)
    ensures Canonical(a) == Canonical(b) <==>
      && PlainEquals(a, b) && ReferencesSortAlike(a, b)
      && R.Canonical(a.resource) == R.Canonical(b.resource)
      && SortedMetadata(a.metadata) == SortedMetadata(b.metadata)
  {
  }

  lemma EqualIffCanonical(a: Graph, b: Graph)
    requires RecordsAreObjects(a) && RecordsAreObjects(b)
    ensures GraphEquals(a, b) <==> Canonical(a) == Canonical(b) && LoseAlike(a, b) && EveryValueEqualsItself(a.metadata)
  {
    R.EqualIffCanonical(a.resource, b.resource);
    MetadataEqualIffSorted(a.metadata, b.metadata);
    ReferencesEqualIffSortAlike(a, b);
    GraphEqualsInParts(a, b);
    CanonicalInParts(a, b);
  }

  /**
   Two graphs are equal exactly when they are printed identically, agree on the entries
   that are not printed, and no metadata value is the number that is not one.
   */
  lemma EqualIffPrintedAlike(a: Graph, b: Graph)
    requires RecordsAreObjects(a) && RecordsAreObjects(b)
    ensures GraphEquals(a, b) <==> Serialize(a) == Serialize(b) && LoseAlike(a, b) && EveryValueEqualsItself(a.metadata)
  {
    EqualIffCanonical(a, b);
    if Serialize(a) == Serialize(b) { ImageIsInjective(Canonical(a), Canonical(b)); }
  }

  lemma ValidMetadataEqualsItself(metadata: Option<Metadata>)
    requires WellFormedMetadata(metadata)
    ensures EveryValueEqualsItself(metadata)
  {
    if metadata.Some? {
      forall key | key in Keys(metadata.value) ensures Lookup(metadata.value, key) != Some(NotANumber) {
        var i :| 0 <= i < |metadata.value| && Keys(metadata.value)[i] == key;
        LookupAt(metadata.value, i);
        assert EntryAllowed(metadata.value[i]);
      }
    }
  }

  /** On valid graphs, equality is identical printing and agreement on the entries that are not printed. */
  lemma ValidEqualIffPrintedAlike(a: Graph, b: Graph)
    requires WellFormed(a) && RecordsAreObjects(b)
    ensures GraphEquals(a, b) <==> Serialize(a) == Serialize(b) && LoseAlike(a, b)
  {
    ValidMetadataEqualsItself(a.metadata);
    EqualIffPrintedAlike(a, b);
  }

  // ---- Validity under equality -----------------------------------------------------------

  lemma EntriesStayAllowed(entries: Metadata, fewer: Metadata)
    requires forall i | 0 <= i < |entries| :: EntryAllowed(entries[i])
    requires forall e | e in fewer :: e in entries
    ensures forall i | 0 <= i < |fewer| :: EntryAllowed(fewer[i])
  {
    forall i | 0 <= i < |fewer| ensures EntryAllowed(fewer[i]) {
      assert fewer[i] in entries;
      var k :| 0 <= k < |entries| && entries[k] == fewer[i];
    }
  }

  lemma EqualMetadataAlikeFormed(a: Option<Metadata>, b: Option<Metadata>)
    requires a.Some? ==> IsObject(a.value)
    requires b.Some? ==> IsObject(b.value)
    requires MetadataEquals(a, b)
    ensures WellFormedMetadata(a) <==> WellFormedMetadata(b)
  {
    if a.Some? && b.Some? {
      RecordEqualsIffSameEntries(a.value, b.value);
      assert RecordEquals(a.value, b.value);
      if WellFormedMetadata(a) { EntriesStayAllowed(a.value, b.value); }
      if WellFormedMetadata(b) { EntriesStayAllowed(b.value, a.value); }
    }
  }

  lemma EqualGraphsAreFormedAlike(a: Graph, b: Graph)
    requires RecordsAreObjects(a) && RecordsAreObjects(b) && GraphEquals(a, b)
    ensures WellFormed(a) <==> WellFormed(b)
  {
    EqualRefsAlikeFormed(a.decisionRefs, b.decisionRefs);
    EqualOptionalRefsAlikeFormed(a.obligationRefs, b.obligationRefs);
    EqualOptionalRefsAlikeFormed(a.grantRefs, b.grantRefs);
    EqualOptionalRefsAlikeFormed(a.usageRefs, b.usageRefs);
    EqualOptionalRefsAlikeFormed(a.revocationRefs, b.revocationRefs);
    EqualMetadataAlikeFormed(a.metadata, b.metadata);
  }

  lemma ConsistencyReadsBack(f: Fields)
    requires ReferenceIssues(f) == [] && ConsistencyIssues(f) == []
    ensures f.usageRefs.Some? || f.revocationRefs.Some? ==> f.grantRefs.Some?
  {
    ReferencesReadBack(f);
  }

  lemma AcceptedIsWellFormed(f: Fields, g: Graph)
    requires Carried(f, g) && FieldIssues(f) == [] && RecordsAreObjects(g)
    ensures WellFormed(g)
  {
    ReferencesReadBack(f);
    FromStringsInjective(StringsOf(f.decisionRefs.value.items), g.decisionRefs);
    ListOfIsInjective(ReadList(f.obligationRefs), g.obligationRefs);
    ListOfIsInjective(ReadList(f.grantRefs), g.grantRefs);
    ListOfIsInjective(ReadList(f.usageRefs), g.usageRefs);
    ListOfIsInjective(ReadList(f.revocationRefs), g.revocationRefs);
    ConsistencyReadsBack(f);
    if g.metadata.Some? { EntriesDecide(g.metadata.value); }
  }

  /** A graph handed to the validator as it stands is accepted exactly when it is valid. */
  lemma ImageAcceptedIff(g: Graph)
    requires RecordsAreObjects(g)
    ensures Issues(Image(g)) == [] <==> WellFormed(g)
  {
    ImageCarries(g);
    if WellFormed(g) { CarriedIsAccepted(FieldsOf(Image(g)), g); }
    if Issues(Image(g)) == [] { AcceptedIsWellFormed(FieldsOf(Image(g)), g); }
  }

  /** Validity is invariant under equality: the validator accepts both of two equal graphs, or neither. */
  lemma EqualGraphsAreValidAlike(a: Graph, b: Graph)
    requires RecordsAreObjects(a) && RecordsAreObjects(b) && GraphEquals(a, b)
    ensures Issues(Image(a)) == [] <==> Issues(Image(b)) == []
  {
    EqualGraphsAreFormedAlike(a, b);
    ImageAcceptedIff(a);
    ImageAcceptedIff(b);
  }

  lemma CanonicalIsAnObject(g: Graph)
    requires RecordsAreObjects(g)
    ensures RecordsAreObjects(Canonical(g)) && LosesNothing(Canonical(g)) && Canonical(Canonical(g)) == Canonical(g)
  {
    R.CanonicalIsAnObject(g.resource);
    SortedListEquals(g.obligationRefs);
    SortedListEquals(g.grantRefs);
    SortedListEquals(g.usageRefs);
    SortedListEquals(g.revocationRefs);
    StringArrayEqualsIsMultisetEquality(g.decisionRefs, SortStrings(g.decisionRefs));
    if g.metadata.Some? { EqualsItsCopyIff(g.metadata.value); }
    CanonicalInParts(g, Canonical(g));
  }

  /** A valid graph equals what is printed of it exactly when nothing of it is lost. */
  lemma CanonicalIsEqualIff(g: Graph)
    requires WellFormed(g)
    ensures GraphEquals(g, Canonical(g)) <==> LosesNothing(g)
  {
    CanonicalIsAnObject(g);
    ValidMetadataEqualsItself(g.metadata);
    EqualIffCanonical(g, Canonical(g));
  }

  lemma CopiedMetadataIsFormed(metadata: Option<Metadata>)
    requires WellFormedMetadata(metadata)
    ensures WellFormedMetadata(SortedMetadata(metadata))
  {
    if metadata.Some? {
      SortedCopyMembers(metadata.value);
      EntriesStayAllowed(metadata.value, SortedCopy(metadata.value));
    }
  }

  lemma CanonicalIsFormed(g: Graph)
    requires WellFormed(g)
    ensures WellFormed(Canonical(g))
  {
    CanonicalIsAnObject(g);
    StringArrayEqualsIsMultisetEquality(g.decisionRefs, SortStrings(g.decisionRefs));
    SortedListEquals(g.obligationRefs);
    SortedListEquals(g.grantRefs);
    SortedListEquals(g.usageRefs);
    SortedListEquals(g.revocationRefs);
    EqualRefsAlikeFormed(g.decisionRefs, SortStrings(g.decisionRefs));
    EqualOptionalRefsAlikeFormed(g.obligationRefs, SortedList(g.obligationRefs));
    EqualOptionalRefsAlikeFormed(g.grantRefs, SortedList(g.grantRefs));
    EqualOptionalRefsAlikeFormed(g.usageRefs, SortedList(g.usageRefs));
    EqualOptionalRefsAlikeFormed(g.revocationRefs, SortedList(g.revocationRefs));
    CopiedMetadataIsFormed(g.metadata);
  }

  /**
   Reading what was printed never fails for a valid graph, and returns a valid one. It is
   equal to the first exactly when no attribute and no metadata key bears the one name
   that is not assignable.
   */
  lemma RoundTrip(g: Graph)
    requires WellFormed(g)
    ensures Issues(Serialize(g)) == [] && ResourceRestTyped(FieldsOf(Serialize(g)))
    ensures WellFormed(Deserialize(Serialize(g)))
    ensures GraphEquals(g, Deserialize(Serialize(g))) <==> LosesNothing(g)
  {
    CanonicalIsEqualIff(g);
    CanonicalIsFormed(g);
    ImageCarries(Canonical(g));
    CarriedIsAccepted(FieldsOf(Serialize(g)), Canonical(g));
  }

  // ---- What acceptance means, over any input ------------------------------------------------

  lemma MetadataPrintsBack(v: Option<Json>)
    requires MetadataIssues(v) == [] && (v.Some? ==> Proper(v.value))
    ensures v.Some? ==> v.value.Obj?
    ensures MetadataOf(ReadMetadata(v)) == v && WellFormedMetadata(ReadMetadata(v))
  {
    if v.Some? { EntriesDecide(v.value.fields); }
  }

  lemma FieldsPrintBack(f: Fields)
    requires FieldIssues(f) == [] && ResourceRestTyped(f)
    requires (f.resource.Some? ==> Proper(f.resource.value)) && (f.metadata.Some? ==> Proper(f.metadata.value))
    ensures Carried(f, ReadFields(f)) && WellFormed(ReadFields(f))
  {
    ReferencesReadBack(f);
    ConsistencyReadsBack(f);
    R.PrintsBack(f.resource.value);
    MetadataPrintsBack(f.metadata);
  }

  /** The validator accepts, and the unchecked parts of the resource are well-typed, exactly when the candidate carries a valid graph. */
  lemma AcceptedAndTypedIff(c: Json)
    requires Proper(c) && c.Obj?
    ensures Issues(c) == [] && ResourceRestTyped(FieldsOf(c)) <==> exists g :: Carries(c, g) && WellFormed(g)
  {
    if Issues(c) == [] && ResourceRestTyped(FieldsOf(c)) {
      if FieldsOf(c).resource.Some? { ProperField(c, NAMES[2]); }
      if FieldsOf(c).metadata.Some? { ProperField(c, NAMES[9]); }
      FieldsPrintBack(FieldsOf(c));
      assert Carries(c, Deserialize(c));
    }
    if g :| Carries(c, g) && WellFormed(g) {
      CarriedIsAccepted(FieldsOf(c), g);
    }
  }
}
