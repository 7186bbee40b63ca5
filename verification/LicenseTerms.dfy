/**
 License terms: the containment test between granted and requested terms, and
 exactly when it is the order it is meant to be. Timestamps are compared through
 `parse`, which gives the instant a string denotes, or none.
 */
module LicenseTerms {
  import opened Options
  import opened Instants
  import opened Ordering
  import opened Records
  import opened SafeIntegers
  import opened RightsScope
  import opened AuthorizationArtifact

  /** Operating contexts: opaque dimensions, each with its permitted values. */
  type Contexts = seq<(string, seq<string>)>

  datatype Units = Units(units: int, unitDenomination: string)

  datatype Exclusivity = NonExclusive | Sole | Exclusive

  datatype Disposition = Prohibited | ApprovalRequired | Permitted

  datatype Constraints = Constraints(
    prohibitedUses: Option<seq<string>>,
    permittedContexts: Option<Contexts>,
    maximumLicenseTermEndsAt: Option<string>,
    maximumLicensedUnits: Option<Units>,
    sublicensing: Disposition,
    assignment: Disposition,
    additionalLicensesAllowed: bool,
    externalAgreementReferenceRequired: Option<bool>)

  datatype Terms = Terms(
    rights: seq<string>,
    licenseeRef: string,
    permittedUses: seq<string>,
    exclusivity: Exclusivity,
    rightsScope: Option<Scope>,
    executorRef: Option<string>,
    constraints: Constraints)

  const USE_TYPES: seq<string> :=
    ["display", "reproduce", "distribute", "broadcast", "modify",
     "derivative-work", "internal-use", "commercial-use", "model-training"]

  function ExclusivityRank(e: Exclusivity): int {
    match e
    case NonExclusive => 0
    case Sole => 1
    case Exclusive => 2
  }

  function DispositionRank(d: Disposition): int {
    match d
    case Prohibited => 0
    case ApprovalRequired => 1
    case Permitted => 2
  }

  // ---- Containment --------------------------------------------------------

  predicate AllIn(inner: seq<string>, outer: seq<string>) {
    forall entry | entry in inner :: entry in outer
  }

  /** Presence itself must agree: a portion cannot be asserted of what never expressed one. */
  predicate RightsScopeWithin(inner: Option<Scope>, outer: Option<Scope>) {
    if outer.None? then inner.None? else inner.Some? && ScopeWithin(inner.value, outer.value)
  }

  predicate UnitsWithin(inner: Option<Units>, outer: Option<Units>) {
    outer.None? || (inner.Some? && inner.value.unitDenomination == outer.value.unitDenomination && inner.value.units <= outer.value.units)
  }

  function Claimed(contexts: Option<Contexts>, dimension: string): Option<seq<string>> {
    if contexts.None? then None else Lookup(contexts.value, dimension)
  }

  predicate DimensionWithin(claimed: Option<seq<string>>, permitted: seq<string>) {
    claimed.Some? && claimed.value != [] && AllIn(claimed.value, permitted)
  }

  /** Dimension by dimension: what `outer` restricts, `inner` must name, and name nothing beyond it. */
  predicate ContextsWithin(inner: Option<Contexts>, outer: Option<Contexts>) {
    outer.None? || forall i | 0 <= i < |outer.value| :: DimensionWithin(Claimed(inner, outer.value[i].0), outer.value[i].1)
  }

  predicate TermEndWithin(parse: string -> Instant, inner: Option<string>, outer: Option<string>) {
    outer.None? || (inner.Some? && !Greater(parse(inner.value), parse(outer.value)))
  }

  predicate ProhibitionsKept(inner: Option<seq<string>>, outer: Option<seq<string>>) {
    outer.None? || AllIn(outer.value, if inner.Some? then inner.value else [])
  }

  predicate ConstraintsWithin(parse: string -> Instant, inner: Constraints, outer: Constraints) {
    && ProhibitionsKept(inner.prohibitedUses, outer.prohibitedUses)
    && ContextsWithin(inner.permittedContexts, outer.permittedContexts)
    && TermEndWithin(parse, inner.maximumLicenseTermEndsAt, outer.maximumLicenseTermEndsAt)
    && UnitsWithin(inner.maximumLicensedUnits, outer.maximumLicensedUnits)
    && DispositionRank(inner.sublicensing) <= DispositionRank(outer.sublicensing)
    && DispositionRank(inner.assignment) <= DispositionRank(outer.assignment)
    && (inner.additionalLicensesAllowed ==> outer.additionalLicensesAllowed)
    && FlagWithin(inner.externalAgreementReferenceRequired, outer.externalAgreementReferenceRequired)
  }

  predicate TermsWithin(parse: string -> Instant, inner: Terms, outer: Terms) {
    && AllIn(inner.rights, outer.rights)
    && inner.licenseeRef == outer.licenseeRef
    && AllIn(inner.permittedUses, outer.permittedUses)
    && ExclusivityRank(inner.exclusivity) <= ExclusivityRank(outer.exclusivity)
    && RightsScopeWithin(inner.rightsScope, outer.rightsScope)
    && inner.executorRef == outer.executorRef
    && ConstraintsWithin(parse, inner.constraints, outer.constraints)
  }

  /** The first entry of that name. */
  predicate FirstAt(entries: Contexts, dimension: string, k: nat) {
    k < |entries| && entries[k].0 == dimension && forall j | 0 <= j < k :: entries[j].0 != dimension
  }

  /** The dimension is named, with at least one value and none but permitted ones. */
  predicate NamesOnlyPermitted(contexts: Option<Contexts>, dimension: string, permitted: seq<string>) {
    contexts.Some? && exists k: nat | k < |contexts.value| ::
      && FirstAt(contexts.value, dimension, k)
      && |contexts.value[k].1| > 0
      && forall value | value in contexts.value[k].1 :: value in permitted
  }

  lemma {:induction false} LookupIsFirst(entries: Contexts, dimension: string, k: nat)
    requires FirstAt(entries, dimension, k)
    ensures Lookup(entries, dimension) == Some(entries[k].1)
  {
    if k > 0 {
      assert FirstAt(entries[1..], dimension, k - 1);
      LookupIsFirst(entries[1..], dimension, k - 1);
    }
  }

  lemma FirstAtSteps(entries: Contexts, dimension: string, k: nat)
    requires entries != [] && entries[0].0 != dimension && FirstAt(entries[1..], dimension, k)
    ensures FirstAt(entries, dimension, k + 1)
  {
    forall j | 0 <= j < k + 1 ensures entries[j].0 != dimension {
      if j > 0 { assert entries[1..][j - 1].0 != dimension; }
    }
  }

  lemma {:induction false} FirstOfLookup(entries: Contexts, dimension: string) returns (k: nat)
    requires Lookup(entries, dimension).Some?
    ensures FirstAt(entries, dimension, k)
  {
    if entries[0].0 == dimension {
      k := 0;
    } else {
      k := FirstOfLookup(entries[1..], dimension);
      FirstAtSteps(entries, dimension, k);
      k := k + 1;
    }
  }

  lemma DimensionWithinIff(contexts: Option<Contexts>, dimension: string, permitted: seq<string>)
    ensures DimensionWithin(Claimed(contexts, dimension), permitted) <==> NamesOnlyPermitted(contexts, dimension, permitted)
  {
    if DimensionWithin(Claimed(contexts, dimension), permitted) {
      var k := FirstOfLookup(contexts.value, dimension);
      LookupIsFirst(contexts.value, dimension, k);
    }
    if NamesOnlyPermitted(contexts, dimension, permitted) {
      var k: nat :| k < |contexts.value| && FirstAt(contexts.value, dimension, k) && |contexts.value[k].1| > 0
        && forall value | value in contexts.value[k].1 :: value in permitted;
      LookupIsFirst(contexts.value, dimension, k);
    }
  }

  /** Some restricted dimension is not named, is named without a value, or with one that is not permitted. */
  predicate ContextsStray(contexts: Option<Contexts>, limits: Option<Contexts>) {
    limits.Some? && exists entry | entry in limits.value :: !NamesOnlyPermitted(contexts, entry.0, entry.1)
  }

  /** Contexts lie within others exactly when they stray from none of the dimensions those restrict. */
  lemma ContextsWithinIff(inner: Option<Contexts>, outer: Option<Contexts>)
    ensures ContextsWithin(inner, outer) <==> !ContextsStray(inner, outer)
  {
    if outer.Some? {
      forall i | 0 <= i < |outer.value|
        ensures DimensionWithin(Claimed(inner, outer.value[i].0), outer.value[i].1)
          <==> NamesOnlyPermitted(inner, outer.value[i].0, outer.value[i].1)
      {
        DimensionWithinIff(inner, outer.value[i].0, outer.value[i].1);
      }
      if ContextsWithin(inner, outer) {
        forall entry | entry in outer.value ensures NamesOnlyPermitted(inner, entry.0, entry.1) {
          var i :| 0 <= i < |outer.value| && outer.value[i] == entry;
        }
      }
      forall i | 0 <= i < |outer.value| && forall entry | entry in outer.value :: NamesOnlyPermitted(inner, entry.0, entry.1)
        ensures NamesOnlyPermitted(inner, outer.value[i].0, outer.value[i].1)
      {
        assert outer.value[i] in outer.value;
      }
    }
  }

  // ---- Equality -------------------------------------------------------------

  function ValuesOr(values: Option<seq<string>>): seq<string> {
    if values.Some? then values.value else []
  }

  predicate ContextsEquals(a: Option<Contexts>, b: Option<Contexts>) {
    if a.None? || b.None? then a == b
    else
      && SortStrings(Keys(a.value)) == SortStrings(Keys(b.value))
      && forall key | key in Keys(a.value) ::
           StringArrayEquals(ValuesOr(Lookup(a.value, key)), ValuesOr(Lookup(b.value, key)))
  }

  predicate ScopesEqual(a: Option<Scope>, b: Option<Scope>) {
    if a.None? || b.None? then a == b else ScopeEquals(a.value, b.value)
  }

  predicate ConstraintsEquals(a: Constraints, b: Constraints) {
    && OptionalArrayEquals(a.prohibitedUses, b.prohibitedUses)
    && ContextsEquals(a.permittedContexts, b.permittedContexts)
    && a.maximumLicenseTermEndsAt == b.maximumLicenseTermEndsAt
    && a.maximumLicensedUnits == b.maximumLicensedUnits
    && a.sublicensing == b.sublicensing
    && a.assignment == b.assignment
    && a.additionalLicensesAllowed == b.additionalLicensesAllowed
    && a.externalAgreementReferenceRequired == b.externalAgreementReferenceRequired
  }

  predicate TermsEquals(a: Terms, b: Terms) {
    && StringArrayEquals(a.rights, b.rights)
    && a.licenseeRef == b.licenseeRef
    && StringArrayEquals(a.permittedUses, b.permittedUses)
    && a.exclusivity == b.exclusivity
    && ScopesEqual(a.rightsScope, b.rightsScope)
    && a.executorRef == b.executorRef
    && ConstraintsEquals(a.constraints, b.constraints)
  }

  // ---- What the validator accepts -------------------------------------------

  ghost predicate IsContextMap(contexts: Option<Contexts>) {
    contexts.Some? ==> IsObject(contexts.value)
  }

  predicate EveryDimensionNamesAValue(contexts: Option<Contexts>) {
    contexts.Some? ==> forall entry | entry in contexts.value :: entry.1 != []
  }

  ghost predicate WellFormedContexts(contexts: Contexts) {
    && contexts != [] && IsObject(contexts)
    && forall entry | entry in contexts :: entry.0 != "" && entry.1 != [] && "" !in entry.1
  }

  predicate Disjoint(a: seq<string>, b: seq<string>) {
    forall entry | entry in a :: entry !in b
  }

  predicate Vocabulary(xs: seq<string>, words: seq<string>) {
    xs != [] && NoRepeats(xs) && AllIn(xs, words)
  }

  // ---- Order ------------------------------------------------------------------

  lemma ContextsWithinReflexiveIff(contexts: Option<Contexts>)
    requires IsContextMap(contexts)
    ensures ContextsWithin(contexts, contexts) <==> EveryDimensionNamesAValue(contexts)
  {
    if contexts.Some? {
      forall i | 0 <= i < |contexts.value|
        ensures Claimed(contexts, contexts.value[i].0) == Some(contexts.value[i].1)
      {
        LookupAt(contexts.value, i);
      }
      if !EveryDimensionNamesAValue(contexts) {
        var entry :| entry in contexts.value && entry.1 == [];
        var i :| 0 <= i < |contexts.value| && contexts.value[i] == entry;
        assert !DimensionWithin(Claimed(contexts, contexts.value[i].0), contexts.value[i].1);
      }
    }
  }

  lemma ContextsWithinTransitive(a: Option<Contexts>, b: Option<Contexts>, c: Option<Contexts>)
    requires IsContextMap(b)
    requires ContextsWithin(a, b) && ContextsWithin(b, c)
    ensures ContextsWithin(a, c)
  {
    if c.Some? {
      forall i | 0 <= i < |c.value|
        ensures DimensionWithin(Claimed(a, c.value[i].0), c.value[i].1)
      {
        var dimension := c.value[i].0;
        assert DimensionWithin(Claimed(b, dimension), c.value[i].1);
        var permitted := Claimed(b, dimension).value;
        LookupIsMembership(b.value, dimension);
        assert (dimension, permitted) in b.value;
        var j :| 0 <= j < |b.value| && b.value[j] == (dimension, permitted);
        assert DimensionWithin(Claimed(a, b.value[j].0), b.value[j].1);
      }
    }
  }

  /** Terms contain themselves exactly when every context dimension they name has a value, which validation demands. */
  lemma TermsWithinReflexiveIff(parse: string -> Instant, t: Terms)
    requires IsContextMap(t.constraints.permittedContexts)
    ensures TermsWithin(parse, t, t) <==> EveryDimensionNamesAValue(t.constraints.permittedContexts)
  {
    ContextsWithinReflexiveIff(t.constraints.permittedContexts);
    if t.rightsScope.Some? { WithinIsPartialOrder(t.rightsScope.value, t.rightsScope.value, t.rightsScope.value); }
  }

  /** A ceiling on the license's term that is named and cannot be read. */
  predicate UnreadableTermEnd(parse: string -> Instant, t: Terms) {
    t.constraints.maximumLicenseTermEndsAt.Some? && parse(t.constraints.maximumLicenseTermEndsAt.value) == Unreadable
  }

  lemma TermsWithinTransitive(parse: string -> Instant, a: Terms, b: Terms, c: Terms)
    requires IsContextMap(b.constraints.permittedContexts)
    requires !UnreadableTermEnd(parse, b)
    requires TermsWithin(parse, a, b) && TermsWithin(parse, b, c)
    ensures TermsWithin(parse, a, c)
  {
    ContextsWithinTransitive(a.constraints.permittedContexts, b.constraints.permittedContexts, c.constraints.permittedContexts);
    if b.rightsScope.Some? && c.rightsScope.Some? {
      WithinIsPartialOrder(a.rightsScope.value, b.rightsScope.value, c.rightsScope.value);
    }
  }

  function WithTermEnd(t: Terms, end: string): Terms {
    t.(constraints := t.constraints.(maximumLicenseTermEndsAt := Some(end)))
  }

  /**
   Containment chains through the middle terms `b` whatever stands on either side
   exactly when the term ceiling of `b` can be read. An unreadable one lies inside
   every ceiling and contains every ceiling, so a later end passes through it.
   */
  lemma TransitiveThroughIff(parse: string -> Instant, b: Terms, early: string, late: string)
    requires IsContextMap(b.constraints.permittedContexts)
    requires EveryDimensionNamesAValue(b.constraints.permittedContexts)
    requires Less(parse(early), parse(late))
    ensures (forall a, c :: TermsWithin(parse, a, b) && TermsWithin(parse, b, c) ==> TermsWithin(parse, a, c))
      <==> !UnreadableTermEnd(parse, b)
  {
    if UnreadableTermEnd(parse, b) {
      var a, c := WithTermEnd(b, late), WithTermEnd(b, early);
      TermsWithinReflexiveIff(parse, b);
      assert TermsWithin(parse, a, b) && TermsWithin(parse, b, c) && !TermsWithin(parse, a, c);
    } else {
      forall a, c | TermsWithin(parse, a, b) && TermsWithin(parse, b, c)
        ensures TermsWithin(parse, a, c)
      {
        TermsWithinTransitive(parse, a, b, c);
      }
    }
  }

  lemma EqualContextsContain(a: Option<Contexts>, b: Option<Contexts>)
    requires IsContextMap(a) && IsContextMap(b) && ContextsEquals(a, b)
    requires EveryDimensionNamesAValue(a)
    ensures ContextsWithin(a, b)
    ensures ContextsEquals(b, a) && EveryDimensionNamesAValue(b)
  {
    if a.Some? {
      SameMembers(Keys(a.value), Keys(b.value));
      forall i | 0 <= i < |b.value|
        ensures DimensionWithin(Claimed(a, b.value[i].0), b.value[i].1)
        ensures b.value[i].1 != []
      {
        var key := b.value[i].0;
        assert Keys(b.value)[i] == key;
        LookupAt(b.value, i);
        LookupIsMembership(a.value, key);
        assert (key, Lookup(a.value, key).value) in a.value;
        SameMembers(Lookup(a.value, key).value, b.value[i].1);
        assert Lookup(a.value, key).value[0] in b.value[i].1;
      }
    }
  }

  /** Equal terms contain each other. */
  lemma EqualTermsContainEachOther(parse: string -> Instant, a: Terms, b: Terms)
    requires IsContextMap(a.constraints.permittedContexts) && IsContextMap(b.constraints.permittedContexts)
    requires EveryDimensionNamesAValue(a.constraints.permittedContexts)
    requires TermsEquals(a, b)
    ensures TermsWithin(parse, a, b) && TermsWithin(parse, b, a)
  {
    SameMembers(a.rights, b.rights);
    SameMembers(a.permittedUses, b.permittedUses);
    EqualContextsContain(a.constraints.permittedContexts, b.constraints.permittedContexts);
    EqualContextsContain(b.constraints.permittedContexts, a.constraints.permittedContexts);
    if a.rightsScope.Some? { WithinIsPartialOrder(a.rightsScope.value, b.rightsScope.value, a.rightsScope.value); }
    if a.constraints.prohibitedUses.Some? {
      SameMembers(a.constraints.prohibitedUses.value, b.constraints.prohibitedUses.value);
    }
  }
}
