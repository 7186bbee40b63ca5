/** Deterministic printing of access grants, and the theorems that tie printing, equality and validity together. */
module AccessGrantPrinting {
  import opened Options
  import opened Instants
  import opened Ordering
  import opened Records
  import opened Json
  import opened ReferenceLists
  import opened AccessGrant
  import R = ResourceRefs

  function Canonical(g: Grant): Grant {
    g.(resource := R.Canonical(g.resource), obligationRefs := SortedList(g.obligationRefs), auditRefs := SortedList(g.auditRefs))
  }

  function Values(g: Grant): (values: seq<Option<Json>>)
    ensures |values| == |NAMES|
  {
    [Some(Str(g.schemaVersion)), Some(Str(g.id)), Some(Str(StatusName(g.status))), Some(R.Image(g.resource)), Some(Str(g.decisionRef)),
     Some(Str(g.principalId)), Some(Str(g.issuedAt)), Some(Str(g.expiresAt)), Some(Str(g.correlationId)),
     TextOf(g.issuerRef), ListOf(g.obligationRefs), ListOf(g.auditRefs)]
  }

  /** The object literal, optional fields left out when absent. */
  function Image(g: Grant): Json {
    Literal(NAMES, Values(g))
  }

  function Serialize(g: Grant): Json {
    Image(Canonical(g))
  }

  lemma NamesDiffer()
    ensures NoRepeats(NAMES)
  {
  }

  lemma LiteralFields(values: seq<Option<Json>>)
    requires |values| == |NAMES|
    ensures FieldsOf(Literal(NAMES, values)) == Fields(
      values[0], values[1], values[2], values[3], values[4], values[5], values[6], values[7], values[8], values[9], values[10], values[11])
  {
    NamesDiffer();
    LiteralGetAll(NAMES, values);
  }

  lemma ImageCarries(g: Grant)
    ensures Carries(Image(g), g)
  {
    LiteralFields(Values(g));
    R.ImageFields(g.resource);
  }

  lemma ImageIsInjective(a: Grant, b: Grant)
    requires Image(a) == Image(b)
    ensures a == b
  {
    LiteralFields(Values(a));
    LiteralFields(Values(b));
    R.ImageIsInjective(a.resource, b.resource);
    ListOfIsInjective(a.obligationRefs, b.obligationRefs);
    ListOfIsInjective(a.auditRefs, b.auditRefs);
  }

  lemma EqualIffCanonical(a: Grant, b: Grant)
    requires R.AttributesAreAnObject(a.resource) && R.AttributesAreAnObject(b.resource)
    ensures GrantEquals(a, b) <==> Canonical(a) == Canonical(b) && R.Lost(a.resource) == R.Lost(b.resource)
  {
    R.EqualIffCanonical(a.resource, b.resource);
  }

  /** Two grants are equal exactly when they are printed identically and agree on the one attribute that is not printed. */
  lemma EqualIffPrintedAlike(a: Grant, b: Grant)
    requires R.AttributesAreAnObject(a.resource) && R.AttributesAreAnObject(b.resource)
    ensures GrantEquals(a, b) <==> Serialize(a) == Serialize(b) && R.Lost(a.resource) == R.Lost(b.resource)
  {
    EqualIffCanonical(a, b);
    if Serialize(a) == Serialize(b) { ImageIsInjective(Canonical(a), Canonical(b)); }
  }

  lemma EqualGrantsAreFormedAlike(parse: string -> Instant, a: Grant, b: Grant)
    requires R.AttributesAreAnObject(a.resource) && R.AttributesAreAnObject(b.resource)
    requires GrantEquals(a, b)
    ensures WellFormed(parse, a) <==> WellFormed(parse, b)
  {
    EqualOptionalRefsAlikeFormed(a.obligationRefs, b.obligationRefs);
    EqualOptionalRefsAlikeFormed(a.auditRefs, b.auditRefs);
  }

  lemma AcceptedIsWellFormed(parse: string -> Instant, f: Fields, g: Grant)
    requires Carried(f, g) && FieldIssues(parse, f) == [] && R.AttributesAreAnObject(g.resource)
    ensures WellFormed(parse, g)
  {
    ReferencesReadBack(parse, f);
    ListOfIsInjective(ReadList(f.obligationRefs), g.obligationRefs);
    ListOfIsInjective(ReadList(f.auditRefs), g.auditRefs);
  }

  /** A grant handed to the validator as it stands is accepted exactly when it is valid. */
  lemma ImageAcceptedIff(parse: string -> Instant, g: Grant)
    requires R.AttributesAreAnObject(g.resource)
    ensures Issues(parse, Image(g)) == [] <==> WellFormed(parse, g)
  {
    ImageCarries(g);
    if WellFormed(parse, g) { CarriedIsAccepted(parse, FieldsOf(Image(g)), g); }
    if Issues(parse, Image(g)) == [] { AcceptedIsWellFormed(parse, FieldsOf(Image(g)), g); }
  }

  lemma CanonicalIsEqualIff(g: Grant)
    requires R.AttributesAreAnObject(g.resource)
    ensures GrantEquals(g, Canonical(g)) <==> R.Lost(g.resource).None?
    ensures R.AttributesAreAnObject(Canonical(g).resource)
  {
    R.CanonicalIsAnObject(g.resource);
    SortedListEquals(g.obligationRefs);
    SortedListEquals(g.auditRefs);
  }

  lemma CanonicalIsFormedAlike(parse: string -> Instant, g: Grant)
    requires R.AttributesAreAnObject(g.resource)
    ensures WellFormed(parse, g) <==> WellFormed(parse, Canonical(g))
  {
    R.CanonicalIsAnObject(g.resource);
    SortedListEquals(g.obligationRefs);
    SortedListEquals(g.auditRefs);
    EqualOptionalRefsAlikeFormed(g.obligationRefs, SortedList(g.obligationRefs));
    EqualOptionalRefsAlikeFormed(g.auditRefs, SortedList(g.auditRefs));
  }

  /** Validity is invariant under equality: the validator accepts both of two equal grants, or neither, printed or as they stand. */
  lemma EqualGrantsAreValidAlike(parse: string -> Instant, a: Grant, b: Grant)
    requires R.AttributesAreAnObject(a.resource) && R.AttributesAreAnObject(b.resource)
    requires GrantEquals(a, b)
    ensures Issues(parse, Image(a)) == [] <==> Issues(parse, Image(b)) == []
    ensures Issues(parse, Image(a)) == [] <==> Issues(parse, Serialize(a)) == []
  {
    EqualGrantsAreFormedAlike(parse, a, b);
    ImageAcceptedIff(parse, a);
    ImageAcceptedIff(parse, b);
    CanonicalIsEqualIff(a);
    CanonicalIsFormedAlike(parse, a);
    ImageAcceptedIff(parse, Canonical(a));
  }

  /**
   Reading what was printed never fails for a valid grant, and returns a valid one. It is
   equal to the first exactly when no attribute bears the one name that is not assignable.
   */
  lemma RoundTrip(parse: string -> Instant, g: Grant)
    requires WellFormed(parse, g)
    ensures Issues(parse, Serialize(g)) == [] && ResourceRestTyped(FieldsOf(Serialize(g)))
    ensures WellFormed(parse, Deserialize(parse, Serialize(g)))
    ensures GrantEquals(g, Deserialize(parse, Serialize(g))) <==> R.Lost(g.resource).None?
  {
    CanonicalIsEqualIff(g);
    CanonicalIsFormedAlike(parse, g);
    ImageCarries(Canonical(g));
    CarriedIsAccepted(parse, FieldsOf(Serialize(g)), Canonical(g));
  }

  /** A grant and the same grant with one attribute more, which no printing shows. */
  lemma LostAttributePrintsAlike(parse: string -> Instant, g: Grant, value: string) returns (more: Grant)
    requires WellFormed(parse, g) && g.resource.attributes.Some? && R.Lost(g.resource).None?
    ensures WellFormed(parse, more) && Serialize(more) == Serialize(g) && !GrantEquals(more, g)
  {
    var attributes := g.resource.attributes.value;
    more := g.(resource := g.resource.(attributes := Some(attributes + [(PROTO, value)])));
    LostEntryCopiesAlike(attributes, value);
    EqualIffPrintedAlike(more, g);
  }

  // ---- What acceptance means, over any input ----------------------------------------

  lemma FieldsPrintBack(parse: string -> Instant, f: Fields)
    requires FieldIssues(parse, f) == [] && ResourceRestTyped(f) && (f.resource.Some? ==> Proper(f.resource.value))
    ensures Carried(f, ReadFields(parse, f)) && WellFormed(parse, ReadFields(parse, f))
  {
    ReferencesReadBack(parse, f);
    R.PrintsBack(f.resource.value);
  }

  /** The validator accepts, and the unchecked parts of the resource are well-typed, exactly when the candidate carries a valid grant. */
  lemma AcceptedAndTypedIff(parse: string -> Instant, c: Json)
    requires Proper(c) && c.Obj?
    ensures Issues(parse, c) == [] && ResourceRestTyped(FieldsOf(c)) <==> exists g :: Carries(c, g) && WellFormed(parse, g)
  {
    if Issues(parse, c) == [] && ResourceRestTyped(FieldsOf(c)) {
      if FieldsOf(c).resource.Some? { ProperField(c, NAMES[3]); }
      FieldsPrintBack(parse, FieldsOf(c));
      assert Carries(c, Deserialize(parse, c));
    }
    if g :| Carries(c, g) && WellFormed(parse, g) {
      CarriedIsAccepted(parse, FieldsOf(c), g);
    }
  }

  function TenantlessResource(r: R.ResourceRef): Json {
    Literal(R.RESOURCE_NAMES, [Some(Str(r.kind)), Some(Str(r.id)), Some(Null), None])
  }

  lemma TenantlessFields(r: R.ResourceRef)
    ensures R.FieldsOf(TenantlessResource(r)) == R.ResourceFields(Some(Str(r.kind)), Some(Str(r.id)), Some(Null), None)
  {
    var values := [Some(Str(r.kind)), Some(Str(r.id)), Some(Null), None];
    LiteralGet(R.RESOURCE_NAMES, values, 0);
    LiteralGet(R.RESOURCE_NAMES, values, 1);
    LiteralGet(R.RESOURCE_NAMES, values, 2);
    LiteralGet(R.RESOURCE_NAMES, values, 3);
  }

  lemma OtherResourceAccepted(parse: string -> Instant, f: Fields, g: Grant, resource: Json)
    requires Carried(f, g) && WellFormed(parse, g)
    requires resource.Obj? && R.IdentityPresent(R.FieldsOf(resource))
    ensures FieldIssues(parse, f.(resource := Some(resource))) == []
  {
    IdentityAccepted(parse, f, g);
    WindowAccepted(parse, f, g);
    ReferencesAccepted(parse, f, g);
  }

  /** The printed grant with another value in place of its resource. */
  function WithResource(g: Grant, resource: Json): Json {
    Literal(NAMES, Values(g)[3 := Some(resource)])
  }

  lemma WithResourceFields(g: Grant, resource: Json)
    ensures FieldsOf(WithResource(g, resource)) == FieldsOf(Image(g)).(resource := Some(resource))
  {
    LiteralFields(Values(g)[3 := Some(resource)]);
    LiteralFields(Values(g));
  }

  lemma TenantlessIsUntyped(r: R.ResourceRef, h: R.ResourceRef)
    requires r.kind != "" && r.id != ""
    ensures var f := R.FieldsOf(TenantlessResource(r)); R.IdentityPresent(f) && !R.RestTyped(f) && !R.Carried(f, h)
  {
    TenantlessFields(r);
  }

  lemma UntypedFieldsAreAccepted(parse: string -> Instant, f: Fields, g: Grant, h: Grant)
    requires Carried(f, g) && WellFormed(parse, g)
    ensures FieldIssues(parse, f.(resource := Some(TenantlessResource(g.resource)))) == []
    ensures !Carried(f.(resource := Some(TenantlessResource(g.resource))), h)
  {
    TenantlessIsUntyped(g.resource, h.resource);
    OtherResourceAccepted(parse, f, g, TenantlessResource(g.resource));
  }

  /** The second condition is needed: a tenant that is not a string passes the validator, and no grant is carried. */
  lemma UntypedTenantIsAccepted(parse: string -> Instant, g: Grant)
    requires WellFormed(parse, g)
    ensures var c := WithResource(g, TenantlessResource(g.resource));
      Issues(parse, c) == [] && forall h :: !Carries(c, h)
  {
    ImageCarries(g);
    WithResourceFields(g, TenantlessResource(g.resource));
    UntypedFieldsAreAccepted(parse, FieldsOf(Image(g)), g, g);
    forall h ensures !Carries(WithResource(g, TenantlessResource(g.resource)), h) {
      UntypedFieldsAreAccepted(parse, FieldsOf(Image(g)), g, h);
    }
  }
}
