/** References to resources: identity, attributes, and their printed form. */
module ResourceRefs {
  import opened Options
  import opened Ordering
  import opened Records
  import opened Json

  type Attributes = seq<(string, string)>

  datatype ResourceRef = ResourceRef(kind: string, id: string, tenantId: Option<string>, attributes: Option<Attributes>)

  predicate IdentityEquals(a: ResourceRef, b: ResourceRef) {
    a.kind == b.kind && a.id == b.id && a.tenantId == b.tenantId
  }

  predicate AttributesEquals(a: Option<Attributes>, b: Option<Attributes>) {
    if a.None? || b.None? then a == b else RecordEquals(a.value, b.value)
  }

  ghost predicate AttributesAreAnObject(r: ResourceRef) {
    r.attributes.Some? ==> IsObject(r.attributes.value)
  }

  ghost predicate WellFormedResource(r: ResourceRef) {
    r.kind != "" && r.id != "" && AttributesAreAnObject(r)
  }

  function Canonical(r: ResourceRef): ResourceRef {
    r.(attributes := if r.attributes.Some? then Some(SortedCopy(r.attributes.value)) else None)
  }

  /** The attribute a copy by assignment loses, if there is one. */
  function Lost(r: ResourceRef): Option<string> {
    if r.attributes.Some? then Lookup(r.attributes.value, PROTO) else None
  }

  /** The loop that assigns to a fresh object key by key. */
  method SortedAttributes(attributes: Attributes) returns (sorted: Attributes)
    requires IsObject(attributes)
    ensures sorted == SortedCopy(attributes)
  {
    sorted := [];
    var keys := SortStrings(Keys(attributes));
    KeysOfSortedEntries(attributes);
    SortMembers(KeyOf<string>, attributes);
    for i := 0 to |keys|
      invariant sorted == Assigned(SortEntries(attributes)[..i])
    {
      var entry := SortEntries(attributes)[i];
      assert entry in attributes && keys[i] == entry.0;
      LookupIsMembership(attributes, keys[i]);
      assert (entry.0, entry.1) == entry;
      sorted := Assign(sorted, keys[i], Lookup(attributes, keys[i]).value);
      assert SortEntries(attributes)[..i + 1][..i] == SortEntries(attributes)[..i];
    }
    assert SortEntries(attributes)[..|keys|] == SortEntries(attributes);
  }

  lemma EqualIffCanonical(a: ResourceRef, b: ResourceRef)
    requires AttributesAreAnObject(a) && AttributesAreAnObject(b)
    ensures IdentityEquals(a, b) && AttributesEquals(a.attributes, b.attributes) <==>
      Canonical(a) == Canonical(b) && Lost(a) == Lost(b)
  {
    if a.attributes.Some? && b.attributes.Some? {
      RecordEqualsIffCopiedAlike(a.attributes.value, b.attributes.value);
    }
  }

  lemma CanonicalIsAnObject(r: ResourceRef)
    requires AttributesAreAnObject(r)
    ensures AttributesAreAnObject(Canonical(r)) && Lost(Canonical(r)).None?
    ensures Canonical(Canonical(r)) == Canonical(r)
    ensures IdentityEquals(r, Canonical(r))
    ensures AttributesEquals(r.attributes, Canonical(r).attributes) <==> Lost(r).None?
  {
    if r.attributes.Some? { EqualsItsCopyIff(r.attributes.value); }
  }

  // ---- Printed form -----------------------------------------------------------------

  datatype ResourceFields = ResourceFields(kind: Option<Json>, id: Option<Json>, tenantId: Option<Json>, attributes: Option<Json>)

  const RESOURCE_NAMES: seq<string> := ["kind", "id", "tenantId", "attributes"]

  function FieldsOf(j: Json): ResourceFields {
    ResourceFields(Get(j, RESOURCE_NAMES[0]), Get(j, RESOURCE_NAMES[1]), Get(j, RESOURCE_NAMES[2]), Get(j, RESOURCE_NAMES[3]))
  }

  function AttributesImage(attributes: Attributes): Json {
    Obj(seq(|attributes|, i requires 0 <= i < |attributes| => (attributes[i].0, Str(attributes[i].1))))
  }

  function OptionalAttributes(attributes: Option<Attributes>): Option<Json> {
    if attributes.Some? then Some(AttributesImage(attributes.value)) else None
  }

  function Image(r: ResourceRef): Json {
    Literal(RESOURCE_NAMES, [Some(Str(r.kind)), Some(Str(r.id)), TextOf(r.tenantId), OptionalAttributes(r.attributes)])
  }

  /** What the validators look at: kind and id, and nothing else. */
  predicate IdentityPresent(f: ResourceFields) {
    IsNonEmptyString(f.kind) && IsNonEmptyString(f.id)
  }

  predicate AreAttributes(j: Json) {
    j.Obj? && forall i | 0 <= i < |j.fields| :: j.fields[i].1.Str?
  }

  /** What they do not look at, and the reader relies on. */
  predicate RestTyped(f: ResourceFields) {
    && (f.tenantId.Some? ==> f.tenantId.value.Str?)
    && (f.attributes.Some? ==> AreAttributes(f.attributes.value))
  }

  function ReadAttributes(v: Option<Json>): Option<Attributes>
    requires v.Some? ==> AreAttributes(v.value)
  {
    if v.None? then None
    else Some(seq(|v.value.fields|, i requires 0 <= i < |v.value.fields| => (v.value.fields[i].0, v.value.fields[i].1.s)))
  }

  function Read(f: ResourceFields): ResourceRef
    requires IdentityPresent(f) && RestTyped(f)
  {
    ResourceRef(f.kind.value.s, f.id.value.s, ReadText(f.tenantId), ReadAttributes(f.attributes))
  }

  lemma ImageFields(r: ResourceRef)
    ensures FieldsOf(Image(r)) == ResourceFields(Some(Str(r.kind)), Some(Str(r.id)), TextOf(r.tenantId), OptionalAttributes(r.attributes))
  {
    var values := [Some(Str(r.kind)), Some(Str(r.id)), TextOf(r.tenantId), OptionalAttributes(r.attributes)];
    LiteralGet(RESOURCE_NAMES, values, 0);
    LiteralGet(RESOURCE_NAMES, values, 1);
    LiteralGet(RESOURCE_NAMES, values, 2);
    LiteralGet(RESOURCE_NAMES, values, 3);
  }

  lemma AttributesReadBack(attributes: Attributes)
    ensures AreAttributes(AttributesImage(attributes)) && ReadAttributes(Some(AttributesImage(attributes))) == Some(attributes)
  {
    assert ReadAttributes(Some(AttributesImage(attributes))).value == attributes;
  }

  lemma ImageIsInjective(a: ResourceRef, b: ResourceRef)
    requires Image(a) == Image(b)
    ensures a == b
  {
    ImageFields(a);
    ImageFields(b);
    if a.attributes.Some? && b.attributes.Some? {
      AttributesReadBack(a.attributes.value);
      AttributesReadBack(b.attributes.value);
    }
  }

  /** Every field of `r` stands in `f` under its name. */
  predicate Carried(f: ResourceFields, r: ResourceRef) {
    && f.kind == Some(Str(r.kind)) && f.id == Some(Str(r.id))
    && f.tenantId == TextOf(r.tenantId) && f.attributes == OptionalAttributes(r.attributes)
  }

  lemma CarriedReadsBack(f: ResourceFields, r: ResourceRef)
    requires Carried(f, r) && r.kind != "" && r.id != ""
    ensures IdentityPresent(f) && RestTyped(f) && Read(f) == r
  {
    if r.attributes.Some? { AttributesReadBack(r.attributes.value); }
  }

  lemma AttributesPrintBack(j: Json)
    requires AreAttributes(j) && Proper(j)
    ensures AttributesImage(ReadAttributes(Some(j)).value) == j
    ensures IsObject(ReadAttributes(Some(j)).value)
  {
    var attributes := ReadAttributes(Some(j)).value;
    assert AttributesImage(attributes).fields == j.fields;
    forall i, k | 0 <= i < k < |attributes| ensures KeyOf(attributes[i]) != KeyOf(attributes[k]) {
      assert KeyOf(j.fields[i]) != KeyOf(j.fields[k]);
    }
  }

  lemma PrintsBack(j: Json)
    requires Proper(j) && IdentityPresent(FieldsOf(j)) && RestTyped(FieldsOf(j))
    ensures Carried(FieldsOf(j), Read(FieldsOf(j))) && WellFormedResource(Read(FieldsOf(j)))
  {
    var attributes := FieldsOf(j).attributes;
    if attributes.Some? {
      ProperField(j, RESOURCE_NAMES[3]);
      AttributesPrintBack(attributes.value);
    }
  }
}
