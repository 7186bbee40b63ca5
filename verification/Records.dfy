/**
 Plain objects with string keys, as the ordered entries they are made of. An
 object never repeats a key; two objects are compared and printed key by key.
 */
module Records {
  import opened Options
  import opened Ordering

  function KeyOf<V>(entry: (string, V)): string {
    entry.0
  }

  /** `Object.keys(o)` */
  function Keys<V>(entries: seq<(string, V)>): seq<string> {
    seq(|entries|, i requires 0 <= i < |entries| => entries[i].0)
  }

  /** `o[key]` */
  function Lookup<V>(entries: seq<(string, V)>, key: string): Option<V> {
    if entries == [] then None
    else if entries[0].0 == key then Some(entries[0].1)
    else Lookup(entries[1..], key)
  }

  ghost predicate IsObject<V(!new)>(entries: seq<(string, V)>) {
    DistinctKeys(KeyOf, entries)
  }

  lemma {:induction false} LookupIsMembership<V(!new)>(entries: seq<(string, V)>, key: string)
    requires IsObject(entries)
    ensures Lookup(entries, key).None? <==> key !in Keys(entries)
    ensures forall v :: Lookup(entries, key) == Some(v) <==> (key, v) in entries
  {
    if entries != [] {
      assert IsObject(entries[1..]) by {
        forall i, j | 0 <= i < j < |entries[1..]| ensures KeyOf(entries[1..][i]) != KeyOf(entries[1..][j]) {
          assert KeyOf(entries[i + 1]) != KeyOf(entries[j + 1]);
        }
      }
      LookupIsMembership(entries[1..], key);
      assert entries == [entries[0]] + entries[1..];
      assert Keys(entries) == [entries[0].0] + Keys(entries[1..]);
      forall j | 0 <= j < |entries[1..]| ensures entries[1..][j].0 != entries[0].0 {
        assert KeyOf(entries[0]) != KeyOf(entries[j + 1]);
      }
    }
  }

  lemma LookupAt<V(!new)>(entries: seq<(string, V)>, i: nat)
    requires IsObject(entries) && i < |entries|
    ensures Lookup(entries, entries[i].0) == Some(entries[i].1)
  {
    LookupIsMembership(entries, entries[i].0);
    assert (entries[i].0, entries[i].1) == entries[i];
    assert entries[i] in entries;
  }

  /** The entries in key order, as every serializer emits them. */
  function SortEntries<V(!new)>(entries: seq<(string, V)>): seq<(string, V)> {
    SortBy(KeyOf, entries)
  }

  /** Same sorted keys, and the same value under each. */
  predicate RecordEquals<V(==, !new)>(a: seq<(string, V)>, b: seq<(string, V)>) {
    && SortStrings(Keys(a)) == SortStrings(Keys(b))
    && forall key | key in Keys(a) :: Lookup(a, key) == Lookup(b, key)
  }

  lemma SameEntries<V(!new)>(a: seq<(string, V)>, b: seq<(string, V)>)
    requires IsObject(a) && IsObject(b) && RecordEquals(a, b)
    ensures forall e :: e in a <==> e in b
  {
    SortMembers(Self, Keys(a));
    SortMembers(Self, Keys(b));
    forall e ensures e in a <==> e in b {
      LookupIsMembership(a, e.0);
      LookupIsMembership(b, e.0);
      assert (e.0, e.1) == e;
    }
  }

  /** Two objects are equal exactly when they are printed alike. */
  lemma RecordEqualsIffPrintedAlike<V(!new)>(a: seq<(string, V)>, b: seq<(string, V)>)
    requires IsObject(a) && IsObject(b)
    ensures RecordEquals(a, b) <==> SortEntries(a) == SortEntries(b)
  {
    SortMembers(KeyOf<V>, a);
    SortMembers(KeyOf<V>, b);
    if RecordEquals(a, b) {
      SameEntries(a, b);
      SortStrictly(KeyOf<V>, a);
      SortStrictly(KeyOf<V>, b);
      StrictlySortedUnique(KeyOf<V>, SortEntries(a), SortEntries(b));
    }
    if SortEntries(a) == SortEntries(b) {
      KeysDoNotRepeat(a);
      KeysDoNotRepeat(b);
      forall key ensures key in Keys(a) <==> key in Keys(b) {
        KeyOfAnEntry(a, key);
        KeyOfAnEntry(b, key);
      }
      StringArrayEqualsAsSets(Keys(a), Keys(b));
      forall key | key in Keys(a)
        ensures Lookup(a, key) == Lookup(b, key)
      {
        LookupIsMembership(a, key);
        LookupIsMembership(b, key);
        var v := Lookup(a, key).value;
        assert (key, v) in a;
        assert (key, v) in b;
      }
    }
  }

  lemma KeysDoNotRepeat<V(!new)>(entries: seq<(string, V)>)
    ensures IsObject(entries) <==> NoRepeats(Keys(entries))
  {
    if NoRepeats(Keys(entries)) {
      forall i, j | 0 <= i < j < |entries| ensures KeyOf(entries[i]) != KeyOf(entries[j]) {
        assert Keys(entries)[i] != Keys(entries)[j];
      }
    } else {
      var i, j :| 0 <= i < j < |entries| && Keys(entries)[i] == Keys(entries)[j];
      assert KeyOf(entries[i]) == KeyOf(entries[j]);
    }
  }

  lemma KeyOfAnEntry<V(!new)>(entries: seq<(string, V)>, key: string)
    ensures key in Keys(entries) <==> exists e :: e in entries && e.0 == key
  {
    if key in Keys(entries) {
      var i :| 0 <= i < |entries| && Keys(entries)[i] == key;
      assert entries[i] in entries;
    }
    if e :| e in entries && e.0 == key {
      var i :| 0 <= i < |entries| && entries[i] == e;
      assert Keys(entries)[i] == key;
    }
  }

  /** Sorting the keys of an object, or its entries, puts them in the same order. */
  lemma KeysOfSortedEntries<V(!new)>(entries: seq<(string, V)>)
    requires IsObject(entries)
    ensures SortStrings(Keys(entries)) == Keys(SortEntries(entries))
  {
    var sorted := SortEntries(entries);
    KeysDoNotRepeat(entries);
    SortStrictly(Self, Keys(entries));
    SortStrictly(KeyOf<V>, entries);
    forall i, j | 0 <= i < j < |sorted| ensures Before(Keys(sorted)[i], Keys(sorted)[j]) {
      assert Before(KeyOf(sorted[i]), KeyOf(sorted[j]));
    }
    SortMembers(Self, Keys(entries));
    SortMembers(KeyOf<V>, entries);
    forall key ensures key in Keys(sorted) <==> key in SortStrings(Keys(entries)) {
      KeyOfAnEntry(entries, key);
      KeyOfAnEntry(sorted, key);
    }
    StrictlySortedUnique(Self, SortStrings(Keys(entries)), Keys(sorted));
  }

  // ---- Copying by assignment ------------------------------------------------------------

  /** Assigning to this name reaches the accessor every object inherits, and makes no entry. */
  const PROTO := "__proto__"

  /** `o[key] = value` on an object that has no such entry yet, for a value that is no object. */
  function Assign<V>(entries: seq<(string, V)>, key: string, value: V): seq<(string, V)> {
    if key == PROTO then entries else entries + [(key, value)]
  }

  /** The entries an object copied by assignment, one after the other, ends up with. */
  function Assigned<V>(entries: seq<(string, V)>): seq<(string, V)> {
    if entries == [] then []
    else
      var last := entries[|entries| - 1];
      Assign(Assigned(entries[..|entries| - 1]), last.0, last.1)
  }

  /** The copy every serializer makes: key by key, in key order. */
  function SortedCopy<V(!new)>(entries: seq<(string, V)>): seq<(string, V)> {
    Assigned(SortEntries(entries))
  }

  lemma {:induction false} AssignedMembers<V>(entries: seq<(string, V)>, e: (string, V))
    ensures e in Assigned(entries) <==> e in entries && e.0 != PROTO
  {
    if entries != [] {
      var front, last := entries[..|entries| - 1], entries[|entries| - 1];
      AssignedMembers(front, e);
      assert entries == front + [last];
      assert (last.0, last.1) == last;
    }
  }

  lemma {:induction false} AssignedKeepsOrder<V(!new)>(entries: seq<(string, V)>)
    requires StrictlySortedBy(KeyOf, entries)
    ensures StrictlySortedBy(KeyOf, Assigned(entries))
  {
    if entries != [] {
      var front, last := entries[..|entries| - 1], entries[|entries| - 1];
      AssignedKeepsOrder(front);
      forall e | e in Assigned(front) ensures Before(KeyOf(e), last.0) {
        AssignedMembers(front, e);
        var i :| 0 <= i < |front| && front[i] == e;
        assert Before(KeyOf(entries[i]), KeyOf(last));
      }
    }
  }

  lemma SortedCopyMembers<V(!new)>(entries: seq<(string, V)>)
    requires IsObject(entries)
    ensures StrictlySortedBy(KeyOf, SortedCopy(entries)) && IsObject(SortedCopy(entries))
    ensures forall e :: e in SortedCopy(entries) <==> e in entries && e.0 != PROTO
  {
    SortStrictly(KeyOf<V>, entries);
    SortMembers(KeyOf<V>, entries);
    AssignedKeepsOrder(SortEntries(entries));
    forall e ensures e in SortedCopy(entries) <==> e in entries && e.0 != PROTO { AssignedMembers(SortEntries(entries), e); }
    StrictlySortedIsAnObject(SortedCopy(entries));
  }

  lemma StrictlySortedIsAnObject<V(!new)>(entries: seq<(string, V)>)
    requires StrictlySortedBy(KeyOf, entries)
    ensures IsObject(entries)
  {
    forall i, j | 0 <= i < j < |entries| ensures KeyOf(entries[i]) != KeyOf(entries[j]) {
      assert Before(KeyOf(entries[i]), KeyOf(entries[j]));
      BeforeIrreflexive(KeyOf(entries[i]));
    }
  }

  lemma RecordEqualsIffSameEntries<V(!new)>(a: seq<(string, V)>, b: seq<(string, V)>)
    requires IsObject(a) && IsObject(b)
    ensures RecordEquals(a, b) <==> forall e :: e in a <==> e in b
  {
    RecordEqualsIffPrintedAlike(a, b);
    if RecordEquals(a, b) { SameEntries(a, b); }
    if forall e :: e in a <==> e in b {
      SortMembers(KeyOf<V>, a);
      SortMembers(KeyOf<V>, b);
      SortStrictly(KeyOf<V>, a);
      SortStrictly(KeyOf<V>, b);
      StrictlySortedUnique(KeyOf<V>, SortEntries(a), SortEntries(b));
    }
  }

  /** Two objects are equal exactly when their copies are and so is the one entry no copy has. */
  lemma RecordEqualsIffCopiedAlike<V(!new)>(a: seq<(string, V)>, b: seq<(string, V)>)
    requires IsObject(a) && IsObject(b)
    ensures RecordEquals(a, b) <==> SortedCopy(a) == SortedCopy(b) && Lookup(a, PROTO) == Lookup(b, PROTO)
  {
    RecordEqualsIffSameEntries(a, b);
    SortedCopyMembers(a);
    SortedCopyMembers(b);
    LookupIsMembership(a, PROTO);
    LookupIsMembership(b, PROTO);
    if RecordEquals(a, b) {
      StrictlySortedUnique(KeyOf<V>, SortedCopy(a), SortedCopy(b));
      if Lookup(a, PROTO).Some? { assert (PROTO, Lookup(a, PROTO).value) in b; }
      if Lookup(b, PROTO).Some? { assert (PROTO, Lookup(b, PROTO).value) in a; }
    }
    if SortedCopy(a) == SortedCopy(b) && Lookup(a, PROTO) == Lookup(b, PROTO) {
      forall e ensures e in a <==> e in b {
        assert (e.0, e.1) == e;
        assert e in SortedCopy(a) <==> e in SortedCopy(b);
      }
    }
  }

  /** An object equals its copy exactly when it lacks that entry. */
  lemma EqualsItsCopyIff<V(!new)>(entries: seq<(string, V)>)
    requires IsObject(entries)
    ensures IsObject(SortedCopy(entries)) && Lookup(SortedCopy(entries), PROTO) == None
    ensures SortedCopy(SortedCopy(entries)) == SortedCopy(entries)
    ensures RecordEquals(entries, SortedCopy(entries)) <==> Lookup(entries, PROTO) == None
  {
    var copy := SortedCopy(entries);
    SortedCopyMembers(entries);
    SortedCopyMembers(copy);
    LookupIsMembership(copy, PROTO);
    KeyOfAnEntry(copy, PROTO);
    StrictlySortedUnique(KeyOf<V>, SortedCopy(copy), copy);
    RecordEqualsIffCopiedAlike(entries, copy);
  }

  /** One more entry under that name makes another object with the same copy. */
  lemma LostEntryCopiesAlike<V(!new)>(entries: seq<(string, V)>, value: V)
    requires IsObject(entries) && Lookup(entries, PROTO) == None
    ensures var more := entries + [(PROTO, value)];
      IsObject(more) && SortedCopy(more) == SortedCopy(entries) && Lookup(more, PROTO) == Some(value)
  {
    var more := entries + [(PROTO, value)];
    LookupIsMembership(entries, PROTO);
    forall i, j | 0 <= i < j < |more| ensures KeyOf(more[i]) != KeyOf(more[j]) {
      if j < |entries| { assert KeyOf(entries[i]) != KeyOf(entries[j]); } else { assert Keys(entries)[i] == entries[i].0; }
    }
    SortedCopyMembers(entries);
    SortedCopyMembers(more);
    StrictlySortedUnique(KeyOf<V>, SortedCopy(more), SortedCopy(entries));
    LookupAt(more, |entries|);
  }
}
