/** Lists of references: the duplicate finder, and the validator that uses it. */
module ReferenceLists {
  import opened Options
  import opened Ordering
  import opened Json
  import opened Lists

  /** Each repeated string once, where its second occurrence is met. */
  function Repeated(values: seq<string>): seq<string> {
    if values == [] then []
    else
      var front, last := values[..|values| - 1], values[|values| - 1];
      Repeated(front) + if last in front && last !in Repeated(front) then [last] else []
  }

  function DuplicateStrings(values: seq<string>): seq<string> {
    SortStrings(Repeated(values))
  }

  /** The loop over two sets: what was seen, and what was seen again. */
  method FindDuplicateStrings(values: seq<string>) returns (r: seq<string>)
    ensures r == DuplicateStrings(values)
  {
    var seen: set<string>, duplicates := {}, [];
    for i := 0 to |values|
      invariant forall s :: s in seen <==> s in values[..i]
      invariant duplicates == Repeated(values[..i])
    {
      assert values[..i + 1] == values[..i] + [values[i]];
      assert values[..i + 1][..i] == values[..i];
      if values[i] in seen && values[i] !in duplicates { duplicates := duplicates + [values[i]]; }
      seen := seen + {values[i]};
    }
    assert values[..|values|] == values;
    r := SortStrings(duplicates);
  }

  lemma {:induction false} RepeatedIsExact(values: seq<string>)
    ensures NoRepeats(Repeated(values))
    ensures forall s :: s in Repeated(values) <==> multiset(values)[s] >= 2
  {
    if values != [] {
      var front, last := values[..|values| - 1], values[|values| - 1];
      RepeatedIsExact(front);
      assert values == front + [last];
      forall s ensures s in Repeated(values) <==> multiset(values)[s] >= 2 {
        assert last in front <==> last in multiset(front);
      }
    }
  }

  /** The finder reports exactly the strings that occur more than once, each once, in ascending order. */
  lemma DuplicatesAreExact(values: seq<string>)
    ensures StrictlySortedBy(Self, DuplicateStrings(values))
    ensures forall s :: s in DuplicateStrings(values) <==> multiset(values)[s] >= 2
    ensures DuplicateStrings(values) == [] <==> NoRepeats(values)
  {
    RepeatedIsExact(values);
    forall i, j | 0 <= i < j < |Repeated(values)| ensures Self(Repeated(values)[i]) != Self(Repeated(values)[j]) { }
    SortStrictly(Self, Repeated(values));
    SortMembers(Self, Repeated(values));
    if NoRepeats(values) {
      forall s ensures multiset(values)[s] <= 1 {
        OnceInSequence(Self, values, s);
      }
      HasMember(DuplicateStrings(values));
    } else {
      var i, j :| 0 <= i < j < |values| && values[i] == values[j];
      TwiceInSequence(values, i, j);
      assert values[i] in DuplicateStrings(values);
    }
  }

  /** A string occurs more than once exactly when it stands at two places. */
  lemma {:induction false} RepeatedIffTwice(values: seq<string>, s: string)
    ensures multiset(values)[s] >= 2 <==> exists i, j :: 0 <= i < j < |values| && values[i] == s == values[j]
  {
    if i, j :| 0 <= i < j < |values| && values[i] == s == values[j] { TwiceInSequence(values, i, j); }
    if values != [] && multiset(values)[s] >= 2 {
      var front, last := values[..|values| - 1], values[|values| - 1];
      assert values == front + [last];
      RepeatedIffTwice(front, s);
      if multiset(front)[s] >= 2 {
        var i, j :| 0 <= i < j < |front| && front[i] == s == front[j];
        assert values[i] == s == values[j];
      } else {
        assert s in multiset(front);
        var i :| 0 <= i < |front| && front[i] == s;
        assert values[i] == s == values[|values| - 1];
      }
    }
  }

  // ---- Validation ------------------------------------------------------------------

  predicate WellFormedRefs(refs: seq<string>) {
    refs != [] && "" !in refs && NoRepeats(refs)
  }

  function Times<C>(n: nat, code: C): seq<C> {
    seq(n, _ => code)
  }

  function RefsIssues<C>(j: Json, invalid: C, duplicate: C): seq<C> {
    if !IsIdArray(j) || j.items == [] then [invalid] else Times(|DuplicateStrings(StringsOf(j.items))|, duplicate)
  }

  function OptionalRefsIssues<C>(v: Option<Json>, invalid: C, duplicate: C): seq<C> {
    if v.None? then [] else RefsIssues(v.value, invalid, duplicate)
  }

  method CollectRefsIssues<C>(j: Json, invalid: C, duplicate: C) returns (issues: seq<C>)
    ensures issues == RefsIssues(j, invalid, duplicate)
  {
    if !IsIdArray(j) || j.items == [] { return [invalid]; }
    var duplicates := FindDuplicateStrings(StringsOf(j.items));
    issues := [];
    for i := 0 to |duplicates|
      invariant issues == Times(i, duplicate)
    {
      issues := issues + [duplicate];
    }
  }

  method CollectOptionalRefsIssues<C>(v: Option<Json>, invalid: C, duplicate: C) returns (issues: seq<C>)
    ensures issues == OptionalRefsIssues(v, invalid, duplicate)
  {
    issues := [];
    if v.Some? { issues := CollectRefsIssues(v.value, invalid, duplicate); }
  }

  lemma RefsIssuesDecide<C>(j: Json, invalid: C, duplicate: C)
    ensures RefsIssues(j, invalid, duplicate) == [] <==> IsStringArray(j) && WellFormedRefs(StringsOf(j.items))
  {
    if IsStringArray(j) { DuplicatesAreExact(StringsOf(j.items)); }
  }

  lemma RefsPrintedAreAccepted<C>(refs: seq<string>, invalid: C, duplicate: C)
    ensures RefsIssues(FromStrings(refs), invalid, duplicate) == [] <==> WellFormedRefs(refs)
  {
    StringsRoundTrip(refs);
    RefsIssuesDecide(FromStrings(refs), invalid, duplicate);
  }

  /** Whether references are well-formed is a property of the collection, not of its arrangement. */
  lemma EqualRefsAlikeFormed(a: seq<string>, b: seq<string>)
    requires StringArrayEquals(a, b)
    ensures WellFormedRefs(a) <==> WellFormedRefs(b)
  {
    StringArrayEqualsIsMultisetEquality(a, b);
    SameMembers(a, b);
    assert a != [] <==> b != [] by {
      assert |a| == |multiset(a)| && |b| == |multiset(b)|;
    }
    if NoRepeats(a) { NoRepeatsPermutes(a, b); }
    if NoRepeats(b) { NoRepeatsPermutes(b, a); }
  }

  lemma NoRepeatsPermutes(a: seq<string>, b: seq<string>)
    requires multiset(a) == multiset(b) && NoRepeats(a)
    ensures NoRepeats(b)
  {
    DistinctKeysPermute(Self, a, b);
    forall i, j | 0 <= i < j < |b| ensures b[i] != b[j] {
      assert Self(b[i]) != Self(b[j]);
    }
  }

  predicate WellFormedOptionalRefs(refs: Option<seq<string>>) {
    refs.Some? ==> WellFormedRefs(refs.value)
  }

  lemma EqualOptionalRefsAlikeFormed(a: Option<seq<string>>, b: Option<seq<string>>)
    requires OptionalArrayEquals(a, b)
    ensures WellFormedOptionalRefs(a) <==> WellFormedOptionalRefs(b)
  {
    if a.Some? && b.Some? { EqualRefsAlikeFormed(a.value, b.value); }
  }

  lemma OptionalRefsReadBack<C>(v: Option<Json>, invalid: C, duplicate: C)
    requires OptionalRefsIssues(v, invalid, duplicate) == []
    ensures v.Some? ==> IsStringArray(v.value)
    ensures ListOf(ReadList(v)) == v && WellFormedOptionalRefs(ReadList(v))
  {
    if v.Some? {
      RefsIssuesDecide(v.value, invalid, duplicate);
      StringsPrintBack(v.value);
    }
  }

  lemma OptionalRefsAccepted<C>(refs: Option<seq<string>>, invalid: C, duplicate: C)
    requires WellFormedOptionalRefs(refs)
    ensures OptionalRefsIssues(ListOf(refs), invalid, duplicate) == []
    ensures (ListOf(refs).Some? ==> IsStringArray(ListOf(refs).value)) && ReadList(ListOf(refs)) == refs
  {
    if refs.Some? {
      RefsPrintedAreAccepted(refs.value, invalid, duplicate);
      StringsRoundTrip(refs.value);
    }
  }

  // ---- What each issue says ----------------------------------------------------------

  /** A non-empty list of non-empty strings. */
  predicate RefsGiven(v: Option<Json>) {
    v.Some? && IsIdArray(v.value) && v.value.items != []
  }

  predicate RefsMalformed(v: Option<Json>) {
    v.Some? && !RefsGiven(v)
  }

  predicate RefsGivenTwice(v: Option<Json>) {
    RefsGiven(v) && !NoRepeats(StringsOf(v.value.items))
  }

  predicate RefsGround<C(==)>(v: Option<Json>, invalid: C, duplicate: C, code: C) {
    (code == invalid && RefsMalformed(v)) || (code == duplicate && RefsGivenTwice(v))
  }

  lemma OptionalRefsCodes<C>(v: Option<Json>, invalid: C, duplicate: C, code: C)
    requires invalid != duplicate
    ensures code in OptionalRefsIssues(v, invalid, duplicate) <==> RefsGround(v, invalid, duplicate, code)
  {
    if RefsGiven(v) {
      var duplicates := DuplicateStrings(StringsOf(v.value.items));
      DuplicatesAreExact(StringsOf(v.value.items));
      if duplicates != [] { assert Times(|duplicates|, duplicate)[0] == duplicate; }
    }
  }

  lemma {:induction false} DistinctLength(xs: seq<string>)
    requires NoRepeats(xs)
    ensures |xs| == |set x | x in xs|
  {
    if xs != [] {
      var front, last := xs[..|xs| - 1], xs[|xs| - 1];
      DistinctLength(front);
      assert xs == front + [last];
      assert (set x | x in xs) == (set x | x in front) + {last};
    }
  }

  /** A well-formed list gets one issue for every string that occurs more than once, however often it does; another gets one. */
  lemma RefsIssuesCount<C>(j: Json, invalid: C, duplicate: C)
    ensures !RefsGiven(Some(j)) ==> RefsIssues(j, invalid, duplicate) == [invalid]
    ensures RefsGiven(Some(j)) ==>
      var values := StringsOf(j.items);
      && (forall code | code in RefsIssues(j, invalid, duplicate) :: code == duplicate)
      && |RefsIssues(j, invalid, duplicate)| == |set s | s in values && multiset(values)[s] >= 2|
  {
    if RefsGiven(Some(j)) {
      var values := StringsOf(j.items);
      var duplicates := DuplicateStrings(values);
      DuplicatesAreExact(values);
      forall i, k | 0 <= i < k < |duplicates| ensures duplicates[i] != duplicates[k] {
        assert Before(Self(duplicates[i]), Self(duplicates[k]));
        BeforeIrreflexive(duplicates[i]);
      }
      DistinctLength(duplicates);
      assert (set s | s in duplicates) == (set s | s in values && multiset(values)[s] >= 2);
    }
  }

  lemma RefsRanked<C(!new)>(rank: C -> int, v: Option<Json>, invalid: C, duplicate: C, lo: int, hi: int)
    requires lo <= rank(invalid) <= hi && lo <= rank(duplicate) <= hi
    ensures Ranked(rank, OptionalRefsIssues(v, invalid, duplicate), lo, hi)
  {
  }
}
