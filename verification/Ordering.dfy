/**
 The order of strings by code unit, and the stable sort by a string key that
 every serializer, equality and verdict of the repository goes through.
 */
module Ordering {
  import opened Options

  predicate Before(a: string, b: string) {
    if b == [] then false
    else if a == [] then true
    else if a[0] != b[0] then a[0] < b[0]
    else Before(a[1..], b[1..])
  }

  predicate AtMost(a: string, b: string) {
    a == b || Before(a, b)
  }

  /** The strings agree up to `k`, where the first ends before the second or has the smaller code unit. */
  predicate FirstDiffersAt(a: string, b: string, k: nat) {
    && k <= |a| && k < |b| && a[..k] == b[..k]
    && (k < |a| ==> a[k] < b[k])
  }

  lemma AgreeAtFirst(a: string, b: string, k: nat)
    requires FirstDiffersAt(a, b, k)
    ensures k > 0 ==> a[0] == b[0]
  {
    if k > 0 { assert a[..k][0] == b[..k][0]; }
  }

  /** One string comes before another exactly when it is a proper prefix of it, or has the smaller code unit where they first differ. */
  lemma {:induction false} BeforeIff(a: string, b: string)
    ensures Before(a, b) <==> exists k: nat :: FirstDiffersAt(a, b, k)
  {
    if b == [] {
    } else if a == [] {
      assert FirstDiffersAt(a, b, 0);
    } else if a[0] != b[0] {
      if a[0] < b[0] { assert FirstDiffersAt(a, b, 0); }
      forall k: nat | FirstDiffersAt(a, b, k) ensures k == 0 { AgreeAtFirst(a, b, k); }
    } else {
      BeforeIff(a[1..], b[1..]);
      if k: nat :| FirstDiffersAt(a[1..], b[1..], k) {
        assert a[..k + 1] == [a[0]] + a[1..][..k] && b[..k + 1] == [b[0]] + b[1..][..k];
        assert FirstDiffersAt(a, b, k + 1);
      }
      if k: nat :| FirstDiffersAt(a, b, k) {
        assert k > 0;
        assert a[1..][..k - 1] == a[..k][1..] && b[1..][..k - 1] == b[..k][1..];
        assert FirstDiffersAt(a[1..], b[1..], k - 1);
      }
    }
  }

  lemma BeforeIrreflexive(a: string)
    ensures !Before(a, a)
  {
  }

  lemma {:induction false} BeforeTotal(a: string, b: string)
    ensures Before(a, b) || a == b || Before(b, a)
  {
    if a != [] && b != [] && a[0] == b[0] {
      BeforeTotal(a[1..], b[1..]);
      assert a == [a[0]] + a[1..] && b == [b[0]] + b[1..];
    }
  }

  lemma {:induction false} BeforeTransitive(a: string, b: string, c: string)
    requires Before(a, b) && Before(b, c)
    ensures Before(a, c)
  {
    if a != [] && a[0] == b[0] == c[0] {
      BeforeTransitive(a[1..], b[1..], c[1..]);
    }
  }

  lemma AtMostTransitive(a: string, b: string, c: string)
    requires AtMost(a, b) && AtMost(b, c)
    ensures AtMost(a, c)
    ensures Before(a, b) || Before(b, c) ==> Before(a, c)
  {
    if Before(a, b) && Before(b, c) {
      BeforeTransitive(a, b, c);
    }
  }

  lemma AtMostAntisymmetric(a: string, b: string)
    requires AtMost(a, b) && AtMost(b, a)
    ensures a == b
  {
    if Before(a, b) && Before(b, a) {
      BeforeTransitive(a, b, a);
      BeforeIrreflexive(a);
    }
  }

  ghost predicate SortedBy<T(!new)>(key: T -> string, xs: seq<T>) {
    forall i, j | 0 <= i < j < |xs| :: AtMost(key(xs[i]), key(xs[j]))
  }

  ghost predicate StrictlySortedBy<T(!new)>(key: T -> string, xs: seq<T>) {
    forall i, j | 0 <= i < j < |xs| :: Before(key(xs[i]), key(xs[j]))
  }

  /** No two elements share a key unless they are the same element. */
  ghost predicate KeyDetermines<T(!new)>(key: T -> string, xs: seq<T>) {
    forall x, y | x in xs && y in xs && key(x) == key(y) :: x == y
  }

  ghost predicate DistinctKeys<T(!new)>(key: T -> string, xs: seq<T>) {
    forall i, j | 0 <= i < j < |xs| :: key(xs[i]) != key(xs[j])
  }

  function InsertBy<T(!new)>(key: T -> string, x: T, xs: seq<T>): (r: seq<T>)
    ensures multiset(r) == multiset(xs) + multiset{x}
    ensures |r| == |xs| + 1
    ensures SortedBy(key, xs) ==> SortedBy(key, r)
  {
    if xs == [] then [x]
    else if AtMost(key(x), key(xs[0])) then
      assert SortedBy(key, xs) ==> SortedBy(key, [x] + xs) by {
        forall j | 0 <= j < |xs| && SortedBy(key, xs)
          ensures AtMost(key(x), key(xs[j]))
        {
          AtMostTransitive(key(x), key(xs[0]), key(xs[j]));
        }
      }
      [x] + xs
    else
      var rest := InsertBy(key, x, xs[1..]);
      assert xs == [xs[0]] + xs[1..];
      assert SortedBy(key, xs) ==> SortedBy(key, [xs[0]] + rest) by {
        InsertKeepsHead(key, x, xs, rest);
      }
      [xs[0]] + rest
  }

  lemma InsertKeepsHead<T(!new)>(key: T -> string, x: T, xs: seq<T>, rest: seq<T>)
    requires xs != [] && !AtMost(key(x), key(xs[0]))
    requires multiset(rest) == multiset(xs[1..]) + multiset{x}
    requires SortedBy(key, xs[1..]) ==> SortedBy(key, rest)
    ensures SortedBy(key, xs) ==> SortedBy(key, [xs[0]] + rest)
  {
    if SortedBy(key, xs) {
      BeforeTotal(key(x), key(xs[0]));
      forall j | 0 <= j < |rest|
        ensures AtMost(key(xs[0]), key(rest[j]))
      {
        assert rest[j] in multiset(rest);
        if rest[j] != x {
          assert rest[j] in multiset(xs[1..]);
        }
      }
    }
  }

  /** `[...xs].sort(byKey)`: stable, ascending. */
  function SortBy<T(!new)>(key: T -> string, xs: seq<T>): (r: seq<T>)
    ensures multiset(r) == multiset(xs)
    ensures |r| == |xs|
    ensures SortedBy(key, r)
  {
    if xs == [] then []
    else
      assert xs == [xs[0]] + xs[1..];
      InsertBy(key, xs[0], SortBy(key, xs[1..]))
  }

  /** The elements with key `k`, in order. */
  function WithKey<T>(key: T -> string, k: string, xs: seq<T>): seq<T> {
    if xs == [] then [] else (if key(xs[0]) == k then [xs[0]] else []) + WithKey(key, k, xs[1..])
  }

  lemma WithKeyFirst<T>(key: T -> string, k: string, x: T, xs: seq<T>)
    ensures WithKey(key, k, [x] + xs) == (if key(x) == k then [x] else []) + WithKey(key, k, xs)
  {
    assert ([x] + xs)[1..] == xs;
  }

  lemma DifferentKeysSwap<T>(key: T -> string, k: string, x: T, y: T, xs: seq<T>)
    requires key(x) != key(y)
    ensures WithKey(key, k, [x] + ([y] + xs)) == WithKey(key, k, [y] + ([x] + xs))
  {
    WithKeyFirst(key, k, x, xs);
    WithKeyFirst(key, k, y, xs);
    WithKeyFirst(key, k, x, [y] + xs);
    WithKeyFirst(key, k, y, [x] + xs);
  }

  lemma {:induction false} InsertIsStable<T(!new)>(key: T -> string, k: string, x: T, xs: seq<T>)
    ensures WithKey(key, k, InsertBy(key, x, xs)) == WithKey(key, k, [x] + xs)
  {
    if xs != [] && !AtMost(key(x), key(xs[0])) {
      var y, rest := xs[0], xs[1..];
      InsertIsStable(key, k, x, rest);
      WithKeyFirst(key, k, y, InsertBy(key, x, rest));
      WithKeyFirst(key, k, y, [x] + rest);
      DifferentKeysSwap(key, k, x, y, rest);
      assert xs == [y] + rest;
    }
  }

  /** Elements that share a key stay in their order. */
  lemma {:induction false} SortIsStable<T(!new)>(key: T -> string, k: string, xs: seq<T>)
    ensures WithKey(key, k, SortBy(key, xs)) == WithKey(key, k, xs)
  {
    if xs != [] {
      SortIsStable(key, k, xs[1..]);
      InsertIsStable(key, k, xs[0], SortBy(key, xs[1..]));
      WithKeyFirst(key, k, xs[0], SortBy(key, xs[1..]));
    }
  }

  lemma MemberOfPermutation<T>(xs: seq<T>, ys: seq<T>, x: T)
    requires multiset(xs) == multiset(ys)
    ensures x in xs <==> x in ys
  {
    assert x in xs <==> x in multiset(xs);
    assert x in ys <==> x in multiset(ys);
  }

  lemma SortMembers<T(!new)>(key: T -> string, xs: seq<T>)
    ensures forall x :: x in SortBy(key, xs) <==> x in xs
  {
    forall x ensures x in SortBy(key, xs) <==> x in xs {
      MemberOfPermutation(SortBy(key, xs), xs, x);
    }
  }

  lemma SortedHeadIsLeast<T(!new)>(key: T -> string, xs: seq<T>, x: T)
    requires SortedBy(key, xs) && x in xs
    ensures AtMost(key(xs[0]), key(x))
  {
    var i :| 0 <= i < |xs| && xs[i] == x;
  }

  lemma TailOfPermutation<T>(xs: seq<T>, ys: seq<T>)
    requires xs != [] && ys != [] && xs[0] == ys[0]
    requires multiset(xs) == multiset(ys)
    ensures multiset(xs[1..]) == multiset(ys[1..])
  {
    assert xs == [xs[0]] + xs[1..] && ys == [ys[0]] + ys[1..];
    assert multiset(xs[1..]) == multiset(xs) - multiset{xs[0]};
    assert multiset(ys[1..]) == multiset(ys) - multiset{ys[0]};
  }

  /** A sorted arrangement of a collection is unique when equal keys mean equal elements. */
  lemma {:induction false} SortedUnique<T(!new)>(key: T -> string, xs: seq<T>, ys: seq<T>)
    requires SortedBy(key, xs) && SortedBy(key, ys)
    requires multiset(xs) == multiset(ys)
    requires KeyDetermines(key, xs)
    ensures xs == ys
  {
    assert |xs| == |multiset(xs)| && |ys| == |multiset(ys)|;
    if xs != [] {
      MemberOfPermutation(xs, ys, xs[0]);
      MemberOfPermutation(xs, ys, ys[0]);
      SortedHeadIsLeast(key, xs, ys[0]);
      SortedHeadIsLeast(key, ys, xs[0]);
      AtMostAntisymmetric(key(xs[0]), key(ys[0]));
      TailOfPermutation(xs, ys);
      SortedUnique(key, xs[1..], ys[1..]);
    }
  }

  lemma SortIgnoresOrder<T(!new)>(key: T -> string, xs: seq<T>, ys: seq<T>)
    requires multiset(xs) == multiset(ys)
    requires KeyDetermines(key, xs)
    ensures SortBy(key, xs) == SortBy(key, ys)
  {
    SortMembers(key, xs);
    SortedUnique(key, SortBy(key, xs), SortBy(key, ys));
  }

  lemma DistinctKeysDetermine<T(!new)>(key: T -> string, xs: seq<T>)
    requires DistinctKeys(key, xs)
    ensures KeyDetermines(key, xs)
  {
    forall x, y | x in xs && y in xs && key(x) == key(y)
      ensures x == y
    {
      var i :| 0 <= i < |xs| && xs[i] == x;
      var j :| 0 <= j < |xs| && xs[j] == y;
      assert DistinctKeys(key, xs) && key(xs[i]) == key(xs[j]);
    }
  }

  /** Distinct keys are a property of the collection, not of its arrangement. */
  lemma {:induction false} DistinctKeysPermute<T(!new)>(key: T -> string, xs: seq<T>, ys: seq<T>)
    requires multiset(xs) == multiset(ys)
    requires DistinctKeys(key, xs)
    ensures DistinctKeys(key, ys)
  {
    DistinctKeysDetermine(key, xs);
    forall i, j | 0 <= i < j < |ys|
      ensures key(ys[i]) != key(ys[j])
    {
      if key(ys[i]) == key(ys[j]) {
        MemberOfPermutation(xs, ys, ys[i]);
        MemberOfPermutation(xs, ys, ys[j]);
        assert ys[i] == ys[j];
        TwiceInSequence(ys, i, j);
        OnceInSequence(key, xs, ys[i]);
      }
    }
  }

  lemma TwiceInSequence<T>(ys: seq<T>, i: nat, j: nat)
    requires i < j < |ys| && ys[i] == ys[j]
    ensures multiset(ys)[ys[i]] >= 2
  {
    assert ys == ys[..j] + [ys[j]] + ys[j + 1..];
    assert ys[i] in ys[..j];
    assert multiset(ys[..j])[ys[i]] >= 1;
  }

  lemma {:induction false} OnceInSequence<T(!new)>(key: T -> string, xs: seq<T>, x: T)
    requires DistinctKeys(key, xs)
    ensures multiset(xs)[x] <= 1
  {
    if xs != [] {
      assert xs == [xs[0]] + xs[1..];
      OnceInSequence(key, xs[1..], x);
      assert xs[0] !in xs[1..];
    }
  }

  lemma SortStrictly<T(!new)>(key: T -> string, xs: seq<T>)
    requires DistinctKeys(key, xs)
    ensures StrictlySortedBy(key, SortBy(key, xs))
    ensures DistinctKeys(key, SortBy(key, xs))
  {
    DistinctKeysPermute(key, xs, SortBy(key, xs));
  }

  /** Two strictly sorted sequences with the same elements are the same sequence. */
  lemma {:induction false} StrictlySortedUnique<T(!new)>(key: T -> string, xs: seq<T>, ys: seq<T>)
    requires StrictlySortedBy(key, xs) && StrictlySortedBy(key, ys)
    requires forall x :: x in xs <==> x in ys
    ensures xs == ys
  {
    HasMember(xs);
    HasMember(ys);
    if xs != [] {
      assert xs[0] in ys && ys[0] in xs;
      SortedHeadIsLeast(key, xs, ys[0]);
      SortedHeadIsLeast(key, ys, xs[0]);
      AtMostAntisymmetric(key(xs[0]), key(ys[0]));
      SameKeySameElement(key, xs, xs[0], ys[0]);
      TailMembers(key, xs);
      TailMembers(key, ys);
      assert xs == [xs[0]] + xs[1..] && ys == [ys[0]] + ys[1..];
      StrictlySortedUnique(key, xs[1..], ys[1..]);
    }
  }

  lemma HasMember<T>(xs: seq<T>)
    ensures xs != [] ==> exists x :: x in xs
  {
    assert xs != [] ==> xs[0] in xs;
  }

  lemma SameKeySameElement<T(!new)>(key: T -> string, xs: seq<T>, x: T, y: T)
    requires StrictlySortedBy(key, xs)
    requires x in xs && y in xs && key(x) == key(y)
    ensures x == y
  {
    BeforeIrreflexive(key(x));
    var i :| 0 <= i < |xs| && xs[i] == x;
    var j :| 0 <= j < |xs| && xs[j] == y;
    assert i == j;
  }

  lemma TailMembers<T(!new)>(key: T -> string, xs: seq<T>)
    requires StrictlySortedBy(key, xs) && xs != []
    ensures forall x :: x in xs[1..] <==> x in xs && x != xs[0]
  {
    BeforeIrreflexive(key(xs[0]));
    forall x | x in xs && x != xs[0]
      ensures x in xs[1..]
    {
      var i :| 0 <= i < |xs| && xs[i] == x;
      assert xs[1..][i - 1] == x;
    }
  }

  // ---- Arrays of strings ------------------------------------------------

  function Self(s: string): string {
    s
  }

  /** `[...xs].sort()` */
  function SortStrings(xs: seq<string>): seq<string> {
    SortBy(Self, xs)
  }

  /** Element-wise comparison of the two sorted copies. */
  predicate StringArrayEquals(a: seq<string>, b: seq<string>) {
    SortStrings(a) == SortStrings(b)
  }

  predicate OptionalArrayEquals(a: Option<seq<string>>, b: Option<seq<string>>) {
    if a.None? || b.None? then a == b else StringArrayEquals(a.value, b.value)
  }

  function SortedList(xs: Option<seq<string>>): Option<seq<string>> {
    if xs.Some? then Some(SortStrings(xs.value)) else None
  }

  lemma EqualIffSortedAlike(a: Option<seq<string>>, b: Option<seq<string>>)
    ensures OptionalArrayEquals(a, b) <==> SortedList(a) == SortedList(b)
  {
  }

  lemma SortedListEquals(xs: Option<seq<string>>)
    ensures OptionalArrayEquals(xs, SortedList(xs))
  {
    if xs.Some? { StringArrayEqualsIsMultisetEquality(xs.value, SortStrings(xs.value)); }
  }

  lemma SameMembers(a: seq<string>, b: seq<string>)
    requires StringArrayEquals(a, b)
    ensures forall s :: s in a <==> s in b
  {
    SortMembers(Self, a);
    SortMembers(Self, b);
  }

  /** The comparison is exactly equality of multisets: order is ignored, repetition is not. */
  lemma StringArrayEqualsIsMultisetEquality(a: seq<string>, b: seq<string>)
    ensures StringArrayEquals(a, b) <==> multiset(a) == multiset(b)
  {
    if multiset(a) == multiset(b) {
      SortIgnoresOrder(Self, a, b);
    }
    assert multiset(SortStrings(a)) == multiset(a) && multiset(SortStrings(b)) == multiset(b);
  }

  predicate NoRepeats(xs: seq<string>) {
    forall i, j | 0 <= i < j < |xs| :: xs[i] != xs[j]
  }

  /** On arrays without repetition, and only because of that, it is equality of sets. */
  lemma StringArrayEqualsAsSets(a: seq<string>, b: seq<string>)
    requires NoRepeats(a) && NoRepeats(b)
    ensures StringArrayEquals(a, b) <==> (forall s :: s in a <==> s in b)
  {
    StringArrayEqualsIsMultisetEquality(a, b);
    if forall s :: s in a <==> s in b {
      forall s ensures multiset(a)[s] == multiset(b)[s] {
        OnceInSequence(Self, a, s);
        OnceInSequence(Self, b, s);
        assert s in multiset(a) <==> s in a;
        assert s in multiset(b) <==> s in b;
      }
      assert multiset(a) == multiset(b);
    } else {
      var s :| !(s in a <==> s in b);
      assert s in multiset(a) <==> s in a;
      assert s in multiset(b) <==> s in b;
    }
  }

  /** A repeated entry distinguishes two arrays that name the same things. */
  lemma RepetitionIsNotIgnored()
    ensures forall s :: s in ["a", "a"] <==> s in ["a"]
    ensures !StringArrayEquals(["a", "a"], ["a"])
  {
    StringArrayEqualsIsMultisetEquality(["a", "a"], ["a"]);
    assert multiset(["a", "a"])["a"] == 2;
    assert multiset(["a"])["a"] == 1;
  }
}
