/** Selecting from a list what a function finds in its elements. */
module Lists {
  import opened Options
  import opened Ordering

  function Listed<U>(u: Option<U>): seq<U> {
    if u.Some? then [u.value] else []
  }

  function Select<T, U>(f: T -> Option<U>, xs: seq<T>): seq<U> {
    if xs == [] then [] else Select(f, xs[..|xs| - 1]) + Listed(f(xs[|xs| - 1]))
  }

  lemma SelectSnoc<T, U>(f: T -> Option<U>, xs: seq<T>, x: T)
    ensures Select(f, xs + [x]) == Select(f, xs) + Listed(f(x))
  {
    assert (xs + [x])[..|xs + [x]| - 1] == xs;
  }

  lemma SelectNext<T, U>(before: seq<U>, f: T -> Option<U>, xs: seq<T>, i: nat)
    requires i < |xs|
    ensures before + Select(f, xs[..i + 1]) == before + Select(f, xs[..i]) + Listed(f(xs[i]))
  {
    assert xs[..i + 1] == xs[..i] + [xs[i]];
    SelectSnoc(f, xs[..i], xs[i]);
  }

  lemma {:induction false} SelectMembers<T(!new), U>(f: T -> Option<U>, xs: seq<T>, u: U)
    ensures u in Select(f, xs) <==> exists x :: x in xs && f(x) == Some(u)
  {
    if xs != [] {
      SelectMembers(f, xs[..|xs| - 1], u);
      assert xs == xs[..|xs| - 1] + [xs[|xs| - 1]];
    }
  }

  lemma {:induction false} SelectConcatenation<T, U>(f: T -> Option<U>, xs: seq<T>, ys: seq<T>)
    ensures Select(f, xs + ys) == Select(f, xs) + Select(f, ys)
  {
    if ys == [] {
      assert xs + ys == xs;
    } else {
      assert (xs + ys)[..|xs + ys| - 1] == xs + ys[..|ys| - 1];
      SelectConcatenation(f, xs, ys[..|ys| - 1]);
    }
  }

  lemma SplitAround<T>(ys: seq<T>, y: T) returns (before: seq<T>, after: seq<T>)
    requires y in multiset(ys)
    ensures ys == before + [y] + after
    ensures multiset(before + after) == multiset(ys) - multiset{y}
  {
    var i :| 0 <= i < |ys| && ys[i] == y;
    before, after := ys[..i], ys[i + 1..];
    assert ys == before + [y] + after;
  }

  lemma {:induction false} SelectPermute<T, U>(f: T -> Option<U>, xs: seq<T>, ys: seq<T>)
    requires multiset(xs) == multiset(ys)
    ensures multiset(Select(f, xs)) == multiset(Select(f, ys))
  {
    if xs == [] {
      assert |multiset(ys)| == |ys|;
    } else {
      var x, front := xs[|xs| - 1], xs[..|xs| - 1];
      assert xs == front + [x];
      assert x in multiset(ys);
      var before, after := SplitAround(ys, x);
      assert multiset(front) == multiset(xs) - multiset{x};
      SelectPermute(f, front, before + after);
      SelectAround(f, before, x, after);
      SelectSnoc(f, front, x);
      assert ys == before + [x] + after;
    }
  }

  lemma SelectAround<T, U>(f: T -> Option<U>, before: seq<T>, x: T, after: seq<T>)
    ensures multiset(Select(f, before + [x] + after))
      == multiset(Select(f, before + after)) + if f(x).Some? then multiset{f(x).value} else multiset{}
  {
    SelectConcatenation(f, before, after);
    SelectConcatenation(f, before + [x], after);
    SelectSnoc(f, before, x);
  }

  predicate FoundBy<T, U, V(==)>(f: T -> Option<U>, g: U -> Option<V>, x: T, v: V) {
    f(x).Some? && g(f(x).value) == Some(v)
  }

  /** What a selection finds does not depend on sorting what it looks through. */
  lemma SelectFromSorted<T(!new), U(!new), V>(f: T -> Option<U>, key: U -> string, g: U -> Option<V>, xs: seq<T>, v: V)
    ensures v in Select(g, SortBy(key, Select(f, xs))) <==> exists x :: x in xs && FoundBy(f, g, x, v)
  {
    var found := Select(f, xs);
    SortMembers(key, found);
    SelectMembers(g, SortBy(key, found), v);
    if u :| u in found && g(u) == Some(v) {
      SelectMembers(f, xs, u);
      var x :| x in xs && f(x) == Some(u);
      assert FoundBy(f, g, x, v);
    }
    if x :| x in xs && FoundBy(f, g, x, v) {
      SelectMembers(f, xs, f(x).value);
    }
  }

  /** How often each key occurs. */
  ghost function KeyCounts<T>(key: T -> string, xs: seq<T>): multiset<string> {
    if xs == [] then multiset{} else multiset{key(xs[0])} + KeyCounts(key, xs[1..])
  }

  lemma {:induction false} KeyCountsSnoc<T>(key: T -> string, xs: seq<T>, x: T)
    ensures KeyCounts(key, xs + [x]) == KeyCounts(key, xs) + multiset{key(x)}
  {
    if xs == [] {
      assert xs + [x] == [x];
    } else {
      assert (xs + [x])[1..] == xs[1..] + [x];
      KeyCountsSnoc(key, xs[1..], x);
    }
  }

  lemma {:induction false} KeyCountsInsert<T(!new)>(key: T -> string, x: T, xs: seq<T>)
    ensures KeyCounts(key, InsertBy(key, x, xs)) == KeyCounts(key, xs) + multiset{key(x)}
  {
    if xs == [] || AtMost(key(x), key(xs[0])) {
      assert ([x] + xs)[1..] == xs;
      assert xs == [] ==> [x] + xs == [x];
    } else {
      var rest := InsertBy(key, x, xs[1..]);
      KeyCountsInsert(key, x, xs[1..]);
      assert ([xs[0]] + rest)[1..] == rest;
    }
  }

  lemma {:induction false} SortKeepsKeyCounts<T(!new)>(key: T -> string, xs: seq<T>)
    ensures KeyCounts(key, SortBy(key, xs)) == KeyCounts(key, xs)
  {
    if xs != [] {
      SortKeepsKeyCounts(key, xs[1..]);
      KeyCountsInsert(key, xs[0], SortBy(key, xs[1..]));
    }
  }

  lemma {:induction false} KeyCountsUpdate<T>(key: T -> string, xs: seq<T>, i: nat, x: T)
    requires i < |xs| && key(x) == key(xs[i])
    ensures KeyCounts(key, xs[i := x]) == KeyCounts(key, xs)
  {
    if i > 0 {
      KeyCountsUpdate(key, xs[1..], i - 1, x);
      assert xs[i := x][1..] == xs[1..][i - 1 := x];
    } else {
      assert xs[i := x][1..] == xs[1..];
    }
  }

  lemma {:induction false} KeyIsCounted<T(!new)>(key: T -> string, xs: seq<T>, id: string)
    ensures KeyCounts(key, xs)[id] > 0 <==> exists x :: x in xs && key(x) == id
  {
    if xs != [] {
      KeyIsCounted(key, xs[1..], id);
      assert xs == [xs[0]] + xs[1..];
    }
  }

  /** The elements stand in ascending rank, between `lo` and `hi`. */
  ghost predicate Ranked<C(!new)>(rank: C -> int, codes: seq<C>, lo: int, hi: int) {
    && (forall i, j | 0 <= i < j < |codes| :: rank(codes[i]) <= rank(codes[j]))
    && (forall c | c in codes :: lo <= rank(c) <= hi)
  }

  lemma RankedJoin<C(!new)>(rank: C -> int, a: seq<C>, b: seq<C>, lo: int, middle: int, hi: int)
    requires Ranked(rank, a, lo, middle) && Ranked(rank, b, middle, hi) && lo <= middle <= hi
    ensures Ranked(rank, a + b, lo, hi)
  {
    var codes := a + b;
    forall i, j | 0 <= i < j < |codes| ensures rank(codes[i]) <= rank(codes[j]) {
      if i < |a| <= j { assert codes[i] in a && codes[j] in b; }
    }
  }

  /** The places whose element has the property. */
  function IndicesWhere<T>(p: T -> bool, xs: seq<T>): set<nat> {
    set i: nat | i < |xs| && p(xs[i])
  }

  lemma IndicesSnoc<T>(p: T -> bool, xs: seq<T>, x: T)
    ensures |IndicesWhere(p, xs + [x])| == |IndicesWhere(p, xs)| + if p(x) then 1 else 0
  {
    assert IndicesWhere(p, xs + [x]) == IndicesWhere(p, xs) + if p(x) then {|xs|} else {};
  }

  lemma IndicesFront<T>(p: T -> bool, xs: seq<T>)
    ensures xs == [] ==> IndicesWhere(p, xs) == {}
    ensures xs != [] ==>
      |IndicesWhere(p, xs)| == |IndicesWhere(p, xs[..|xs| - 1])| + if p(xs[|xs| - 1]) then 1 else 0
  {
    if xs != [] {
      IndicesSnoc(p, xs[..|xs| - 1], xs[|xs| - 1]);
      assert xs == xs[..|xs| - 1] + [xs[|xs| - 1]];
    }
  }

  // ---- Newest first ------------------------------------------------------------------

  ghost predicate Descending<T>(time: T -> int, xs: seq<T>) {
    forall i, j | 0 <= i < j < |xs| :: time(xs[i]) >= time(xs[j])
  }

  /** Before everything that is not newer. */
  function InsertNewest<T>(time: T -> int, x: T, xs: seq<T>): (r: seq<T>)
    ensures multiset(r) == multiset(xs) + multiset{x}
    ensures Descending(time, xs) ==> Descending(time, r)
  {
    if xs == [] || time(x) >= time(xs[0]) then [x] + xs
    else
      var rest := InsertNewest(time, x, xs[1..]);
      assert xs == [xs[0]] + xs[1..];
      assert Descending(time, xs) ==> Descending(time, [xs[0]] + rest) by { InsertKeepsNewest(time, x, xs, rest); }
      [xs[0]] + rest
  }

  lemma InsertKeepsNewest<T>(time: T -> int, x: T, xs: seq<T>, rest: seq<T>)
    requires xs != [] && time(x) < time(xs[0])
    requires multiset(rest) == multiset(xs[1..]) + multiset{x}
    requires Descending(time, xs[1..]) ==> Descending(time, rest)
    ensures Descending(time, xs) ==> Descending(time, [xs[0]] + rest)
  {
    if Descending(time, xs) {
      forall j | 0 <= j < |rest| ensures time(xs[0]) >= time(rest[j]) {
        assert rest[j] in multiset(rest);
        if rest[j] != x { assert rest[j] in multiset(xs[1..]); }
      }
    }
  }

  /** `xs.sort((a, b) => time(b) - time(a))`: stable, newest first. */
  function NewestFirst<T>(time: T -> int, xs: seq<T>): (r: seq<T>)
    ensures multiset(r) == multiset(xs)
    ensures Descending(time, r)
  {
    if xs == [] then []
    else
      assert xs == [xs[0]] + xs[1..];
      InsertNewest(time, xs[0], NewestFirst(time, xs[1..]))
  }

  /** What dates from the instant `t`, in order. */
  function DatedAt<T>(time: T -> int, t: int, xs: seq<T>): seq<T> {
    if xs == [] then [] else (if time(xs[0]) == t then [xs[0]] else []) + DatedAt(time, t, xs[1..])
  }

  lemma DatedAtFirst<T>(time: T -> int, t: int, x: T, xs: seq<T>)
    ensures DatedAt(time, t, [x] + xs) == (if time(x) == t then [x] else []) + DatedAt(time, t, xs)
  {
    assert ([x] + xs)[1..] == xs;
  }

  lemma DifferentDatesSwap<T>(time: T -> int, t: int, x: T, y: T, xs: seq<T>)
    requires time(x) != time(y)
    ensures DatedAt(time, t, [x] + ([y] + xs)) == DatedAt(time, t, [y] + ([x] + xs))
  {
    DatedAtFirst(time, t, x, xs);
    DatedAtFirst(time, t, y, xs);
    DatedAtFirst(time, t, x, [y] + xs);
    DatedAtFirst(time, t, y, [x] + xs);
  }

  lemma {:induction false} InsertKeepsTies<T>(time: T -> int, t: int, x: T, xs: seq<T>)
    ensures DatedAt(time, t, InsertNewest(time, x, xs)) == DatedAt(time, t, [x] + xs)
  {
    if xs != [] && time(x) < time(xs[0]) {
      var y, rest := xs[0], xs[1..];
      InsertKeepsTies(time, t, x, rest);
      DatedAtFirst(time, t, y, InsertNewest(time, x, rest));
      DatedAtFirst(time, t, y, [x] + rest);
      DifferentDatesSwap(time, t, x, y, rest);
      assert xs == [y] + rest;
    }
  }

  /** What dates from one instant stays in its order. */
  lemma {:induction false} NewestFirstIsStable<T>(time: T -> int, t: int, xs: seq<T>)
    ensures DatedAt(time, t, NewestFirst(time, xs)) == DatedAt(time, t, xs)
  {
    if xs != [] {
      NewestFirstIsStable(time, t, xs[1..]);
      InsertKeepsTies(time, t, xs[0], NewestFirst(time, xs[1..]));
      DatedAtFirst(time, t, xs[0], NewestFirst(time, xs[1..]));
    }
  }
}
