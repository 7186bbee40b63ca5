/** Untyped input: what a parsed document, or any candidate value, can be. */
module Json {
  import opened Options
  import opened Ordering
  import opened Records
  import opened SafeIntegers
  import Decimal

  datatype Json =
    | Null
    | Bool(b: bool)
    | Number(r: real)
    | NotANumber
    | Infinite(negative: bool)
    | Str(s: string)
    | Arr(items: seq<Json>)
    | Obj(fields: seq<(string, Json)>)

  /** `candidate[key]`, absent when it is undefined. */
  function Get(j: Json, key: string): Option<Json> {
    if j.Obj? then Lookup(j.fields, key) else None
  }

  predicate IsObj(v: Option<Json>) {
    v.Some? && v.value.Obj?
  }

  predicate IsBool(v: Option<Json>) {
    v.Some? && v.value.Bool?
  }

  predicate IsNonEmptyString(v: Option<Json>) {
    v.Some? && v.value.Str? && v.value.s != ""
  }

  /** A safe integer greater than zero. */
  predicate IsPositiveInteger(v: Option<Json>) {
    v.Some? && v.value.Number? && v.value.r.Floor as real == v.value.r && 1 <= v.value.r.Floor <= MAX_SAFE_INTEGER
  }

  /** A string array, every entry of which is one of `words`. */
  predicate IsWordArray(j: Json, words: seq<string>) {
    IsStringArray(j) && forall s | s in StringsOf(j.items) :: s in words
  }

  /** A string array without an empty entry. */
  predicate IsIdArray(j: Json) {
    IsStringArray(j) && "" !in StringsOf(j.items)
  }

  /** No object inside repeats a key, as no parsed object does. */
  ghost predicate Proper(j: Json)
    decreases j
  {
    match j
    case Arr(items) => forall i | 0 <= i < |items| :: Proper(items[i])
    case Obj(fields) => IsObject(fields) && forall i | 0 <= i < |fields| :: Proper(fields[i].1)
    case _ => true
  }

  lemma ProperField(j: Json, key: string)
    requires Proper(j) && Get(j, key).Some?
    ensures Proper(Get(j, key).value)
  {
    LookupIsMembership(j.fields, key);
    assert (key, Get(j, key).value) in j.fields;
    var i :| 0 <= i < |j.fields| && j.fields[i] == (key, Get(j, key).value);
    assert Proper(j.fields[i].1);
  }

  predicate IsStringArray(j: Json) {
    j.Arr? && forall item | item in j.items :: item.Str?
  }

  function StringsOf(items: seq<Json>): seq<string>
    requires forall item | item in items :: item.Str?
  {
    seq(|items|, i requires 0 <= i < |items| => items[i].s)
  }

  function FromStrings(xs: seq<string>): Json {
    Arr(seq(|xs|, i requires 0 <= i < |xs| => Str(xs[i])))
  }

  function FromInt(n: int): Json {
    Number(n as real)
  }

  lemma StringsRoundTrip(xs: seq<string>)
    ensures IsStringArray(FromStrings(xs)) && StringsOf(FromStrings(xs).items) == xs
  {
  }

  lemma StringsPrintBack(j: Json)
    requires IsStringArray(j)
    ensures FromStrings(StringsOf(j.items)) == j
  {
    forall i | 0 <= i < |j.items| ensures Str(StringsOf(j.items)[i]) == j.items[i] {
      assert j.items[i] in j.items;
    }
    assert FromStrings(StringsOf(j.items)).items == j.items;
  }

  lemma FromStringsInjective(xs: seq<string>, ys: seq<string>)
    ensures FromStrings(xs) == FromStrings(ys) <==> xs == ys
  {
    StringsRoundTrip(xs);
    StringsRoundTrip(ys);
  }

  /** The fields of an object literal: an absent value leaves its field out. */
  function Present(names: seq<string>, values: seq<Option<Json>>): seq<(string, Json)>
    requires |names| == |values|
  {
    if names == [] then []
    else (if values[0].Some? then [(names[0], values[0].value)] else []) + Present(names[1..], values[1..])
  }

  function Literal(names: seq<string>, values: seq<Option<Json>>): Json
    requires |names| == |values|
  {
    Obj(Present(names, values))
  }

  lemma {:induction false} LookupMissing(names: seq<string>, values: seq<Option<Json>>, key: string)
    requires |names| == |values| && key !in names
    ensures Lookup(Present(names, values), key) == None
  {
    if names != [] {
      LookupMissing(names[1..], values[1..], key);
      if values[0].Some? {
        assert Present(names, values)[1..] == Present(names[1..], values[1..]);
      } else {
        assert Present(names, values) == Present(names[1..], values[1..]);
      }
    }
  }

  /** Reading a field back from a literal gives what was put there, absent or not. */
  lemma {:induction false} LiteralGet(names: seq<string>, values: seq<Option<Json>>, i: nat)
    requires |names| == |values| && NoRepeats(names) && i < |names|
    ensures Get(Literal(names, values), names[i]) == values[i]
  {
    if values[0].Some? {
      assert Present(names, values)[1..] == Present(names[1..], values[1..]);
    } else {
      assert Present(names, values) == Present(names[1..], values[1..]);
    }
    if i > 0 {
      LiteralGet(names[1..], values[1..], i - 1);
    } else if values[0].None? {
      assert names[0] !in names[1..];
      LookupMissing(names[1..], values[1..], names[0]);
    }
  }

  lemma LiteralGetAll(names: seq<string>, values: seq<Option<Json>>)
    requires |names| == |values| && NoRepeats(names)
    ensures forall i | 0 <= i < |names| :: Get(Literal(names, values), names[i]) == values[i]
  {
    forall i | 0 <= i < |names| ensures Get(Literal(names, values), names[i]) == values[i] {
      LiteralGet(names, values, i);
    }
  }

  /** One issue, when there is ground for it. */
  function When<C>(condition: bool, code: C): seq<C> {
    if condition then [code] else []
  }

  // ---- Optional fields -------------------------------------------------------

  function TextOf(s: Option<string>): Option<Json> {
    if s.Some? then Some(Str(s.value)) else None
  }

  function ListOf(xs: Option<seq<string>>): Option<Json> {
    if xs.Some? then Some(FromStrings(xs.value)) else None
  }

  function FlagOf(b: Option<bool>): Option<Json> {
    if b.Some? then Some(Bool(b.value)) else None
  }

  function ReadText(v: Option<Json>): Option<string>
    requires v.Some? ==> v.value.Str?
  {
    if v.Some? then Some(v.value.s) else None
  }

  function ReadFlag(v: Option<Json>): Option<bool>
    requires v.Some? ==> v.value.Bool?
  {
    if v.Some? then Some(v.value.b) else None
  }

  function ReadList(v: Option<Json>): Option<seq<string>>
    requires v.Some? ==> IsStringArray(v.value)
  {
    if v.Some? then Some(StringsOf(v.value.items)) else None
  }

  lemma ListOfIsInjective(a: Option<seq<string>>, b: Option<seq<string>>)
    requires ListOf(a) == ListOf(b)
    ensures a == b
  {
    if a.Some? && b.Some? { FromStringsInjective(a.value, b.value); }
  }

  // ---- Timestamps -----------------------------------------------------------

  /** `s` matches `pattern`, where 'd' stands for a digit and any other character for itself. */
  predicate Matches(s: string, pattern: string) {
    |s| == |pattern| && forall i | 0 <= i < |s| :: if pattern[i] == 'd' then Decimal.IsDigit(s[i]) else s[i] == pattern[i]
  }

  predicate IsZone(s: string) {
    s == "Z" || Matches(s, "+dd:dd") || Matches(s, "-dd:dd")
  }

  /** The ISO 8601 pattern every contract checks timestamps against. It constrains digits, not months or days. */
  predicate IsIsoTimestamp(s: string) {
    && |s| >= 20
    && Matches(s[..19], "dddd-dd-ddTdd:dd:dd")
    && (IsZone(s[19..])
        || (s[19] == '.' && exists k | 21 <= k < |s| :: Decimal.AllDigits(s[20..k]) && IsZone(s[k..])))
  }

  predicate IsTimestamp(v: Option<Json>) {
    v.Some? && v.value.Str? && IsIsoTimestamp(v.value.s)
  }
}
