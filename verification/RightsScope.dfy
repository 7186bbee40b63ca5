/** Governed quantities: a share in basis points or a count of named units, never coerced into one another. */
module RightsScope {
  import opened Options
  import opened SafeIntegers

  const FULL_BASIS_POINTS: int := 10000

  /** The governed right categories, a closed vocabulary. */
  const RIGHT_TYPES: seq<string> :=
    ["economic-interest", "revenue-right", "ownership-interest", "usage-right", "contractual-claim"]

  datatype Scope =
    | Proportional(basisPoints: int)
    | Unitized(units: int, unitDenomination: string)

  predicate ScopeEquals(a: Scope, b: Scope) {
    match a
    case Proportional(p) => b.Proportional? && p == b.basisPoints
    case Unitized(u, d) => b.Unitized? && u == b.units && d == b.unitDenomination
  }

  predicate ScopeWithin(inner: Scope, outer: Scope) {
    match inner
    case Proportional(p) => outer.Proportional? && p <= outer.basisPoints
    case Unitized(u, d) => outer.Unitized? && d == outer.unitDenomination && u <= outer.units
  }

  /** Absent when the two cannot be added; a caller refuses then, and never assumes zero. */
  function ScopeSum(a: Scope, b: Scope): Option<Scope> {
    if a.Proportional? && b.Proportional? then Some(Proportional(Add(a.basisPoints, b.basisPoints)))
    else if a.Unitized? && b.Unitized? && a.unitDenomination == b.unitDenomination then
      Some(Unitized(Add(a.units, b.units), a.unitDenomination))
    else None
  }

  /** The quantity of a scope, read apart from its kind. */
  function Amount(s: Scope): int {
    match s
    case Proportional(p) => p
    case Unitized(u, _) => u
  }

  predicate Commensurable(a: Scope, b: Scope) {
    match a
    case Proportional(_) => b.Proportional?
    case Unitized(_, d) => b.Unitized? && b.unitDenomination == d
  }

  function WithAmount(s: Scope, amount: int): Scope {
    match s
    case Proportional(_) => Proportional(amount)
    case Unitized(_, d) => Unitized(amount, d)
  }

  /** A scope the validators accept. */
  predicate WellFormedScope(s: Scope) {
    match s
    case Proportional(p) => 1 <= p <= FULL_BASIS_POINTS
    case Unitized(u, d) => 1 <= u <= MAX_SAFE_INTEGER && d != ""
  }

  /** Containment is a partial order whose equivalence is the repository's own equality. */
  lemma WithinIsPartialOrder(a: Scope, b: Scope, c: Scope)
    ensures ScopeWithin(a, a)
    ensures ScopeWithin(a, b) && ScopeWithin(b, c) ==> ScopeWithin(a, c)
    ensures ScopeWithin(a, b) && ScopeWithin(b, a) <==> ScopeEquals(a, b)
    ensures ScopeEquals(a, b) <==> a == b
    ensures ScopeWithin(a, b) <==> Commensurable(a, b) && Amount(a) <= Amount(b)
  {
  }

  /** The sum is commutative, and is refused exactly for incommensurable scopes. */
  lemma SumIsPartialAndCommutative(a: Scope, b: Scope)
    ensures ScopeSum(a, b) == ScopeSum(b, a)
    ensures ScopeSum(a, b).None? <==> !Commensurable(a, b)
    ensures Commensurable(a, b) ==> ScopeSum(a, b).value == WithAmount(a, Add(Amount(a), Amount(b)))
  {
  }

  /** Under a safe ceiling the test on the computed sum is the test on the true one, and what passes is exact. */
  lemma SumWithinDecidesExactly(a: Scope, b: Scope, ceiling: Scope)
    requires Amount(a) + Amount(b) >= 0 && 0 <= Amount(ceiling) <= MAX_SAFE_INTEGER
    requires Commensurable(a, ceiling) && Commensurable(b, ceiling)
    ensures ScopeSum(a, b).Some?
    ensures ScopeWithin(ScopeSum(a, b).value, ceiling) <==> Amount(a) + Amount(b) <= Amount(ceiling)
    ensures ScopeWithin(ScopeSum(a, b).value, ceiling) ==> ScopeSum(a, b).value == WithAmount(ceiling, Amount(a) + Amount(b))
  {
    SafeBoundDecides(Amount(a), Amount(b), Amount(ceiling));
  }

  /** Between safe quantities with a safe total, the sum is the true one. */
  lemma SafeSumIsExact(a: Scope, b: Scope)
    requires Commensurable(a, b) && IsSafe(Amount(a) + Amount(b))
    ensures ScopeSum(a, b) == Some(WithAmount(a, Amount(a) + Amount(b)))
  {
    SafeSumsAreExact(Amount(a), Amount(b));
  }

  /** Beyond that it need not be: two scopes the validators accept whose computed sum is not their total. */
  lemma SumOfWellFormedScopesCanRound() returns (a: Scope, b: Scope)
    ensures WellFormedScope(a) && WellFormedScope(b) && ScopeSum(a, b).Some?
    ensures Amount(ScopeSum(a, b).value) != Amount(a) + Amount(b)
  {
    a, b := Unitized(MAX_SAFE_INTEGER, "u"), Unitized(2, "u");
    SumsPast53BitsRound();
  }
}
