/**
 Addition of integers as IEEE-754 doubles perform it: exact below 2^53, and from
 there on rounded to the nearest representable value, ties to the even one.
 */
module SafeIntegers {
  const TWO_TO_53: int := 9007199254740992
  const MAX_SAFE_INTEGER: int := TWO_TO_53 - 1

  predicate IsSafe(n: int) {
    -MAX_SAFE_INTEGER <= n <= MAX_SAFE_INTEGER
  }

  /** The multiple of `unit` nearest to `n`, the even multiple on a tie. */
  function Nearest(n: nat, unit: nat): int
    requires unit > 0
  {
    var q, r := n / unit, n % unit;
    if 2 * r < unit || (2 * r == unit && q % 2 == 0) then q * unit else (q + 1) * unit
  }

  /** Doubles at or above 2^53 * unit / 2 are the multiples of `unit`. */
  function RoundFrom(n: nat, unit: nat): int
    requires unit > 0
    decreases if n < unit then 0 else n - unit
  {
    if n < TWO_TO_53 * unit then Nearest(n, unit) else RoundFrom(n, 2 * unit)
  }

  function Round(n: int): int {
    if n >= 0 then RoundFrom(n, 1) else -RoundFrom(-n, 1)
  }

  /** `a + b` on numbers. */
  function Add(a: int, b: int): int {
    Round(a + b)
  }

  lemma NearestIsClose(n: nat, unit: nat) returns (q: nat)
    requires unit > 0
    ensures Nearest(n, unit) == q * unit && 2 * Distance(q * unit, n) <= unit
    ensures 2 * Distance(q * unit, n) == unit ==> q % 2 == 0
  {
    var below, r := n / unit, n % unit;
    assert n == below * unit + r && (below + 1) * unit == below * unit + unit;
    q := if 2 * r < unit || (2 * r == unit && below % 2 == 0) then below else below + 1;
  }

  lemma FarMultiples(q: int, k: int, unit: nat)
    ensures k < q ==> k * unit <= q * unit - unit
    ensures k < q - 1 ==> k * unit <= q * unit - 2 * unit
  {
    if k < q { MultiplyAtMost(k, q - 1, unit); }
    if k < q - 1 { MultiplyAtMost(k, q - 2, unit); }
  }

  /** The multiple of `unit` no farther from `n` than any other, and of two that are equally near the even one. */
  lemma NearestIsNearest(n: nat, unit: nat, k: int)
    requires unit > 0
    ensures Distance(Nearest(n, unit), n) <= Distance(k * unit, n)
    ensures Distance(Nearest(n, unit), n) == Distance(k * unit, n) && k * unit != Nearest(n, unit) ==> k % 2 == 1
  {
    var q := NearestIsClose(n, unit);
    FarMultiples(q, k, unit);
    FarMultiples(k, q, unit);
  }

  function Distance(a: int, b: int): nat {
    if a <= b then b - a else a - b
  }

  predicate PowerOfTwo(n: nat) {
    n == 1 || (n > 0 && n % 2 == 0 && PowerOfTwo(n / 2))
  }

  /** Below 2^53 every integer is a double; from there on the doubles between 2^52 and 2^53 units are the multiples of the unit. */
  lemma {:induction false} RoundFromUsesItsUnit(n: nat, from: nat) returns (unit: nat)
    requires PowerOfTwo(from) && (from == 1 || TWO_TO_53 / 2 * from <= n)
    ensures PowerOfTwo(unit) && RoundFrom(n, from) == Nearest(n, unit)
    ensures n < TWO_TO_53 * unit && (unit == 1 || TWO_TO_53 / 2 * unit <= n)
    decreases if n < from then 0 else n - from
  {
    if n < TWO_TO_53 * from {
      unit := from;
    } else {
      assert 2 * from / 2 == from;
      unit := RoundFromUsesItsUnit(n, 2 * from);
    }
  }

  /** A sum is rounded to the nearest double, of the sign of the sum. */
  lemma RoundIsNearest(n: int) returns (unit: nat)
    ensures PowerOfTwo(unit) && Distance(n, 0) < TWO_TO_53 * unit && (unit == 1 || TWO_TO_53 / 2 * unit <= Distance(n, 0))
    ensures Round(n) == (if n >= 0 then Nearest(n, unit) else -Nearest(-n, unit))
  {
    unit := RoundFromUsesItsUnit(Distance(n, 0), 1);
  }

  lemma SafeSumsAreExact(a: int, b: int)
    requires IsSafe(a + b)
    ensures Add(a, b) == a + b
  {
  }

  lemma NearestIsLarge(n: nat, unit: nat)
    requires unit >= 2 && n >= TWO_TO_53 / 2 * unit
    ensures Nearest(n, unit) >= TWO_TO_53
  {
    var q, half := n / unit, TWO_TO_53 / 2;
    assert q >= half by {
      if q < half {
        assert n == q * unit + n % unit;
        MultiplyAtMost(q + 1, half, unit);
      }
    }
    MultiplyAtMost(half, q, unit);
    MultiplyAtMost(q, q + 1, unit);
  }

  lemma MultiplyAtMost(a: int, b: int, unit: nat)
    requires a <= b
    ensures a * unit <= b * unit
  {
  }

  lemma {:induction false} RoundFromIsLarge(n: nat, unit: nat)
    requires unit >= 2 && n >= TWO_TO_53 / 2 * unit
    ensures RoundFrom(n, unit) >= TWO_TO_53
    decreases if n < unit then 0 else n - unit
  {
    if n < TWO_TO_53 * unit {
      NearestIsLarge(n, unit);
    } else {
      RoundFromIsLarge(n, 2 * unit);
    }
  }

  /** A rounded sum fits under a safe bound exactly when the true sum does: rounding never hides an excess. */
  lemma SafeBoundDecides(a: int, b: int, bound: int)
    requires a + b >= 0 && 0 <= bound <= MAX_SAFE_INTEGER
    ensures Add(a, b) <= bound <==> a + b <= bound
    ensures a + b <= bound ==> Add(a, b) == a + b
  {
    if a + b >= TWO_TO_53 {
      RoundFromIsLarge(a + b, 2);
    }
  }

  /** Rounding is real: two safe integers whose sum is not the number returned. */
  lemma SumsPast53BitsRound()
    ensures IsSafe(MAX_SAFE_INTEGER) && IsSafe(2)
    ensures Add(MAX_SAFE_INTEGER, 2) != MAX_SAFE_INTEGER + 2
  {
    assert RoundFrom(TWO_TO_53 + 1, 1) == RoundFrom(TWO_TO_53 + 1, 2) == Nearest(TWO_TO_53 + 1, 2);
  }
}
