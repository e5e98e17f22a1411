/**
 * Integers that pass through a double: the listener reads every JSON number with
 * yyjson_get_num and casts the result back to int64 (src/cloudwatch_server.cpp).
 */
module Doubles {
  const EXACT: nat := 0x20_0000_0000_0000 // 2^53

  /** The spacing of doubles from n to the next power of two. */
  function Quantum(n: nat): (q: nat)
    ensures q > 0 && (q == 1 || q % 2 == 0)
    ensures n < EXACT <==> q == 1
  {
    if n < EXACT then 1 else 2 * Quantum(n / 2)
  }

  /** n / q rounded to nearest, ties to even. */
  function RoundHalfEven(n: nat, q: nat): (r: nat)
    requires q > 0
    ensures n / q <= r <= n / q + 1
    ensures n % q == 0 ==> r == n / q
  {
    var d, m := n / q, n % q;
    if 2 * m < q || (2 * m == q && d % 2 == 0) then d else d + 1
  }

  function RoundNat(n: nat): nat {
    RoundHalfEven(n, Quantum(n)) * Quantum(n)
  }

  /** An integer read as the nearest double, as an integer. */
  function GetInt(n: int): int {
    if n >= 0 then RoundNat(n) else 0 - RoundNat(-n)
  }

  /** A JSON number as the parser hands it over: an integer, or the value of a double. */
  datatype Number = Whole(n: int) | Fraction(r: real)

  /** static_cast<int64_t>(yyjson_get_num(v)): an integer goes through a double, a fraction loses its digits behind the point. */
  function GetNumber(x: Number): int {
    match x
    case Whole(n) => GetInt(n)
    case Fraction(r) => if r >= 0.0 then r.Floor else 0 - (-r).Floor
  }

  /** The integer survives: a multiple of the spacing of doubles at its magnitude. */
  predicate Representable(n: int) {
    var m := if n >= 0 then n else -n;
    m % Quantum(m) == 0
  }

  lemma MulMonotone(a: nat, b: nat, q: nat)
    requires a <= b
    ensures a * q <= b * q
  {
  }

  lemma {:induction false} QuantumBounds(n: nat)
    ensures n < EXACT * Quantum(n)
    ensures Quantum(n) > 1 ==> EXACT / 2 * Quantum(n) <= n
  {
    if n < EXACT {
    } else {
      QuantumBounds(n / 2);
    }
  }

  lemma {:induction false} QuantumDoubles(a: nat, b: nat)
    requires a <= b
    ensures Quantum(a) == Quantum(b) || 2 * Quantum(a) <= Quantum(b)
  {
    if a < EXACT {
    } else {
      QuantumDoubles(a / 2, b / 2);
    }
  }

  lemma DivMonotone(a: nat, b: nat, q: nat)
    requires a <= b && q > 0
    ensures a / q < b / q || (a / q == b / q && a % q <= b % q)
  {
    if a / q >= b / q + 1 {
      MulMonotone(b / q + 1, a / q, q);
    }
  }

  lemma RoundHalfEvenMonotone(a: nat, b: nat, q: nat)
    requires a <= b && q > 0
    ensures RoundHalfEven(a, q) <= RoundHalfEven(b, q)
  {
    DivMonotone(a, b, q);
  }

  lemma QuotientBelow(n: nat, q: nat, k: nat)
    requires q > 0 && n < k * q
    ensures n / q < k
  {
    if k <= n / q {
      MulMonotone(k, n / q, q);
    }
  }

  lemma QuotientAbove(n: nat, q: nat, k: nat)
    requires q > 0 && k * q <= n
    ensures k <= n / q
  {
    if n / q + 1 <= k {
      MulMonotone(n / q + 1, k, q);
    }
  }

  /** Rounding does not leave the binade [EXACT / 2 * q, EXACT * q]. */
  lemma RoundNatBounds(n: nat)
    ensures RoundNat(n) <= EXACT * Quantum(n)
    ensures Quantum(n) > 1 ==> EXACT / 2 * Quantum(n) <= RoundNat(n)
  {
    hide Quantum;
    var q := Quantum(n);
    QuantumBounds(n);
    QuotientBelow(n, q, EXACT);
    MulMonotone(RoundHalfEven(n, q), EXACT, q);
    if q > 1 {
      QuotientAbove(n, q, EXACT / 2);
      MulMonotone(EXACT / 2, RoundHalfEven(n, q), q);
    }
  }

  lemma RoundNatMonotone(a: nat, b: nat)
    requires a <= b
    ensures RoundNat(a) <= RoundNat(b)
  {
    QuantumDoubles(a, b);
    var p, q := Quantum(a), Quantum(b);
    if p == q {
      RoundHalfEvenMonotone(a, b, q);
      MulMonotone(RoundHalfEven(a, q), RoundHalfEven(b, q), q);
    } else {
      RoundNatBounds(a);
      RoundNatBounds(b);
    }
  }

  /** Order survives the trip through a double, though distinct integers may meet. */
  lemma GetIntMonotone(a: int, b: int)
    requires a <= b
    ensures GetInt(a) <= GetInt(b)
  {
    if 0 <= a {
      RoundNatMonotone(a, b);
    } else if b < 0 {
      RoundNatMonotone(-b, -a);
    }
  }

  /** An integer comes back unchanged exactly when it is representable, as all are up to 2^53. */
  lemma GetIntExact(n: int)
    ensures GetInt(n) == n <==> Representable(n)
    ensures 0 - EXACT <= n <= EXACT ==> Representable(n)
  {
    var m := if n >= 0 then n else -n;
    var q := Quantum(m);
    assert m == m / q * q + m % q;
    if m % q != 0 {
      var r := RoundHalfEven(m, q);
      if r == m / q {
        assert RoundNat(m) < m;
      } else {
        assert r * q == m / q * q + q;
        assert RoundNat(m) > m;
      }
    }
    if m == EXACT {
      assert Quantum(EXACT / 2) == 1;
    }
  }
}
