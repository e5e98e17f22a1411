/**
 * The order of event ids as VARCHAR values. The listener sorts by the zero-padded text
 * (src/cloudwatch_server.cpp), which has to agree with the order the ids were handed out in.
 */
module EventIds {
  import opened Strings
  import opened Listener

  lemma {:induction false} LexAppend(a: Bytes, x: Byte, b: Bytes, y: Byte)
    requires |a| == |b|
    ensures LexLess(a + [x], b + [y]) <==> LexLess(a, b) || (a == b && x < y)
    ensures LexLess(a, b + [y]) <==> LexLess(a, b) || a == b
  {
    if a == [] {
    } else {
      LexAppend(a[1..], x, b[1..], y);
      assert (a + [x])[1..] == a[1..] + [x] && (b + [y])[1..] == b[1..] + [y];
      assert a == [a[0]] + a[1..] && b == [b[0]] + b[1..];
    }
  }

  /** Numerals of equal length compare as texts the way they compare as numbers. */
  lemma {:induction false} NumeralOrder(a: Bytes, b: Bytes)
    requires |a| == |b| && AllDigits(a) && AllDigits(b)
    ensures LexLess(a, b) <==> DecimalValue(a) < DecimalValue(b)
    ensures a == b <==> DecimalValue(a) == DecimalValue(b)
  {
    if a == [] {
    } else {
      var n := |a| - 1;
      NumeralOrder(a[..n], b[..n]);
      LexAppend(a[..n], a[n], b[..n], b[n]);
      assert a == a[..n] + [a[n]] && b == b[..n] + [b[n]];
    }
  }

  const TEN19: nat := 10000000000000000000

  function Pow10(k: nat): (p: nat)
    ensures p > 0
  {
    if k == 0 then 1 else 10 * Pow10(k - 1)
  }

  lemma {:induction false} NumeralLength(n: nat, k: nat)
    requires k > 0
    ensures n < Pow10(k) <==> |ToString(n)| <= k
  {
    if n < 10 || k <= 1 {
    } else {
      NumeralLength(n / 10, k - 1);
    }
  }

  lemma Pow10Thousand(k: nat)
    ensures Pow10(k + 3) == 1000 * Pow10(k)
  {
    assert Pow10(k + 3) == 10 * Pow10(k + 2) && Pow10(k + 2) == 10 * Pow10(k + 1);
  }

  lemma Pow10Nineteen()
    ensures Pow10(18) == TEN19 / 10 && Pow10(19) == TEN19 && Pow10(20) == 10 * TEN19
  {
    Pow10Thousand(0);
    Pow10Thousand(3);
    Pow10Thousand(6);
    Pow10Thousand(9);
    Pow10Thousand(12);
    Pow10Thousand(15);
    assert Pow10(0) == 1 && Pow10(20) == 10 * Pow10(19) && Pow10(19) == 10 * Pow10(18);
  }

  lemma EventIdLength(n: nat)
    requires n < UINT64
    ensures |EventId(n)| == if n < TEN19 then 19 else 20
    ensures n >= TEN19 ==> EventId(n) == EventId(n / 10) + [Digit(n % 10)]
  {
    Pow10Nineteen();
    hide Pow10;
    NumeralLength(n, 19);
    NumeralLength(n, 20);
    if n >= TEN19 {
      NumeralLength(n / 10, 18);
    }
  }

  /**
   * Of two ids, the earlier one sorts first exactly while both have 19 digits, both have 20, or the
   * earlier one is at most a tenth of the later. Below 10^19 ids text order is allocation order.
   */
  lemma EventIdOrder(m: nat, n: nat)
    requires m < n < UINT64
    ensures LexLess(EventId(m), EventId(n)) <==> (m < TEN19 <= n ==> m <= n / 10)
  {
    EventIdLength(m);
    EventIdLength(n);
    EventIdValue(m);
    EventIdValue(n);
    hide EventId, LexLess, DecimalValue, AllDigits;
    if m < TEN19 <= n {
      var front := EventId(n / 10);
      EventIdValue(n / 10);
      EventIdLength(n / 10);
      NumeralOrder(EventId(m), front);
      LexAppend(EventId(m), '0', front, Digit(n % 10));
    } else {
      NumeralOrder(EventId(m), EventId(n));
    }
  }

  /** The boundary is real: the last 19-digit id does not sort before the first 20-digit one. */
  lemma EventIdOrderBreaks()
    ensures !LexLess(EventId(TEN19 - 1), EventId(TEN19))
  {
    EventIdOrder(TEN19 - 1, TEN19);
  }
}
