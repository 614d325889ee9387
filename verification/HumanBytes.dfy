/** The unit chosen for a number of bytes when a copied file's size is printed. */
module HumanBytes {

  const UNIT := 1024
  const INT64_LIMIT := 0x8000_0000_0000_0000
  const LETTERS := "KMGTPE"

  function Pow(k: nat): (p: nat)
    ensures p >= 1
  {
    if k == 0 then 1 else UNIT * Pow(k - 1)
  }

  lemma {:induction false} PowGrows(k: nat, m: nat)
    requires k <= m
    ensures Pow(k) <= Pow(m)
  {
    if k < m {
      PowGrows(k, m - 1);
    }
  }

  lemma SixthPower()
    ensures Pow(6) == 0x1000_0000_0000_0000 && Pow(7) == 0x40_0000_0000_0000_0000
  {
    assert Pow(1) == UNIT && Pow(2) == UNIT * Pow(1) && Pow(3) == UNIT * Pow(2);
    assert Pow(4) == UNIT * Pow(3) && Pow(5) == UNIT * Pow(4);
  }

  lemma {:induction false} TimesIsMonotone(a: int, b: int, d: nat)
    requires a <= b
    ensures a * d <= b * d
    decreases b - a
  {
    if a < b {
      TimesIsMonotone(a, b - 1, d);
      assert b * d == (b - 1) * d + d;
    }
  }

  /** `v` is n in units of `div`, rounded down. */
  predicate Quotient(n: int, div: int, v: int) {
    v * div <= n < (v + 1) * div
  }

  /** Dividing the quotient again is dividing by the larger divisor. */
  lemma DivideTwice(n: int, div: nat, v: int)
    requires Quotient(n, div, v)
    ensures Quotient(n, div * UNIT, v / UNIT)
  {
    TimesIsMonotone(v / UNIT * UNIT, v, div);
    assert v / UNIT * UNIT * div == v / UNIT * (div * UNIT);
    TimesIsMonotone(v + 1, (v / UNIT + 1) * UNIT, div);
    assert (v / UNIT + 1) * UNIT * div == (v / UNIT + 1) * (div * UNIT);
  }

  /** No power of the unit above the sixth is within 64 bits. */
  lemma ExponentFits(exp: nat, n: nat)
    requires Pow(exp + 1) <= n < INT64_LIMIT
    ensures exp <= 5 && Pow(exp + 1) <= 0x1000_0000_0000_0000
  {
    SixthPower();
    if exp > 5 {
      PowGrows(7, exp + 1);
    } else {
      PowGrows(exp + 1, 6);
    }
  }

  /** For every 64-bit size of at least one kilobyte the loop ends with a valid unit letter, the
      matching divisor computed without overflow, and a scaled value in [1, 1024). */
  method Scale(n: int) returns (div: int, exp: int)
    requires UNIT <= n < INT64_LIMIT
    ensures 0 <= exp < |LETTERS| && div == Pow(exp + 1) && div < INT64_LIMIT
    ensures div <= n < UNIT * div
  {
    div, exp := UNIT, 0;
    assert Pow(1) == UNIT;
    var v := n / UNIT;
    while v >= UNIT
      invariant exp >= 0 && div == Pow(exp + 1) && div < INT64_LIMIT
      invariant v >= 1 && Quotient(n, div, v)
      decreases v
    {
      DivideTwice(n, div, v);
      v := v / UNIT;
      div := div * UNIT;
      exp := exp + 1;
      TimesIsMonotone(1, v, div);
      ExponentFits(exp, n);
    }
    TimesIsMonotone(1, v, div);
    TimesIsMonotone(v + 1, UNIT, div);
    ExponentFits(exp, n);
  }

  /** What is printed: the plain count below one kilobyte, else a scaled value, before its
      rounding to one decimal, and a unit letter. */
  datatype Size = Plain(n: int) | Scaled(value: real, letter: char)

  lemma PositiveTimes(a: real, d: real)
    requires a > 0.0 && d > 0.0
    ensures a * d > 0.0
  {
  }

  lemma RealTimesIsStrict(a: real, b: real, d: real)
    requires a < b && d > 0.0
    ensures a * d < b * d
  {
    PositiveTimes(b - a, d);
    assert (b - a) * d == b * d - a * d;
  }

  lemma QuotientIsBracketed(v: real, d: real, n: real)
    requires d > 0.0 && v * d == n && d <= n < 1024.0 * d
    ensures 1.0 <= v < 1024.0
  {
    if v < 1.0 {
      RealTimesIsStrict(v, 1.0, d);
    }
    if v > 1024.0 {
      RealTimesIsStrict(1024.0, v, d);
    }
  }

  lemma ScaledIsBracketed(n: int, div: int)
    requires 0 < div <= n < UNIT * div
    ensures 1.0 <= n as real / div as real < 1024.0
    ensures n as real / div as real * div as real == n as real
  {
    QuotientIsBracketed(n as real / div as real, div as real, n as real);
  }

  method Describe(n: int) returns (size: Size)
    requires -INT64_LIMIT <= n < INT64_LIMIT
    ensures size.Plain? <==> n < 1024
    ensures size.Plain? ==> size.n == n
    ensures size.Scaled? ==> 1.0 <= size.value < 1024.0
    ensures size.Scaled? ==>
      exists k: nat :: k < 6 && size.letter == "KMGTPE"[k] && size.value * Pow(k + 1) as real == n as real
  {
    if n < UNIT {
      return Plain(n);
    }
    var div, exp := Scale(n);
    ScaledIsBracketed(n, div);
    size := Scaled(n as real / div as real, LETTERS[exp]);
  }

  /** The unit is the only one with a scaled value in [1, 1024). */
  lemma UnitIsUnique(n: nat, e: nat, f: nat)
    requires Pow(e + 1) <= n < Pow(e + 2) && Pow(f + 1) <= n < Pow(f + 2)
    ensures e == f
  {
    if e < f {
      PowGrows(e + 2, f + 1);
    } else if f < e {
      PowGrows(f + 2, e + 1);
    }
  }
}
