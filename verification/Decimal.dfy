/** Printing a number in decimal and reading a 32-bit unsigned number back. */
module Decimal {
  import opened Fleet

  const U32_LIMIT := 0x1_0000_0000

  predicate IsDigit(c: char) {
    '0' <= c <= '9'
  }

  function DigitValue(c: char): (d: int)
    requires IsDigit(c)
    ensures 0 <= d < 10
  {
    c as int - '0' as int
  }

  function DigitChar(d: int): (c: char)
    requires 0 <= d < 10
    ensures IsDigit(c) && DigitValue(c) == d
  {
    (d + '0' as int) as char
  }

  predicate AllDigits(s: string) {
    forall i :: 0 <= i < |s| ==> IsDigit(s[i])
  }

  /** What `{n}` prints for an unsigned number. */
  function Print(n: nat): (s: string)
    ensures |s| > 0 && AllDigits(s)
  {
    if n < 10 then [DigitChar(n)] else Print(n / 10) + [DigitChar(n % 10)]
  }

  function Value(s: string): nat
    requires AllDigits(s)
  {
    if s == [] then 0 else Value(s[..|s| - 1]) * 10 + DigitValue(s[|s| - 1])
  }

  /** `str::parse::<u32>()`: an optional '+', then one or more digits, with no overflow. */
  function ParseU32(s: string): Option<nat> {
    var digits := if |s| > 0 && s[0] == '+' then s[1..] else s;
    if digits != [] && AllDigits(digits) && Value(digits) < U32_LIMIT then Some(Value(digits)) else None
  }

  lemma {:induction false} ValueOfPrint(n: nat)
    ensures Value(Print(n)) == n
  {
    if n >= 10 {
      ValueOfPrint(n / 10);
      assert Print(n)[..|Print(n)| - 1] == Print(n / 10);
    }
  }

  /** Reading back what was printed, for every 32-bit number. */
  lemma ParsePrint(n: nat)
    ensures ParseU32(Print(n)) == if n < U32_LIMIT then Some(n) else None
  {
    ValueOfPrint(n);
    assert IsDigit(Print(n)[0]);
  }

  lemma PrintInjective(m: nat, n: nat)
    requires Print(m) == Print(n)
    ensures m == n
  {
    ValueOfPrint(m);
    ValueOfPrint(n);
  }

  // Which strings are read as a number.

  function Zeros(k: nat): (s: string)
    ensures |s| == k && AllDigits(s)
  {
    if k == 0 then [] else Zeros(k - 1) + ['0']
  }

  lemma {:induction false} ZerosAddNothing(k: nat, s: string)
    requires AllDigits(s)
    ensures AllDigits(Zeros(k) + s) && Value(Zeros(k) + s) == Value(s)
    decreases k, |s|
  {
    var padded := Zeros(k) + s;
    if s != [] {
      assert padded[..|padded| - 1] == Zeros(k) + s[..|s| - 1];
      ZerosAddNothing(k, s[..|s| - 1]);
    } else if k > 0 {
      assert padded == Zeros(k) && padded[..|padded| - 1] == Zeros(k - 1) + [];
      ZerosAddNothing(k - 1, []);
    }
  }

  lemma DigitCharOfValue(c: char)
    requires IsDigit(c)
    ensures DigitChar(DigitValue(c)) == c
  {
  }

  lemma PrintOneMore(m: nat, c: char)
    requires m > 0 && IsDigit(c)
    ensures Print(m * 10 + DigitValue(c)) == Print(m) + [c]
  {
    var n := m * 10 + DigitValue(c);
    assert n / 10 == m && n % 10 == DigitValue(c);
    DigitCharOfValue(c);
  }

  lemma PadOneMore(k: nat, m: nat, c: char) returns (k': nat)
    requires IsDigit(c)
    ensures Zeros(k) + Print(m) + [c] == Zeros(k') + Print(m * 10 + DigitValue(c))
  {
    DigitCharOfValue(c);
    if m == 0 {
      assert DigitChar(0) == '0';
      k' := k + 1;
    } else {
      PrintOneMore(m, c);
      k' := k;
      assert Zeros(k) + Print(m) + [c] == Zeros(k) + (Print(m) + [c]);
    }
  }

  /** Digits are the printed form of their value behind zeros. */
  lemma {:induction false} DigitsArePadded(s: string) returns (k: nat)
    requires AllDigits(s) && s != []
    ensures s == Zeros(k) + Print(Value(s))
  {
    var front, c := s[..|s| - 1], s[|s| - 1];
    if front == [] {
      k := 0;
      DigitCharOfValue(c);
      assert s == [c];
    } else {
      k := DigitsArePadded(front);
      k := PadOneMore(k, Value(front), c);
      assert s == front + [c];
    }
  }

  /** An optional '+', any zeros, and the number as it is printed. */
  ghost predicate Writes(s: string, n: nat) {
    exists sign: string, k: nat :: (sign == "" || sign == "+") && s == sign + (Zeros(k) + Print(n))
  }

  lemma WrittenIsParsed(sign: string, k: nat, n: nat)
    requires (sign == "" || sign == "+") && n < U32_LIMIT
    ensures ParseU32(sign + (Zeros(k) + Print(n))) == Some(n)
  {
    var digits := Zeros(k) + Print(n);
    ValueOfPrint(n);
    ZerosAddNothing(k, Print(n));
    assert IsDigit(digits[0]);
    if sign == "+" {
      assert (sign + digits)[1..] == digits;
    } else {
      assert sign + digits == digits;
    }
  }

  lemma ParsedIsWritten(s: string, n: nat)
    requires ParseU32(s) == Some(n)
    ensures n < U32_LIMIT && Writes(s, n)
  {
    var sign, digits := if s[0] == '+' then "+" else "", if s[0] == '+' then s[1..] else s;
    var k := DigitsArePadded(digits);
    assert s == sign + (Zeros(k) + Print(n));
  }

  /** A string is read as a number exactly when it writes it with an optional sign and zeros. */
  lemma ParsedIff(s: string, n: nat)
    ensures ParseU32(s) == Some(n) <==> n < U32_LIMIT && Writes(s, n)
  {
    if ParseU32(s) == Some(n) {
      ParsedIsWritten(s, n);
    }
    if n < U32_LIMIT && Writes(s, n) {
      var sign: string, k: nat :| (sign == "" || sign == "+") && s == sign + (Zeros(k) + Print(n));
      WrittenIsParsed(sign, k, n);
    }
  }
}
