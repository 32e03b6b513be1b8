/** Decimal digit strings and the numbers they write: `std::to_string` and the digit loops. */
module DigitStrings {

  predicate IsDigit(c: char) {
    '0' <= c <= '9'
  }

  ghost predicate AllDigits(s: string) {
    forall i :: 0 <= i < |s| ==> IsDigit(s[i])
  }

  function DigitValue(c: char): (v: int)
    requires IsDigit(c)
    ensures 0 <= v < 10
  {
    c as int - '0' as int
  }

  function DigitChar(v: int): (c: char)
    requires 0 <= v < 10
    ensures IsDigit(c) && DigitValue(c) == v
  {
    ('0' as int + v) as char
  }

  /** The ten digits in their order. */
  const NUMERALS := "0123456789"

  lemma DigitMeaning(v: int, c: char)
    requires 0 <= v < 10
    ensures DigitChar(v) == NUMERALS[v] && DigitValue(NUMERALS[v]) == v
    ensures IsDigit(c) ==> NUMERALS[DigitValue(c)] == c
  {
    assert NUMERALS[0] == '0' && NUMERALS[1] == '1' && NUMERALS[2] == '2' && NUMERALS[3] == '3' && NUMERALS[4] == '4';
    assert NUMERALS[5] == '5' && NUMERALS[6] == '6' && NUMERALS[7] == '7' && NUMERALS[8] == '8' && NUMERALS[9] == '9';
  }

  /** The number a digit string writes, most significant digit first. */
  ghost function Number(s: string): (n: nat)
    requires AllDigits(s)
  {
    if s == [] then 0 else Number(s[..|s| - 1]) * 10 + DigitValue(s[|s| - 1])
  }

  /** Length of the longest prefix made of digits. */
  ghost function DigitRun(s: string): (n: nat)
    ensures n <= |s|
    ensures AllDigits(s[..n])
    ensures n < |s| ==> !IsDigit(s[n])
  {
    if s == [] || !IsDigit(s[0]) then 0 else
      var n := 1 + DigitRun(s[1..]);
      assert forall i :: 0 < i < n ==> s[i] == s[1..][i - 1];
      n
  }

  function Pow10(n: nat): (p: nat)
    ensures p >= 1
  {
    if n == 0 then 1 else 10 * Pow10(n - 1)
  }

  /** The number with `k` zeros written behind it. */
  function Shift(n: nat, k: nat): (r: nat)
    ensures r >= n
  {
    if k == 0 then n else 10 * Shift(n, k - 1)
  }

  /** `std::to_string` of an unsigned number. */
  function Digits(n: nat): (s: string)
    ensures s != [] && AllDigits(s)
    ensures Number(s) == n
    ensures s[0] == '0' <==> n == 0
    ensures |s| == 1 || n >= 10
  {
    if n < 10 then [DigitChar(n)] else
      var s := Digits(n / 10) + [DigitChar(n % 10)];
      assert s[..|s| - 1] == Digits(n / 10);
      s
  }

  lemma {:induction false} ShiftZero(k: nat)
    ensures Shift(0, k) == 0
  {
    if k != 0 {
      ShiftZero(k - 1);
    }
  }

  lemma NumberSnoc(s: string, c: char)
    requires AllDigits(s) && IsDigit(c)
    ensures AllDigits(s + [c])
    ensures Number(s + [c]) == Number(s) * 10 + DigitValue(c)
  {
  }

  lemma {:induction false} NumberConcat(a: string, b: string)
    requires AllDigits(a) && AllDigits(b)
    ensures AllDigits(a + b)
    ensures Number(a + b) == Shift(Number(a), |b|) + Number(b)
  {
    if b == [] {
      assert a + b == a;
    } else {
      var b' := b[..|b| - 1];
      NumberConcat(a, b');
      assert a + b == (a + b') + [b[|b| - 1]];
      NumberSnoc(a + b', b[|b| - 1]);
    }
  }

  lemma {:induction false} NumberBound(s: string)
    requires AllDigits(s)
    ensures Number(s) < Pow10(|s|)
  {
    if s != [] {
      NumberBound(s[..|s| - 1]);
    }
  }

  /** A number below 10^k is written with at most k digits (and zero with one). */
  lemma {:induction false} DigitsLength(n: nat, k: nat)
    requires n < Pow10(k) && k >= 1
    ensures |Digits(n)| <= k
  {
    if n >= 10 {
      assert k != 1 by {
        assert Pow10(1) == 10 * Pow10(0);
      }
      DigitsLength(n / 10, k - 1);
    }
  }

  ghost function Zeros(n: nat): (s: string)
    ensures |s| == n && AllDigits(s)
    ensures forall i :: 0 <= i < n ==> s[i] == '0'
  {
    seq(n, _ => '0')
  }

  lemma {:induction false} NumberZeros(n: nat)
    ensures Number(Zeros(n)) == 0
  {
    if n > 0 {
      NumberZeros(n - 1);
      assert Zeros(n)[..n - 1] == Zeros(n - 1);
    }
  }

  /** Digit strings of equal length that write the same number are equal. */
  lemma {:induction false} NumberInjective(a: string, b: string)
    requires AllDigits(a) && AllDigits(b) && |a| == |b| && Number(a) == Number(b)
    ensures a == b
  {
    if a != [] {
      var n := |a| - 1;
      assert Number(a[..n]) * 10 + DigitValue(a[n]) == Number(b[..n]) * 10 + DigitValue(b[n]);
      assert Number(a[..n]) == Number(b[..n]) && DigitValue(a[n]) == DigitValue(b[n]);
      NumberInjective(a[..n], b[..n]);
      assert a == a[..n] + [a[n]] && b == b[..n] + [b[n]];
    }
  }

  /** A non-empty digit string without leading zero is the text of its number. */
  lemma {:induction false} DigitsOfNumber(s: string)
    requires s != [] && AllDigits(s)
    requires s[0] == '0' ==> |s| == 1
    ensures Digits(Number(s)) == s
  {
    if |s| == 1 {
      assert s[..0] == [];
      assert Number(s) == Number([]) * 10 + DigitValue(s[0]);
    } else {
      var t := s[..|s| - 1];
      DigitsOfNumber(t);
      assert t[0] != '0';
      assert Number(t) != 0;
      assert Number(s) / 10 == Number(t) && Number(s) % 10 == DigitValue(s[|s| - 1]);
      assert s == t + [s[|s| - 1]];
    }
  }

  /** Extending a digit string never makes its number smaller. */
  lemma {:induction false} NumberPrefix(s: string, n: nat)
    requires AllDigits(s) && n <= |s|
    ensures Number(s[..n]) <= Number(s)
  {
    if n == |s| {
      assert s[..n] == s;
    } else {
      var t := s[..|s| - 1];
      NumberPrefix(t, n);
      assert t[..n] == s[..n];
    }
  }
}
