/**
 * Decimal text as C's printf writes it ("%d" and the zero-padded "%0Nd"),
 * with a parser that reads it back; the recorder's file names and the
 * HUD's numeric labels are built from these.
 */
module Decimal {

  predicate IsDigit(c: char) {
    '0' <= c <= '9'
  }

  predicate AllDigits(s: string) {
    forall i :: 0 <= i < |s| ==> IsDigit(s[i])
  }

  function DigitChar(d: nat): (c: char)
    requires d < 10
    ensures IsDigit(c) && c as int - '0' as int == d
  {
    ('0' as int + d) as char
  }

  function Pow10(k: nat): (p: nat)
    ensures p >= 1
  {
    if k == 0 then 1 else 10 * Pow10(k - 1)
  }

  /** The number a string of digits denotes (leading zeros allowed). */
  function Value(s: string): nat
    requires AllDigits(s)
  {
    if s == [] then 0 else Value(s[..|s| - 1]) * 10 + (s[|s| - 1] as int - '0' as int)
  }

  /** "%d" of a non-negative number: the shortest decimal text, no sign, no padding. */
  function Digits(n: nat): (s: string)
    ensures 1 <= |s| && AllDigits(s)
    ensures n > 0 ==> s[0] != '0'
    ensures |s| == 1 || s[0] != '0'
  {
    if n < 10 then [DigitChar(n)] else Digits(n / 10) + [DigitChar(n % 10)]
  }

  lemma {:induction false} ValueOfDigits(n: nat)
    ensures Value(Digits(n)) == n
  {
    if n >= 10 {
      var s := Digits(n);
      assert s[..|s| - 1] == Digits(n / 10);
      ValueOfDigits(n / 10);
    }
  }

  lemma {:induction false} DigitsLength(n: nat, w: nat)
    requires w >= 1
    ensures |Digits(n)| <= w <==> n < Pow10(w)
  {
    if n >= 10 {
      if w == 1 {
        assert Pow10(1) == 10;
      } else {
        DigitsLength(n / 10, w - 1);
      }
    } else {
      assert Pow10(w) >= 10 by { Pow10AtLeastTen(w); }
    }
  }

  lemma {:induction false} Pow10AtLeastTen(w: nat)
    requires w >= 1
    ensures Pow10(w) >= 10
  {
    if w > 1 {
      Pow10AtLeastTen(w - 1);
    }
  }

  lemma AppendDigits(a: string, b: string)
    requires AllDigits(a) && AllDigits(b)
    ensures AllDigits(a + b)
  {
    assert forall i :: 0 <= i < |a + b| ==> (a + b)[i] == if i < |a| then a[i] else b[i - |a|];
  }

  lemma ShiftStep(va: int, p: int, vb: int, d: int)
    ensures (va * p + vb) * 10 + d == va * (10 * p) + (vb * 10 + d)
  {
  }

  /** Reading a concatenation: the left part is shifted by the right part's length. */
  lemma {:induction false} ValueAppend(a: string, b: string)
    requires AllDigits(a) && AllDigits(b)
    ensures AllDigits(a + b)
    ensures Value(a + b) == Value(a) * Pow10(|b|) + Value(b)
  {
    AppendDigits(a, b);
    if b == [] {
      assert a + b == a;
    } else {
      var ab, b' := a + b, b[..|b| - 1];
      var d := b[|b| - 1] as int - '0' as int;
      assert ab[..|ab| - 1] == a + b' && ab[|ab| - 1] == b[|b| - 1];
      ValueAppend(a, b');
      assert Value(ab) == Value(a + b') * 10 + d;
      assert Value(b) == Value(b') * 10 + d;
      assert Pow10(|b|) == 10 * Pow10(|b'|);
      ShiftStep(Value(a), Pow10(|b'|), Value(b'), d);
    }
  }

  function Zeros(k: nat): (s: string)
    ensures |s| == k && AllDigits(s)
  {
    seq(k, _ => '0')
  }

  lemma {:induction false} ValueOfZeros(k: nat)
    ensures Value(Zeros(k)) == 0
  {
    if k > 0 {
      assert Zeros(k)[..k - 1] == Zeros(k - 1);
      ValueOfZeros(k - 1);
    }
  }

  /** "%0Nd" of a non-negative number: its digits, left-padded with '0' to width N. */
  function ZeroPad(n: nat, width: nat): (s: string)
    ensures AllDigits(s)
    ensures |s| == if |Digits(n)| < width then width else |Digits(n)|
    ensures Value(s) == n
  {
    var d := Digits(n);
    var z := Zeros(if |d| < width then width - |d| else 0);
    ValueAppend(z, d);
    ValueOfZeros(|z|);
    ValueOfDigits(n);
    z + d
  }

  /** "%d" of any int: a '-' sign before the digits of a negative number. */
  function IntText(i: int): (s: string)
    ensures |s| >= 1
    ensures i >= 0 ==> AllDigits(s) && Value(s) == i
    ensures i >= 0 ==> |s| == 1 || s[0] != '0'
    ensures i < 0 ==> s[0] == '-' && AllDigits(s[1..]) && Value(s[1..]) == -i
    ensures i < 0 ==> |s| >= 2 && s[1] != '0'
  {
    if i >= 0 then
      ValueOfDigits(i);
      Digits(i)
    else
      ValueOfDigits(-i);
      assert ("-" + Digits(-i))[1..] == Digits(-i);
      "-" + Digits(-i)
  }
}
