/** Decimal digit strings: what integer formatting prints, and how to read it back. */
module Decimal {

  predicate IsDigit(c: char) {
    '0' <= c <= '9'
  }

  predicate AllDigits(s: string) {
    forall i :: 0 <= i < |s| ==> IsDigit(s[i])
  }

  /** A canonical decimal number: digits, at least one, no superfluous leading zero. */
  predicate Canonical(s: string) {
    s != "" && AllDigits(s) && (|s| > 1 ==> s[0] != '0')
  }

  function DigitChar(d: nat): char
    requires d < 10
  {
    '0' + d as char
  }

  function DigitValue(c: char): (d: nat)
    requires IsDigit(c)
    ensures d < 10 && DigitChar(d) == c
  {
    (c - '0') as nat
  }

  /** The shortest decimal form of n. */
  function Digits(n: nat): (s: string)
    ensures Canonical(s)
    ensures n > 0 ==> s[0] != '0'
  {
    if n < 10 then [DigitChar(n)] else Digits(n / 10) + [DigitChar(n % 10)]
  }

  function Value(s: string): nat
    requires AllDigits(s)
  {
    if s == "" then 0 else Value(s[..|s| - 1]) * 10 + DigitValue(s[|s| - 1])
  }

  lemma {:induction false} ValueOfDigits(n: nat)
    ensures Value(Digits(n)) == n
  {
    if n < 10 {
      assert Digits(n)[..0] == "";
    } else {
      ValueOfDigits(n / 10);
      assert Digits(n)[..|Digits(n)| - 1] == Digits(n / 10);
    }
  }

  lemma {:induction false} ValuePositive(s: string)
    requires AllDigits(s) && s != "" && s[0] != '0'
    ensures Value(s) > 0
  {
    if |s| > 1 {
      ValuePositive(s[..|s| - 1]);
    }
  }

  /** Reading a canonical number and printing it again gives the same text. */
  lemma {:induction false} DigitsOfValue(s: string)
    requires Canonical(s)
    ensures Digits(Value(s)) == s
  {
    var n := |s| - 1;
    if n == 0 {
      assert s[..0] == "";
    } else {
      var front := s[..n];
      ValuePositive(front);
      DigitsOfValue(front);
      assert Value(s) / 10 == Value(front) && Value(s) % 10 == DigitValue(s[n]);
      assert s == front + [s[n]];
    }
  }

  function Zeros(n: nat): (z: string)
    ensures |z| == n && AllDigits(z)
    ensures n > 0 ==> z[0] == '0'
  {
    if n == 0 then "" else ['0'] + Zeros(n - 1)
  }

  lemma {:induction false} ValueOfZeros(n: nat)
    ensures Value(Zeros(n)) == 0
  {
    if n > 0 {
      ZerosSnoc(n - 1);
      ValueOfZeros(n - 1);
      assert Zeros(n)[..n - 1] == Zeros(n - 1);
    }
  }

  lemma {:induction false} ZerosSnoc(n: nat)
    ensures Zeros(n + 1) == Zeros(n) + ['0']
  {
    if n > 0 { ZerosSnoc(n - 1); }
  }

  /** n printed with at least w digits. */
  function Pad(n: nat, w: nat): (s: string)
    ensures AllDigits(s) && |s| >= w && s != ""
  {
    if |Digits(n)| >= w then Digits(n) else Zeros(w - |Digits(n)|) + Digits(n)
  }

  lemma PadTwo(n: nat)
    requires n < 100
    ensures |Pad(n, 2)| == 2 && DigitValue(Pad(n, 2)[0]) == n / 10 && DigitValue(Pad(n, 2)[1]) == n % 10
  {
    if n >= 10 {
      assert Digits(n) == Digits(n / 10) + [DigitChar(n % 10)];
    } else {
      assert Zeros(1) == ['0'] + Zeros(0);
    }
  }

  lemma ValueAppend(s: string, c: char)
    requires AllDigits(s) && IsDigit(c)
    ensures AllDigits(s + [c]) && Value(s + [c]) == Value(s) * 10 + DigitValue(c)
  {
    assert (s + [c])[..|s|] == s;
  }

  /** Two more padded digits multiply by a hundred and add. */
  lemma ValueAppendTwo(s: string, n: nat)
    requires AllDigits(s) && n < 100
    ensures AllDigits(s + Pad(n, 2)) && Value(s + Pad(n, 2)) == Value(s) * 100 + n
  {
    PadTwo(n);
    var p := Pad(n, 2);
    ValueAppend(s, p[0]);
    ValueAppend(s + [p[0]], p[1]);
    assert s + p == s + [p[0]] + [p[1]];
  }

  lemma {:induction false} ValueLeadingZeros(z: nat, s: string)
    requires AllDigits(s)
    ensures AllDigits(Zeros(z) + s) && Value(Zeros(z) + s) == Value(s)
  {
    if s == "" {
      ValueOfZeros(z);
      assert Zeros(z) + s == Zeros(z);
    } else {
      var n := |s| - 1;
      ValueLeadingZeros(z, s[..n]);
      ValueAppend(Zeros(z) + s[..n], s[n]);
      assert Zeros(z) + s == Zeros(z) + s[..n] + [s[n]];
    }
  }

  lemma ValueOfPad(n: nat, w: nat)
    ensures Value(Pad(n, w)) == n
  {
    hide Value, Digits;
    ValueOfDigits(n);
    if |Digits(n)| < w {
      ValueLeadingZeros(w - |Digits(n)|, Digits(n));
    }
  }

  /** A padded number starts with a zero exactly if padding was needed, that is, for small numbers. */
  lemma PadFour(n: nat)
    ensures Pad(n, 4)[0] == '0' <==> n < 1000
  {
    DigitsAtLeastFour(n);
  }

  lemma DigitsAtLeastFour(n: nat)
    ensures |Digits(n)| >= 4 <==> n >= 1000
  {
    assert |Digits(n)| >= 4 <==> n >= 1000 by {
      if n >= 1000 {
        assert |Digits(n)| == |Digits(n / 10)| + 1;
        assert |Digits(n / 10)| == |Digits(n / 10 / 10)| + 1;
        assert |Digits(n / 10 / 10)| == |Digits(n / 10 / 10 / 10)| + 1;
      } else if n >= 10 {
        assert |Digits(n)| == |Digits(n / 10)| + 1;
        if n >= 100 {
          assert |Digits(n / 10)| == |Digits(n / 10 / 10)| + 1;
        }
      }
    }
  }
}
