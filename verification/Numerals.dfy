/** Decimal numerals as Python prints and reads them. */
module Numerals {

  predicate IsDigit(c: char) {
    '0' <= c <= '9'
  }

  ghost predicate AllDigits(s: string) {
    forall i | 0 <= i < |s| :: IsDigit(s[i])
  }

  function Digit(d: nat): char
    requires d < 10
  {
    '0' + d as char
  }

  /** `str(n)` */
  function Decimal(n: nat): (s: string)
    ensures s != [] && AllDigits(s)
  {
    if n < 10 then [Digit(n)] else Decimal(n / 10) + [Digit(n % 10)]
  }

  /** `int(s)` of a digit string. */
  function Value(s: string): nat
    requires AllDigits(s)
  {
    if s == [] then 0 else Value(s[..|s| - 1]) * 10 + (s[|s| - 1] - '0') as nat
  }

  lemma {:induction false} ValueOfDecimal(n: nat)
    ensures Value(Decimal(n)) == n
  {
    if n >= 10 {
      ValueOfDecimal(n / 10);
      var s := Decimal(n / 10);
      assert (s + [Digit(n % 10)])[..|s|] == s;
    }
  }

  /** n with zeros in front up to the given width: `{n:06d}` for width 6. */
  function Padded(n: nat, width: nat): (s: string)
    ensures s != [] && AllDigits(s) && |s| >= width
  {
    PadTo(Decimal(n), width)
  }

  function PadTo(s: string, width: nat): (r: string)
    requires AllDigits(s)
    ensures AllDigits(r) && |r| == if |s| < width then width else |s|
    decreases width - |s|
  {
    if |s| < width then PadTo(['0'] + s, width) else s
  }

  lemma {:induction false} ZeroInFront(s: string)
    requires AllDigits(s)
    ensures Value(['0'] + s) == Value(s)
  {
    var z := ['0'] + s;
    if s == [] {
      assert Value([]) == 0 && z[..0] == [];
    } else {
      assert z[..|z| - 1] == ['0'] + s[..|s| - 1];
      ZeroInFront(s[..|s| - 1]);
    }
  }

  lemma {:induction false} ValueOfPadded(s: string, width: nat)
    requires AllDigits(s)
    ensures Value(PadTo(s, width)) == Value(s)
    decreases width - |s|
  {
    if |s| < width {
      ZeroInFront(s);
      ValueOfPadded(['0'] + s, width);
    }
  }

  /** A padded number reads as the number, and has zeros in front only up to the width. */
  lemma PaddedIs(n: nat, width: nat)
    ensures Value(Padded(n, width)) == n
    ensures |Padded(n, width)| > width && width > 0 ==> Padded(n, width)[0] != '0'
  {
    ValueOfPadded(Decimal(n), width);
    ValueOfDecimal(n);
    if |Padded(n, width)| > width > 0 {
      NoZeroInFront(n);
    }
  }

  /** `str(n)` has no zero in front, except for 0 itself. */
  lemma {:induction false} NoZeroInFront(n: nat)
    ensures Decimal(n)[0] == '0' <==> n == 0
    ensures Decimal(0) == "0"
  {
    if n >= 10 {
      NoZeroInFront(n / 10);
    }
  }

  /** `int(s)` reads digit after digit. */
  lemma ValueSnoc(s: string, c: char)
    requires AllDigits(s) && IsDigit(c)
    ensures Value([]) == 0 && Value(s + [c]) == 10 * Value(s) + (c as int - '0' as int)
  {
    assert (s + [c])[..|s|] == s;
  }

  function Power10(k: nat): nat {
    if k == 0 then 1 else 10 * Power10(k - 1)
  }

  /** A number needs more than k digits exactly when it is at least 10 to the k. */
  lemma {:induction false} DecimalLength(n: nat, k: nat)
    requires 1 <= k
    ensures |Decimal(n)| <= k <==> n < Power10(k)
  {
    if k == 1 {
      assert Power10(1) == 10 * Power10(0);
    } else if n >= 10 {
      DecimalLength(n / 10, k - 1);
    } else {
      AtLeastTen(k);
    }
  }

  lemma {:induction false} AtLeastTen(k: nat)
    requires 1 <= k
    ensures Power10(k) >= 10
  {
    if k > 1 {
      AtLeastTen(k - 1);
    } else {
      assert Power10(1) == 10 * Power10(0);
    }
  }

  /** Six digits hold exactly the numbers below a million. */
  lemma SixDigits(n: nat)
    ensures |Padded(n, 6)| == 6 <==> n < 1000000
    ensures Value(Padded(n, 6)) == n
  {
    DecimalLength(n, 6);
    assert Power10(2) == 100 && Power10(4) == 10000 && Power10(6) == 1000000;
    ValueOfPadded(Decimal(n), 6);
    ValueOfDecimal(n);
  }

  /** Length of the run of digits at the front. */
  function DigitRun(s: string): (n: nat)
    ensures n <= |s| && AllDigits(s[..n]) && (n < |s| ==> !IsDigit(s[n]))
  {
    if s == [] || !IsDigit(s[0]) then 0
    else
      var n := DigitRun(s[1..]);
      assert s[..n + 1] == [s[0]] + s[1..][..n];
      n + 1
  }

  lemma DigitRunEnds(digits: string, rest: string)
    requires AllDigits(digits)
    requires rest == [] || !IsDigit(rest[0])
    ensures DigitRun(digits + rest) == |digits|
    ensures (digits + rest)[..|digits|] == digits
  {
    var s := digits + rest;
    assert forall i | 0 <= i < |digits| :: s[i] == digits[i];
    assert rest != [] ==> s[|digits|] == rest[0];
    assert forall i | 0 <= i < DigitRun(s) :: s[..DigitRun(s)][i] == s[i];
  }
}
