/**
 * The human-readable sequential codes of products ("P-0001") and employees
 * ("EMP0001"): a prefix followed by `n.toString().padStart(4, '0')`.
 */
module Codes {
  import opened Wrappers

  predicate IsDigit(c: char) {
    '0' <= c <= '9'
  }

  predicate AllDigits(s: string) {
    forall i :: 0 <= i < |s| ==> IsDigit(s[i])
  }

  function DigitChar(d: nat): (c: char)
    requires d < 10
    ensures IsDigit(c)
  {
    ('0' as int + d) as char
  }

  function DigitValue(c: char): (d: nat)
    requires IsDigit(c)
    ensures d < 10 && DigitChar(d) == c
  {
    c as int - '0' as int
  }

  /** Decimal rendering of a non-negative integer, as Number.prototype.toString() gives it. */
  function Decimal(n: nat): (s: string)
    ensures 1 <= |s| && AllDigits(s)
    ensures n < 10 <==> |s| == 1
    ensures n > 0 ==> s[0] != '0'
  {
    if n < 10 then [DigitChar(n)] else Decimal(n / 10) + [DigitChar(n % 10)]
  }

  /** A number has at most four decimal digits exactly when it is below 10000. */
  lemma FourDigitsBelow10000(n: nat)
    ensures n < 10000 <==> |Decimal(n)| <= 4
  {
    if n >= 10 {
      var a := n / 10;
      assert |Decimal(n)| == |Decimal(a)| + 1;
      if a >= 10 {
        var b := a / 10;
        assert |Decimal(a)| == |Decimal(b)| + 1;
        if b >= 10 {
          var c := b / 10;
          assert |Decimal(b)| == |Decimal(c)| + 1;
          assert c < 10 <==> n < 10000;
        }
      }
    }
  }

  /** The number a string of decimal digits denotes (leading zeros allowed). */
  function Value(s: string): nat
    requires AllDigits(s)
  {
    if s == [] then 0 else Value(s[..|s| - 1]) * 10 + DigitValue(s[|s| - 1])
  }

  /** Reading back the rendering gives the number. */
  lemma {:induction false} ValueOfDecimal(n: nat)
    ensures Value(Decimal(n)) == n
  {
    if n >= 10 {
      var s := Decimal(n);
      assert s[..|s| - 1] == Decimal(n / 10);
      ValueOfDecimal(n / 10);
    }
  }

  /** `k` copies of `c`. */
  function Repeat(c: char, k: nat): (s: string)
    ensures |s| == k && forall i :: 0 <= i < k ==> s[i] == c
  {
    if k == 0 then [] else Repeat(c, k - 1) + [c]
  }

  /** Leading zeros do not change the value. */
  lemma {:induction false} ValueIgnoresLeadingZeros(k: nat, s: string)
    requires AllDigits(s)
    ensures AllDigits(Repeat('0', k) + s)
    ensures Value(Repeat('0', k) + s) == Value(s)
  {
    var z := Repeat('0', k);
    if s == [] {
      assert z + s == z;
      ZerosHaveNoValue(k);
    } else {
      assert (z + s)[..|z + s| - 1] == z + s[..|s| - 1];
      ValueIgnoresLeadingZeros(k, s[..|s| - 1]);
    }
  }

  lemma {:induction false} ZerosHaveNoValue(k: nat)
    ensures AllDigits(Repeat('0', k)) && Value(Repeat('0', k)) == 0
  {
    if k > 0 {
      assert Repeat('0', k)[..k - 1] == Repeat('0', k - 1);
      ZerosHaveNoValue(k - 1);
    }
  }

  /** String.prototype.padStart(width, fill) for a one-character fill. */
  function PadStart(s: string, width: nat, fill: char): (r: string)
    ensures |r| == if |s| >= width then |s| else width
    ensures r[|r| - |s|..] == s
    ensures forall i :: 0 <= i < |r| - |s| ==> r[i] == fill
  {
    if |s| >= width then s else Repeat(fill, width - |s|) + s
  }

  /** The code with number `n`: `prefix` + `n.toString().padStart(4, '0')`. */
  function Code(prefix: string, n: nat): (r: string)
    ensures |r| >= |prefix| + 4 && r[..|prefix|] == prefix
    ensures AllDigits(r[|prefix|..])
    ensures n < 10000 ==> |r| == |prefix| + 4
    ensures n >= 10000 ==> r == prefix + Decimal(n)
  {
    FourDigitsBelow10000(n);
    var digits := PadStart(Decimal(n), 4, '0');
    assert forall i :: 0 <= i < |digits| ==> IsDigit(digits[i]) by {
      forall i | 0 <= i < |digits| ensures IsDigit(digits[i]) {
        if i >= |digits| - |Decimal(n)| {
          assert digits[i] == digits[|digits| - |Decimal(n)|..][i - (|digits| - |Decimal(n)|)];
        }
      }
    }
    assert (prefix + digits)[|prefix|..] == digits;
    prefix + digits
  }

  /**
   * The inverse of Code: the number a code denotes, or None when `s` is not
   * the prefix followed by at least one decimal digit.
   */
  function ParseCode(prefix: string, s: string): Option<nat>
  {
    if |s| > |prefix| && s[..|prefix|] == prefix && AllDigits(s[|prefix|..])
    then Some(Value(s[|prefix|..]))
    else None
  }

  /** Parsing a generated code recovers its number, however many digits it has. */
  lemma {:induction false} ParseCodeOfCode(prefix: string, n: nat)
    ensures ParseCode(prefix, Code(prefix, n)) == Some(n)
  {
    var digits := Decimal(n);
    var padded := PadStart(digits, 4, '0');
    var c := Code(prefix, n);
    assert c[..|prefix|] == prefix && c[|prefix|..] == padded;
    if |digits| < 4 {
      assert padded == Repeat('0', 4 - |digits|) + digits;
      ValueIgnoresLeadingZeros(4 - |digits|, digits);
    }
    ValueOfDecimal(n);
  }

  /** Distinct numbers give distinct codes: the rendering never truncates. */
  lemma CodeInjective(prefix: string, m: nat, n: nat)
    requires Code(prefix, m) == Code(prefix, n)
    ensures m == n
  {
    ParseCodeOfCode(prefix, m);
    ParseCodeOfCode(prefix, n);
  }

  /**
   * If every code numbered lo .. hi-1 lies in `used`, then there are at most
   * |used| such numbers: a scan for a free code past `lo` stops within |used| steps.
   */
  lemma {:induction false} CodeRangeBound(prefix: string, lo: nat, hi: nat, used: set<string>)
    requires lo <= hi
    requires forall k :: lo <= k < hi ==> Code(prefix, k) in used
    ensures hi - lo <= |used|
  {
    if lo < hi {
      var top := Code(prefix, hi - 1);
      forall k | lo <= k < hi - 1 ensures Code(prefix, k) in used - {top} {
        if Code(prefix, k) == top { CodeInjective(prefix, k, hi - 1); }
      }
      CodeRangeBound(prefix, lo, hi - 1, used - {top});
    }
  }
}
