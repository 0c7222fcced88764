// JavaScript's `String(n)` for integers and `String.prototype.padStart(width, '0')`,
// the two renderings that booking codes, incident ids and CSV cells are made of.
module Decimal {

  predicate IsDigit(c: char) {
    '0' <= c <= '9'
  }

  ghost predicate AllDigits(s: string) {
    forall i :: 0 <= i < |s| ==> IsDigit(s[i])
  }

  function DigitChar(d: nat): (c: char)
    requires d < 10
    ensures IsDigit(c) && DigitValue(c) == d
  {
    ('0' as int + d) as char
  }

  function DigitValue(c: char): (d: nat)
    requires IsDigit(c)
    ensures d < 10
  {
    c as int - '0' as int
  }

  // `String(n)` of a non-negative integer: no leading zero except for 0 itself.
  function FromNat(n: nat): (s: string)
    ensures |s| > 0 && AllDigits(s)
    ensures Value(s) == n
  {
    if n < 10 then [DigitChar(n)]
    else
      var init := FromNat(n / 10);
      var s := init + [DigitChar(n % 10)];
      assert s[..|s| - 1] == init;
      s
  }

  // `String(n)` of any integer.
  function FromInt(n: int): (s: string)
    ensures |s| > 0
  {
    if n < 0 then "-" + FromNat(-n) else FromNat(n)
  }

  // The number a digit string denotes, leading zeros allowed.
  function Value(s: string): nat
    requires AllDigits(s)
  {
    if s == [] then 0 else 10 * Value(s[..|s| - 1]) + DigitValue(s[|s| - 1])
  }

  // `s.padStart(width, '0')`: never truncates, so a value wider than the field widens it.
  function PadZero(s: string, width: nat): (r: string)
    ensures |r| == if |s| < width then width else |s|
    ensures AllDigits(s) ==> AllDigits(r)
    decreases width - |s|
  {
    if |s| >= width then s else PadZero("0" + s, width)
  }

  lemma {:induction false} LeadingZero(s: string)
    requires AllDigits(s)
    ensures AllDigits("0" + s) && Value("0" + s) == Value(s)
  {
    var z := "0" + s;
    if s != [] {
      assert z[..|z| - 1] == "0" + s[..|s| - 1];
      LeadingZero(s[..|s| - 1]);
    }
  }

  // Padding does not change the number, so a padded field can always be read back.
  lemma {:induction false} PadZeroValue(s: string, width: nat)
    requires AllDigits(s)
    ensures AllDigits(PadZero(s, width)) && Value(PadZero(s, width)) == Value(s)
    decreases width - |s|
  {
    if |s| < width {
      LeadingZero(s);
      PadZeroValue("0" + s, width);
    }
  }

  // A leading '-' marks exactly the negative numbers, and the digits after it are the magnitude.
  lemma FromIntShape(n: int)
    ensures FromInt(n)[0] == '-' <==> n < 0
    ensures n < 0 ==> AllDigits(FromInt(n)[1..]) && Value(FromInt(n)[1..]) == -n
    ensures n >= 0 ==> AllDigits(FromInt(n)) && Value(FromInt(n)) == n
  {
    if n < 0 {
      assert FromInt(n)[1..] == FromNat(-n);
    } else {
      assert IsDigit(FromInt(n)[0]);
    }
  }

  lemma FromIntInjective(a: int, b: int)
    requires FromInt(a) == FromInt(b)
    ensures a == b
  {
    FromIntShape(a);
    FromIntShape(b);
  }

  function LastDash(w: string): nat {
    if w == [] then 0 else if w[|w| - 1] == '-' then |w| - 1 else LastDash(w[..|w| - 1])
  }

  lemma {:induction false} LastDashFound(a: string, s: string)
    requires AllDigits(s)
    ensures LastDash(a + "-" + s) == |a|
  {
    var w := a + "-" + s;
    if s != [] {
      assert IsDigit(s[|s| - 1]) && w[|w| - 1] == s[|s| - 1];
      assert w[..|w| - 1] == a + "-" + s[..|s| - 1];
      LastDashFound(a, s[..|s| - 1]);
    }
  }

  // A tail of digits behind a '-' is determined by the whole string.
  lemma SplitAtLastDash(a: string, b: string, s: string, t: string)
    requires AllDigits(s) && AllDigits(t)
    requires a + "-" + s == b + "-" + t
    ensures a == b && s == t
  {
    LastDashFound(a, s);
    LastDashFound(b, t);
    var w := a + "-" + s;
    assert w[..|a|] == a && w[|a| + 1..] == s;
    assert (b + "-" + t)[..|b|] == b && (b + "-" + t)[|b| + 1..] == t;
  }
}
