/**
 * Decimal text as Swift's standard library writes and reads an `Int`: string
 * interpolation `"\(n)"`, the failable initialiser `Int(String)`, and
 * `String(format: "%02d", n)`. The timer display, the preset names and the
 * custom-minutes text field are all built from these three.
 */
module Decimal {
  import opened Optional

  /** Bounds of Swift's `Int`, which is 64 bits wide on every Mac it runs on. */
  const IntMin: int := -0x8000_0000_0000_0000
  const IntMax: int := 0x7FFF_FFFF_FFFF_FFFF

  predicate IsDigit(c: char) {
    '0' <= c <= '9'
  }

  predicate AllDigits(s: string) {
    forall i :: 0 <= i < |s| ==> IsDigit(s[i])
  }

  function DigitValue(c: char): (d: nat)
    requires IsDigit(c)
    ensures d < 10
  {
    c as int - '0' as int
  }

  function DigitChar(d: nat): (c: char)
    requires d < 10
    ensures IsDigit(c) && DigitValue(c) == d
  {
    ('0' as int + d) as char
  }

  /** The number a string of ASCII digits denotes, most significant digit first. */
  function DigitsValue(s: string): nat
    requires AllDigits(s)
  {
    if s == [] then 0 else DigitsValue(s[..|s| - 1]) * 10 + DigitValue(s[|s| - 1])
  }

  /** The digits of `n`, shortest form: at least one digit and no leading zero. */
  function NatToDigits(n: nat): (s: string)
    ensures 1 <= |s| && AllDigits(s)
    ensures n < 10 <==> |s| == 1
    ensures s[0] == '0' ==> n == 0
  {
    if n < 10 then [DigitChar(n)] else NatToDigits(n / 10) + [DigitChar(n % 10)]
  }

  lemma {:induction false} NatToDigitsDenotes(n: nat)
    ensures DigitsValue(NatToDigits(n)) == n
  {
    if n >= 10 {
      var s := NatToDigits(n);
      assert s[..|s| - 1] == NatToDigits(n / 10);
      NatToDigitsDenotes(n / 10);
    }
  }

  /** A leading zero does not change the number a digit string denotes. */
  lemma {:induction false} LeadingZeroIsInert(s: string)
    requires AllDigits(s)
    ensures AllDigits("0" + s) && DigitsValue("0" + s) == DigitsValue(s)
  {
    var t := "0" + s;
    if s == [] {
      assert t[..|t| - 1] == [];
    } else {
      assert t[..|t| - 1] == "0" + s[..|s| - 1];
      LeadingZeroIsInert(s[..|s| - 1]);
    }
  }

  /**
   * `"\(n)"`: a minus sign for a negative value, then the digits of its
   * magnitude in shortest form (no `+`, no leading zero).
   */
  function Describe(n: int): (s: string)
    ensures 1 <= |s|
    ensures n >= 0 ==> AllDigits(s) && DigitsValue(s) == n && (s[0] == '0' ==> n == 0)
    ensures n < 0 ==> 2 <= |s| && s[0] == '-' && s[1] != '0' && AllDigits(s[1..]) && DigitsValue(s[1..]) == -n
  {
    if n < 0 then
      var s := "-" + NatToDigits(-n);
      assert s[1..] == NatToDigits(-n);
      NatToDigitsDenotes(-n);
      s
    else
      NatToDigitsDenotes(n);
      NatToDigits(n)
  }

  /** Reads the digits after an optional sign; `nil` unless they fit in `Int`. */
  function ParseMagnitude(digits: string, negative: bool): Option<int>
  {
    if |digits| == 0 || !AllDigits(digits) then None
    else
      var magnitude: int := DigitsValue(digits);
      var v := if negative then -magnitude else magnitude;
      if IntMin <= v <= IntMax then Some(v) else None
  }

  /**
   * `Int(s)`: an optional `+` or `-`, then one or more ASCII digits and nothing
   * else (no blanks), whose value fits in `Int`; `nil` otherwise.
   */
  function ParseInt(s: string): (r: Option<int>)
    ensures r.Some? ==> IntMin <= r.value <= IntMax
    ensures r.Some? ==>
      || (1 <= |s| && AllDigits(s) && r.value == DigitsValue(s))
      || (2 <= |s| && s[0] == '+' && AllDigits(s[1..]) && r.value == DigitsValue(s[1..]))
      || (2 <= |s| && s[0] == '-' && AllDigits(s[1..]) && r.value == -(DigitsValue(s[1..]) as int))
    ensures 1 <= |s| && AllDigits(s) && DigitsValue(s) <= IntMax ==> r == Some(DigitsValue(s))
    ensures 2 <= |s| && s[0] == '+' && AllDigits(s[1..]) && DigitsValue(s[1..]) <= IntMax ==>
      r == Some(DigitsValue(s[1..]))
    ensures 2 <= |s| && s[0] == '-' && AllDigits(s[1..]) && DigitsValue(s[1..]) <= -IntMin ==>
      r == Some(-(DigitsValue(s[1..]) as int))
  {
    if |s| > 0 && (s[0] == '+' || s[0] == '-') then
      var r := ParseMagnitude(s[1..], s[0] == '-');
      assert r.Some? ==> IsDigit(s[1..][0]);
      r
    else
      ParseMagnitude(s, false)
  }

  /** How `Int(_)` treats signs, stray characters and the empty text. */
  lemma ParseIntCases()
    ensures ParseInt("-5") == Some(-5) && ParseInt("+7") == Some(7) && ParseInt("0042") == Some(42)
    ensures ParseInt("5a") == None && ParseInt(" 5") == None && ParseInt("") == None
    ensures ParseInt("-") == None && ParseInt("+-1") == None
  {
    assert "-5"[1..] == "5" && "+7"[1..] == "7";
    LeadingZeroIsInert("42");
    LeadingZeroIsInert("042");
    assert "0042" == "0" + "042" && "042" == "0" + "42" && "42"[..1] == "4";
    assert !IsDigit("5a"[1]) && !IsDigit(" 5"[0]) && !IsDigit("-1"[0]);
    assert "+-1"[1..] == "-1";
  }

  /** What interpolation writes, `Int(_)` reads back: the two are inverse on `Int`. */
  lemma DescribeParses(n: int)
    requires IntMin <= n <= IntMax
    ensures ParseInt(Describe(n)) == Some(n)
  {
    var s := Describe(n);
    if n >= 0 {
      assert IsDigit(s[0]);
    }
  }

  /** `String(format: "%02d", n)`: zero-padded to at least two characters. */
  function PadTwo(n: int): (s: string)
    ensures n >= 0 ==> 2 <= |s| && AllDigits(s) && DigitsValue(s) == n
    ensures 0 <= n < 100 ==> |s| == 2
    ensures n >= 10 ==> s[0] != '0'
    ensures n < 0 ==> s == Describe(n)
  {
    if n < 0 then Describe(n)
    else if n < 10 then
      LeadingZeroIsInert(NatToDigits(n));
      NatToDigitsDenotes(n);
      "0" + NatToDigits(n)
    else
      NatToDigitsDenotes(n);
      assert n < 100 ==> |NatToDigits(n / 10)| == 1;
      NatToDigits(n)
  }

  /**
   * Swift's `a / b` and `a % b` on `Int`, which truncate toward zero (Dafny's
   * `/` and `%` are Euclidean): `a == b * q + r`, the remainder is smaller than
   * `b` in magnitude and never has the opposite sign of `a`.
   */
  function TruncDivRem(a: int, b: int): (qr: (int, int))
    requires b > 0
    ensures a == b * qr.0 + qr.1
    ensures a >= 0 ==> 0 <= qr.1 < b
    ensures a < 0 ==> -b < qr.1 <= 0
  {
    if a >= 0 then (a / b, a % b) else (-((-a) / b), -((-a) % b))
  }

  /**
   * `String(format: "%02d:%02d", t / 60, t % 60)`: for a non-negative count of
   * seconds, whole minutes (exactly two digits below 100 minutes, otherwise no
   * leading zero), a colon, then exactly two digits of seconds below 60, which
   * together give back `t`.
   */
  function ClockText(t: int): (s: string)
    ensures t >= 0 ==>
      && 5 <= |s| && s[|s| - 3] == ':'
      && AllDigits(s[..|s| - 3]) && AllDigits(s[|s| - 2..])
      && DigitsValue(s[|s| - 2..]) < 60
      && DigitsValue(s[..|s| - 3]) * 60 + DigitsValue(s[|s| - 2..]) == t
    ensures 0 <= t < 6000 ==> |s| == 5
    ensures t >= 6000 ==> s[0] != '0'
  {
    var (q, r) := TruncDivRem(t, 60);
    var minutes := PadTwo(q);
    var seconds := PadTwo(r);
    var s := minutes + ":" + seconds;
    assert t >= 0 ==> s[..|s| - 3] == minutes && s[|s| - 2..] == seconds;
    s
  }
}
