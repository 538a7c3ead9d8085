/** Decimal integers: strconv.Itoa and strconv.Atoi for Go's 64-bit int. */
module Decimal {
  import opened Text

  type Int64 = x: int | -0x8000_0000_0000_0000 <= x < 0x8000_0000_0000_0000

  predicate IsDigit(c: char) {
    '0' <= c <= '9'
  }

  predicate AllDigits(s: string) {
    forall i :: 0 <= i < |s| ==> IsDigit(s[i])
  }

  function DigitChar(d: nat): (c: char)
    requires d < 10
    ensures IsDigit(c) && (c as int) - ('0' as int) == d
  {
    '0' + (d as char)
  }

  function DigitValue(c: char): (d: nat)
    requires IsDigit(c)
    ensures d < 10 && DigitChar(d) == c
  {
    (c as int) - ('0' as int)
  }

  /** The number a row of digits denotes, most significant digit first. */
  function DigitsValue(s: string): nat
    requires AllDigits(s)
  {
    if s == "" then 0 else DigitsValue(s[..|s| - 1]) * 10 + DigitValue(s[|s| - 1])
  }

  function NatText(n: nat): (s: string)
    ensures s != "" && AllDigits(s)
  {
    if n < 10 then [DigitChar(n)] else NatText(n / 10) + [DigitChar(n % 10)]
  }

  lemma {:induction false} NatTextValue(n: nat)
    ensures DigitsValue(NatText(n)) == n
  {
    var s := NatText(n);
    if n < 10 {
      assert s[..|s| - 1] == "";
    } else {
      assert s[..|s| - 1] == NatText(n / 10);
      NatTextValue(n / 10);
    }
  }

  function Itoa(i: int): (s: string)
    ensures s != ""
  {
    if i < 0 then "-" + NatText(-i) else NatText(i)
  }

  /** strconv.Atoi: an optional sign, at least one digit, and a value that fits in 64 bits. */
  function Atoi(s: string): Option<Int64> {
    var signed := s != "" && (s[0] == '-' || s[0] == '+');
    var digits := if signed then s[1..] else s;
    if digits == "" || !AllDigits(digits) then None
    else
      var d: int := DigitsValue(digits);
      var n := if signed && s[0] == '-' then -d else d;
      if -0x8000_0000_0000_0000 <= n < 0x8000_0000_0000_0000 then Some(n) else None
  }

  /** Printing any 64-bit integer and reading it back gives the same integer. */
  lemma AtoiItoa(i: Int64)
    ensures Atoi(Itoa(i)) == Some(i)
  {
    var n: int := i;
    var s := Itoa(n);
    if n < 0 {
      assert s[1..] == NatText(-n);
      NatTextValue(-n);
    } else {
      assert IsDigit(s[0]);
      NatTextValue(n);
    }
  }

  predicate IntChar(c: char) {
    IsDigit(c) || c == '-'
  }

  /** A printed integer holds nothing but digits and a leading minus sign. */
  lemma ItoaChars(i: int)
    ensures forall k :: 0 <= k < |Itoa(i)| ==> IntChar(Itoa(i)[k])
  {
    var s := Itoa(i);
    forall k | 0 <= k < |s| ensures IntChar(s[k]) {
      if i < 0 && k > 0 {
        assert s[k] == NatText(-i)[k - 1];
      }
    }
  }

  // ----- which texts are integers

  function Pow10(n: nat): nat {
    if n == 0 then 1 else 10 * Pow10(n - 1)
  }

  /** The number that digits denote by their places: the first of n counts 10^(n-1). */
  function PlaceValue(s: string): nat
    requires AllDigits(s)
  {
    if s == "" then 0 else (s[0] as int - '0' as int) * Pow10(|s| - 1) + PlaceValue(s[1..])
  }

  lemma {:induction false} PlaceValueSnoc(s: string, c: char)
    requires AllDigits(s) && IsDigit(c)
    ensures AllDigits(s + [c]) && PlaceValue(s + [c]) == PlaceValue(s) * 10 + (c as int - '0' as int)
  {
    var t := s + [c];
    if s == "" {
      assert t[1..] == "";
    } else {
      assert t[1..] == s[1..] + [c];
      PlaceValueSnoc(s[1..], c);
      Shifted(s[0] as int - '0' as int, |s| - 1);
    }
  }

  lemma Shifted(d: nat, n: nat)
    ensures d * Pow10(n + 1) == d * Pow10(n) * 10
  {
  }

  /** Both ways of reading a row of digits agree. */
  lemma {:induction false} DigitsByPlace(s: string)
    requires AllDigits(s)
    ensures DigitsValue(s) == PlaceValue(s)
  {
    if s != "" {
      var init, c := s[..|s| - 1], s[|s| - 1];
      assert s == init + [c];
      DigitsByPlace(init);
      PlaceValueSnoc(init, c);
    }
  }

  /** A sign or none, and at least one digit, for a number of 64 bits. */
  ghost predicate SignedDigits(t: string, sign: string, digits: string, n: int) {
    && t == sign + digits && digits != "" && AllDigits(digits)
    && (if sign == "-" then n == 0 - PlaceValue(digits) else (sign == "" || sign == "+") && n == PlaceValue(digits))
    && -0x8000_0000_0000_0000 <= n < 0x8000_0000_0000_0000
  }

  ghost predicate DecimalText(t: string, n: int) {
    exists sign, digits :: SignedDigits(t, sign, digits, n)
  }

  /** Exactly these texts are read as integers. */
  lemma AtoiLanguage(t: string, n: int)
    ensures (Atoi(t).Some? && Atoi(t).value == n) <==> DecimalText(t, n)
  {
    if Atoi(t).Some? && Atoi(t).value == n {
      var k := if t[0] == '-' || t[0] == '+' then 1 else 0;
      DigitsByPlace(t[k..]);
      assert t == t[..k] + t[k..];
      assert SignedDigits(t, t[..k], t[k..], n);
    }
    if sign, digits :| SignedDigits(t, sign, digits, n) {
      DigitsByPlace(digits);
      assert t[|sign|..] == digits;
      assert sign == "" ==> IsDigit(t[0]);
    }
  }
}
