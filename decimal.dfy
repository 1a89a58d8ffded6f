/**
 Decimal rendering of unsigned integers, as Rust's `Display` for `u64` (the `{}`
 placeholder of `format!`) produces it: the shortest string of ASCII digits, most
 significant digit first, with no sign and no leading zero except for the value 0.

 The renderer is paired with a strict parser that accepts exactly the strings the
 renderer produces, and the two are proved to be inverse to each other.
 */
module Decimal {

  import opened Wrappers

  /** The `u64` range: Rust's unsigned 64-bit integers. */
  const U64_LIMIT: nat := 0x1_0000_0000_0000_0000

  type U64 = n: nat | n < U64_LIMIT

  /** The largest `u64`, 18446744073709551615. */
  const U64_MAX: U64 := U64_LIMIT - 1

  function Pow10(k: nat): (p: nat)
    ensures p >= 1
  {
    if k == 0 then 1 else 10 * Pow10(k - 1)
  }

  predicate IsDigit(c: char) {
    '0' <= c <= '9'
  }

  predicate AllDigits(s: string) {
    forall i :: 0 <= i < |s| ==> IsDigit(s[i])
  }

  /** A string the renderer can produce: non-empty, digits only, and no leading
      zero unless the whole string is "0". */
  predicate Canonical(s: string) {
    |s| >= 1 && AllDigits(s) && (s[0] == '0' ==> |s| == 1)
  }

  function DigitChar(d: nat): (c: char)
    requires d < 10
    ensures IsDigit(c)
  {
    (48 + d) as char
  }

  function DigitValue(c: char): (d: nat)
    requires IsDigit(c)
    ensures d < 10
    ensures DigitChar(d) == c
  {
    c as int - 48
  }

  /** The decimal text of `n`: digits only, and a leading zero only for 0. */
  function NatToDecimal(n: nat): (s: string)
    ensures Canonical(s)
    ensures s[0] == '0' <==> n == 0
    decreases n
  {
    if n < 10 then [DigitChar(n)]
    else NatToDecimal(n / 10) + [DigitChar(n % 10)]
  }

  /** The value of a string of digits, read most significant digit first. */
  function DigitsValue(s: string): nat
    requires AllDigits(s)
    decreases |s|
  {
    if |s| == 0 then 0
    else 10 * DigitsValue(s[..|s| - 1]) + DigitValue(s[|s| - 1])
  }

  /** Strict decimal parsing: only canonical digit strings are accepted. */
  function ParseDecimal(s: string): (r: Option<nat>)
    ensures r.Some? <==> Canonical(s)
  {
    if Canonical(s) then Some(DigitsValue(s)) else None
  }

  /** Reading back the rendered text gives the number. */
  lemma {:induction false} DigitsValueOfDecimal(n: nat)
    ensures DigitsValue(NatToDecimal(n)) == n
    decreases n
  {
    var s := NatToDecimal(n);
    if n < 10 {
      assert s[..|s| - 1] == [];
    } else {
      assert s[..|s| - 1] == NatToDecimal(n / 10);
      DigitsValueOfDecimal(n / 10);
    }
  }

  /** Rendering then parsing is the identity. */
  lemma DecimalRoundTrip(n: nat)
    ensures ParseDecimal(NatToDecimal(n)) == Some(n)
  {
    DigitsValueOfDecimal(n);
  }

  /** A digit string is worth at least its leading digit. */
  lemma {:induction false} DigitsValueAtLeastLead(s: string)
    requires AllDigits(s) && |s| >= 1
    ensures DigitsValue(s) >= DigitValue(s[0])
    decreases |s|
  {
    if |s| > 1 {
      var p := s[..|s| - 1];
      assert p[0] == s[0];
      DigitsValueAtLeastLead(p);
    }
  }

  /** Parsing then rendering is the identity: every canonical string is the
      rendering of its own value. */
  lemma {:induction false} DecimalOfDigitsValue(s: string)
    requires Canonical(s)
    ensures NatToDecimal(DigitsValue(s)) == s
    decreases |s|
  {
    var v := DigitsValue(s);
    var p := s[..|s| - 1];
    var c := s[|s| - 1];
    if |s| == 1 {
      assert p == [];
      assert DigitsValue(p) == 0;
    } else {
      assert p[0] == s[0];
      assert Canonical(p);
      DigitsValueAtLeastLead(p);
      assert DigitValue(p[0]) >= 1;
      assert v == 10 * DigitsValue(p) + DigitValue(c);
      assert v / 10 == DigitsValue(p) && v % 10 == DigitValue(c);
      DecimalOfDigitsValue(p);
      assert s == p + [c];
    }
  }

  /** The parser accepts a string exactly when it is the rendering of the value
      it returns. */
  lemma ParseDecimalIsInverse(s: string, n: nat)
    ensures ParseDecimal(s) == Some(n) <==> s == NatToDecimal(n)
  {
    if ParseDecimal(s) == Some(n) {
      DecimalOfDigitsValue(s);
    }
    if s == NatToDecimal(n) {
      DecimalRoundTrip(n);
    }
  }

  /** Distinct numbers have distinct renderings. */
  lemma DecimalInjective(a: nat, b: nat)
    ensures NatToDecimal(a) == NatToDecimal(b) <==> a == b
  {
    DigitsValueOfDecimal(a);
    DigitsValueOfDecimal(b);
  }

  /** The rendering of `n` has at most `k` digits exactly when `n < 10^k`. */
  lemma {:induction false} DecimalLengthBound(n: nat, k: nat)
    requires k >= 1
    ensures |NatToDecimal(n)| <= k <==> n < Pow10(k)
    decreases n
  {
    if n < 10 {
      Pow10AtLeastTen(k);
    } else {
      assert |NatToDecimal(n)| == |NatToDecimal(n / 10)| + 1;
      if k == 1 {
        assert Pow10(1) == 10;
      } else {
        DecimalLengthBound(n / 10, k - 1);
        assert Pow10(k) == 10 * Pow10(k - 1);
        assert n / 10 < Pow10(k - 1) <==> n < 10 * Pow10(k - 1);
      }
    }
  }

  lemma {:induction false} Pow10AtLeastTen(k: nat)
    requires k >= 1
    ensures Pow10(k) >= 10
  {
    if k > 1 {
      Pow10AtLeastTen(k - 1);
    }
  }

  /** Every `u64` renders to at most 20 digits. */
  lemma U64DecimalAtMost20(n: U64)
    ensures |NatToDecimal(n)| <= 20
  {
    assert Pow10(10) == 10_000_000_000;
    assert Pow10(20) == 10_000_000_000 * Pow10(10);
    DecimalLengthBound(n, 20);
  }

  /** The bound of 20 digits is reached: the largest `u64` has 20. */
  lemma U64MaxHas20Digits()
    ensures |NatToDecimal(U64_MAX)| == 20
  {
    assert Pow10(10) == 10_000_000_000;
    assert Pow10(20) == 10_000_000_000 * Pow10(10);
    assert Pow10(19) == 1_000_000_000 * Pow10(10);
    DecimalLengthBound(U64_MAX, 20);
    DecimalLengthBound(U64_MAX, 19);
  }
}
