/** Decimal text of integers, as std::to_chars writes it and std::from_chars reads it. */
module Decimal {
  import opened Types

  predicate IsDigit(c: char) {
    '0' <= c <= '9'
  }

  function DigitChar(d: nat): char
    requires d < 10
  {
    '0' + d as char
  }

  function DigitValue(c: char): nat
    requires IsDigit(c)
  {
    (c - '0') as nat
  }

  predicate AllDigits(s: string) {
    forall i :: 0 <= i < |s| ==> IsDigit(s[i])
  }

  function NatText(n: nat): string {
    if n < 10 then [DigitChar(n)] else NatText(n / 10) + [DigitChar(n % 10)]
  }

  function IntText(n: int): string {
    if n < 0 then "-" + NatText(-n) else NatText(n)
  }

  function NatValue(s: string): nat
    requires AllDigits(s)
  {
    if s == [] then 0 else 10 * NatValue(s[..|s| - 1]) + DigitValue(s[|s| - 1])
  }

  /** A whole field as an integer of the given range; a minus sign is accepted only when
      the range is signed. */
  function ParseInteger(s: string, lo: int, hi: int): (r: ParsedInt) {
    var negative := lo < 0 && s != [] && s[0] == '-';
    var digits := if negative then s[1..] else s;
    if digits == [] || !AllDigits(digits) then NoInt
    else
      var magnitude: int := NatValue(digits);
      var n := if negative then -magnitude else magnitude;
      if lo <= n <= hi then AnInt(n) else NoInt
  }

  datatype ParsedInt = NoInt | AnInt(value: int)

  lemma {:induction false} NatTextIsDigits(n: nat)
    ensures NatText(n) != [] && AllDigits(NatText(n)) && NatValue(NatText(n)) == n
  {
    if n >= 10 {
      NatTextIsDigits(n / 10);
      var s := NatText(n);
      assert s[..|s| - 1] == NatText(n / 10);
    }
  }

  /** Reading back what was written. */
  lemma IntTextRoundTrip(n: int, lo: int, hi: int)
    requires lo <= n <= hi && (n < 0 ==> lo < 0)
    ensures ParseInteger(IntText(n), lo, hi) == AnInt(n)
  {
    if n < 0 {
      NatTextIsDigits(-n);
      assert IntText(n)[1..] == NatText(-n);
    } else {
      NatTextIsDigits(n);
      assert NatText(n)[0] != '-';
    }
  }

  function Power10(k: nat): (p: nat)
    ensures p >= 1
  {
    if k == 0 then 1 else 10 * Power10(k - 1)
  }

  lemma {:induction false} NatTextSize(n: nat, k: nat)
    requires n < Power10(k) && k >= 1
    ensures |NatText(n)| <= k
  {
    if n >= 10 {
      NatTextSize(n / 10, k - 1);
    }
  }

  /** No 64-bit integer takes more than twenty characters. */
  lemma IntTextSize(n: int)
    requires -0x8000_0000_0000_0000 <= n <= U64_MAX
    ensures 1 <= |IntText(n)| <= 20
  {
    assert Power10(5) == 100000;
    assert Power10(10) == 10000000000;
    assert Power10(15) == 1000000000000000;
    assert Power10(19) == 10000000000000000000;
    NatTextIsDigits(if n < 0 then -n else n);
    if n < 0 {
      NatTextSize(-n, 19);
    } else {
      assert Power10(20) == 100000000000000000000;
      NatTextSize(n, 20);
    }
  }

  /** Neither a comma nor a quote nor a line end. */
  predicate Plain(s: string) {
    forall i :: 0 <= i < |s| ==> s[i] != ',' && s[i] != '"' && s[i] != '\r' && s[i] != '\n'
  }

  lemma IntTextIsPlain(n: int)
    ensures Plain(IntText(n)) && IntText(n) != []
  {
    NatTextIsDigits(if n < 0 then -n else n);
  }
}
