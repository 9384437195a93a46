/** The exact decimal parser (src/fixed_point.cpp). */
module FixedPoint {
  import opened Types
  import opened Decimal

  const SCALE: nat := 100_000_000
  const MAXIMUM: nat := 0x7FFF_FFFF_FFFF_FFFF

  // ---------------------------------------------------------------- what is accepted

  /** The position of the first point, or the end. */
  function Point(s: string): (p: nat)
    ensures p <= |s| && (p < |s| ==> s[p] == '.') && forall i :: 0 <= i < p ==> s[i] != '.'
  {
    if s == [] then 0 else if s[0] == '.' then 0 else 1 + Point(s[1..])
  }

  function Whole(s: string): string {
    s[..Point(s)]
  }

  function Fraction(s: string): string {
    if Point(s) < |s| then s[Point(s) + 1..] else ""
  }

  /** Digits, and optionally a point followed by at least one digit. */
  predicate WellFormed(s: string) {
    && Whole(s) != "" && AllDigits(Whole(s)) && AllDigits(Fraction(s))
    && (Point(s) < |s| ==> Fraction(s) != "")
  }

  /** r is the number s denotes, times 10^8, exactly: both sides are multiplied by the
      power of ten that clears the fraction. */
  ghost predicate Denotes(s: string, r: nat)
    requires WellFormed(s)
  {
    r * Power10(|Fraction(s)|) == NatValue(Whole(s) + Fraction(s)) * SCALE
  }

  // ---------------------------------------------------------------- arithmetic

  lemma {:induction false} Power10Adds(m: nat, n: nat)
    ensures Power10(m + n) == Power10(m) * Power10(n)
  {
    if m != 0 {
      Power10Adds(m - 1, n);
      assert Power10(m + n) == 10 * (Power10(m - 1) * Power10(n)) == (10 * Power10(m - 1)) * Power10(n);
    }
  }

  lemma ScaleIsPower()
    ensures Power10(8) == SCALE
  {
    assert Power10(2) == 100 && Power10(4) == 10_000;
    Power10Adds(4, 4);
  }

  lemma ShiftArithmetic(v: nat, p: nat, f: nat)
    ensures (v * p + f) * 10 == v * (10 * p) + f * 10
  {
  }

  lemma {:induction false} ValueConcat(s: string, t: string)
    requires AllDigits(s) && AllDigits(t)
    ensures AllDigits(s + t) && NatValue(s + t) == NatValue(s) * Power10(|t|) + NatValue(t)
    decreases |t|
  {
    if t == [] {
      assert s + t == s;
    } else {
      var front := t[..|t| - 1];
      ValueConcat(s, front);
      assert (s + t)[..|s + t| - 1] == s + front;
      ShiftArithmetic(NatValue(s), Power10(|front|), NatValue(front));
    }
  }

  lemma {:induction false} ValueBound(s: string)
    requires AllDigits(s)
    ensures NatValue(s) < Power10(|s|)
    ensures (exists i :: 0 <= i < |s| && s[i] != '0') ==> NatValue(s) > 0
  {
    if s != [] {
      ValueBound(s[..|s| - 1]);
      if exists i :: 0 <= i < |s| && s[i] != '0' {
        var i :| 0 <= i < |s| && s[i] != '0';
        assert i < |s| - 1 ==> s[..|s| - 1][i] != '0';
      }
    }
  }

  lemma {:induction false} ValueOfZeros(s: string)
    requires forall i :: 0 <= i < |s| ==> s[i] == '0'
    ensures AllDigits(s) && NatValue(s) == 0
  {
    if s != [] {
      ValueOfZeros(s[..|s| - 1]);
    }
  }

  // Identities over whole numbers, kept apart from what they are about.

  lemma CancelFactor(a: nat, b: nat, p: nat)
    requires p > 0 && a * p <= b * p
    ensures a <= b
  {
    assert a > b ==> a * p == b * p + (a - b) * p && (a - b) * p > 0;
  }

  lemma CancelEqual(x: nat, y: nat, k: nat)
    requires k > 0
    ensures x * k == y * k <==> x == y
  {
    if x * k == y * k {
      CancelFactor(x, y, k);
      CancelFactor(y, x, k);
    }
  }

  lemma Spread(w: nat, p: nat, f: nat, k: nat)
    ensures (w * p + f) * k == (w * k) * p + f * k
  {
    assert (w * p + f) * k == w * p * k + f * k;
    assert w * p * k == w * (p * k) == w * (k * p) == (w * k) * p;
  }

  lemma Regroup(w: nat, k: nat, z: nat, g: nat, d: nat)
    ensures w * (k * z) + (g * z + d) == (w * k + g) * z + d
  {
    assert w * (k * z) == (w * k) * z;
    assert (w * k + g) * z == (w * k) * z + g * z;
  }

  lemma Swap(r: nat, k: nat, z: nat)
    ensures r * (k * z) == (r * z) * k
  {
    assert r * (k * z) == r * (z * k) == (r * z) * k;
  }

  lemma NotAMultiple(r: nat, a: nat, z: nat, d: nat)
    requires 0 < d < z
    ensures r * z != a * z + d
  {
    assert (r - a) * z == r * z - a * z;
    assert r - a >= 1 ==> (r - a) * z >= z;
    assert r - a <= 0 ==> (r - a) * z <= 0;
  }

  // ------------------------------------------------------------ what is denoted

  lemma DenotedIsUnique(s: string, q: nat, r: nat)
    requires WellFormed(s) && Denotes(s, q) && Denotes(s, r)
    ensures q == r
  {
    CancelEqual(q, r, Power10(|Fraction(s)|));
  }

  /** The value of the digits, with and without the fraction. */
  lemma WholeAndFraction(s: string)
    requires WellFormed(s)
    ensures NatValue(Whole(s) + Fraction(s)) * SCALE
         == (NatValue(Whole(s)) * SCALE) * Power10(|Fraction(s)|) + NatValue(Fraction(s)) * SCALE
  {
    ValueConcat(Whole(s), Fraction(s));
    Spread(NatValue(Whole(s)), Power10(|Fraction(s)|), NatValue(Fraction(s)), SCALE);
  }

  /** The whole part alone bounds the result from below. */
  lemma WholeBounds(s: string, r: nat)
    requires WellFormed(s) && Denotes(s, r)
    ensures NatValue(Whole(s)) * SCALE <= r
  {
    WholeAndFraction(s);
    CancelFactor(NatValue(Whole(s)) * SCALE, r, Power10(|Fraction(s)|));
  }

  lemma PadArithmetic(w: nat, f: nat, q: nat, p: nat)
    ensures (w + f * q) * p == w * p + f * (q * p)
  {
    assert (w + f * q) * p == w * p + (f * q) * p;
    assert (f * q) * p == f * (q * p);
  }

  /** A fraction of at most eight digits, padded. */
  lemma ShortFraction(s: string)
    requires WellFormed(s) && |Fraction(s)| <= 8
    ensures Denotes(s, NatValue(Whole(s)) * SCALE + NatValue(Fraction(s)) * Power10(8 - |Fraction(s)|))
  {
    var n := |Fraction(s)|;
    WholeAndFraction(s);
    Power10Adds(8 - n, n);
    ScaleIsPower();
    PadArithmetic(NatValue(Whole(s)) * SCALE, NatValue(Fraction(s)), Power10(8 - n), Power10(n));
  }

  /** The digits after the eighth. */
  function Discarded(s: string): string
    requires |Fraction(s)| > 8
  {
    Fraction(s)[8..]
  }

  lemma FractionSplits(s: string)
    requires WellFormed(s) && |Fraction(s)| > 8
    ensures AllDigits(Fraction(s)[..8]) && AllDigits(Discarded(s))
    ensures NatValue(Fraction(s)) == NatValue(Fraction(s)[..8]) * Power10(|Fraction(s)| - 8) + NatValue(Discarded(s))
  {
    assert Fraction(s) == Fraction(s)[..8] + Discarded(s);
    ValueConcat(Fraction(s)[..8], Discarded(s));
  }

  lemma LongPower(n: nat)
    requires n > 8
    ensures Power10(n) == SCALE * Power10(n - 8)
  {
    Power10Adds(8, n - 8);
    ScaleIsPower();
  }

  lemma LongFractionValue(s: string)
    requires WellFormed(s) && |Fraction(s)| > 8
    ensures AllDigits(Fraction(s)[..8]) && AllDigits(Discarded(s))
    ensures var z := Power10(|Fraction(s)| - 8);
            && Power10(|Fraction(s)|) == SCALE * z
            && NatValue(Whole(s) + Fraction(s))
               == (NatValue(Whole(s)) * SCALE + NatValue(Fraction(s)[..8])) * z + NatValue(Discarded(s))
  {
    FractionSplits(s);
    LongPower(|Fraction(s)|);
    ValueConcat(Whole(s), Fraction(s));
    Regroup(NatValue(Whole(s)), SCALE, Power10(|Fraction(s)| - 8), NatValue(Fraction(s)[..8]), NatValue(Discarded(s)));
  }

  lemma LongFraction(s: string)
    requires WellFormed(s) && |Fraction(s)| > 8 && (forall i :: 8 <= i < |Fraction(s)| ==> Fraction(s)[i] == '0')
    ensures AllDigits(Fraction(s)[..8]) && Denotes(s, NatValue(Whole(s)) * SCALE + NatValue(Fraction(s)[..8]))
  {
    LongFractionValue(s);
    ValueOfZeros(Discarded(s));
    Swap(NatValue(Whole(s)) * SCALE + NatValue(Fraction(s)[..8]), SCALE, Power10(|Fraction(s)| - 8));
  }

  /** A non-zero digit after the eighth: no integer is the exact result. */
  lemma DiscardedDigit(s: string, i: nat, r: nat)
    requires WellFormed(s) && 8 <= i < |Fraction(s)| && Fraction(s)[i] != '0'
    ensures !Denotes(s, r)
  {
    LongFractionValue(s);
    var z, d := Power10(|Fraction(s)| - 8), NatValue(Discarded(s));
    var a := NatValue(Whole(s)) * SCALE + NatValue(Fraction(s)[..8]);
    assert Discarded(s)[i - 8] != '0';
    ValueBound(Discarded(s));
    NotAMultiple(r, a, z, d);
    Swap(r, SCALE, z);
    CancelEqual(r * z, a * z + d, SCALE);
  }

  // ---------------------------------------------------------------------- parsing

  datatype DecimalError = EmptyInput | MissingIntegerDigits | InvalidCharacter | Overflow
                        | MissingFractionalDigits | NonZeroDiscardedDigit

  datatype DecimalResult = Exact(value: I64) | Rejected(error: DecimalError)

  /** The strings that denote an integer of 63 bits after scaling. */
  ghost predicate Representable(s: string) {
    WellFormed(s) && exists v :: 0 <= v <= MAXIMUM && Denotes(s, v)
  }

  const MAXIMUM_WHOLE: nat := MAXIMUM / SCALE

  lemma PrefixIsSmaller(s: string, t: string)
    requires AllDigits(s) && AllDigits(t)
    ensures AllDigits(s + t) && NatValue(s) <= NatValue(s + t)
  {
    ValueConcat(s, t);
    CancelProduct(NatValue(s), Power10(|t|));
  }

  lemma CancelProduct(a: nat, p: nat)
    requires p >= 1
    ensures a <= a * p
  {
  }

  lemma WholeTooLarge(s: string, v: nat)
    requires WellFormed(s) && NatValue(Whole(s)) > MAXIMUM_WHOLE && v <= MAXIMUM
    ensures !Denotes(s, v)
  {
    if Denotes(s, v) {
      WholeBounds(s, v);
    }
  }

  /** A whole part above the limit is too large, whatever follows. */
  lemma LargeWhole(s: string, n: nat)
    requires n <= Point(s) && AllDigits(s[..n]) && NatValue(s[..n]) > MAXIMUM_WHOLE
    ensures !Representable(s)
  {
    if WellFormed(s) {
      assert Whole(s) == s[..n] + Whole(s)[n..];
      PrefixIsSmaller(s[..n], Whole(s)[n..]);
      forall v | 0 <= v <= MAXIMUM ensures !Denotes(s, v) {
        WholeTooLarge(s, v);
      }
    }
  }

  lemma NextDigit(s: string, n: nat)
    requires n < |s| && AllDigits(s[..n]) && IsDigit(s[n])
    ensures AllDigits(s[..n + 1]) && NatValue(s[..n + 1]) == NatValue(s[..n]) * 10 + DigitValue(s[n])
            && DigitValue(s[n]) <= 9
  {
    assert s[..n + 1][..n] == s[..n];
  }

  /** The check before the next digit is exact. */
  lemma WholeCheck(whole: nat, digit: nat)
    requires digit <= 9
    ensures whole > (MAXIMUM_WHOLE - digit) / 10 <==> whole * 10 + digit > MAXIMUM_WHOLE
  {
  }

  /** The digits before the point. */
  method ParseWhole(input: string) returns (error: DecimalError, ok: bool, whole: I64, position: nat)
    requires input != "" && input[0] != '.'
    ensures ok ==>
              position == Point(input) && AllDigits(Whole(input)) && whole == NatValue(Whole(input)) <= MAXIMUM_WHOLE
    ensures !ok ==> !Representable(input)
  {
    error, whole, position := EmptyInput, 0, 0;
    while position < |input| && input[position] != '.'
      invariant position <= Point(input) && AllDigits(input[..position])
      invariant whole == NatValue(input[..position]) <= MAXIMUM_WHOLE
    {
      var c := input[position];
      if !IsDigit(c) {
        assert Whole(input)[position] == c;
        return InvalidCharacter, false, whole, position;
      }
      var digit := DigitValue(c);
      NextDigit(input, position);
      WholeCheck(whole, digit);
      if whole > (MAXIMUM_WHOLE - digit) / 10 {
        LargeWhole(input, position + 1);
        return Overflow, false, whole, position;
      }
      whole := whole * 10 + digit;
      position := position + 1;
    }
    ok := true;
  }

  /** The first eight digits of the fraction, as far as there are any. */
  function Kept(s: string): string {
    if |s| <= 8 then s else s[..8]
  }

  /** The first eight digits of the fraction, padded to eight. */
  ghost function Padded(f: string): nat
    requires AllDigits(f)
  {
    NatValue(Kept(f)) * Power10(8 - |Kept(f)|)
  }

  lemma NoFraction()
    ensures Padded("") == 0
  {
  }

  /** The check before the last multiplication is exact. */
  lemma FinalCheck(whole: nat, fraction: nat)
    requires fraction < SCALE
    ensures whole > (MAXIMUM - fraction) / SCALE <==> whole * SCALE + fraction > MAXIMUM
  {
  }

  /** The digits after the point: the first eight make the fraction, the rest must be zero. */
  method ParseFraction(input: string, start: nat) returns (error: DecimalError, ok: bool, fraction: I64)
    requires Point(input) < |input| && start == Point(input) + 1
    ensures ok ==> && Fraction(input) != "" && AllDigits(Fraction(input))
                   && fraction == Padded(Fraction(input)) < SCALE
                   && forall i :: 8 <= i < |Fraction(input)| ==> Fraction(input)[i] == '0'
    ensures !ok ==> !Representable(input)
  {
    var f := Fraction(input);
    error, fraction := MissingFractionalDigits, 0;
    if start == |input| {
      return MissingFractionalDigits, false, 0;
    }
    var digits := 0;
    while digits < |f|
      invariant digits <= |f| && AllDigits(f[..digits])
      invariant fraction == NatValue(Kept(f[..digits])) < Power10(|Kept(f[..digits])|) <= SCALE
      invariant forall i :: 8 <= i < digits ==> f[i] == '0'
    {
      var c := f[digits];
      if !IsDigit(c) {
        return InvalidCharacter, false, fraction;
      }
      if digits < 8 {
        KeepDigit(f, digits);
        fraction := fraction * 10 + DigitValue(c);
      } else if c != '0' {
        DiscardedMeansNone(input, digits);
        return NonZeroDiscardedDigit, false, fraction;
      } else {
        assert Kept(f[..digits + 1]) == Kept(f[..digits]);
      }
      digits := digits + 1;
    }
    assert f[..digits] == f;
    fraction := Pad(fraction, f);
    ok := true;
  }

  lemma KeepDigit(f: string, n: nat)
    requires n < |f| && n < 8 && AllDigits(f[..n]) && IsDigit(f[n])
    ensures AllDigits(f[..n + 1]) && Kept(f[..n]) == f[..n] && Kept(f[..n + 1]) == f[..n + 1]
    ensures NatValue(f[..n + 1]) == NatValue(f[..n]) * 10 + DigitValue(f[n]) < Power10(n + 1) <= SCALE
  {
    NextDigit(f, n);
    ValueBound(f[..n + 1]);
    SmallPower(n + 1);
  }

  lemma SmallPower(n: nat)
    requires n <= 8
    ensures Power10(n) <= SCALE
  {
    Power10Adds(n, 8 - n);
    ScaleIsPower();
    CancelProduct(Power10(n), Power10(8 - n));
  }

  lemma DiscardedMeansNone(s: string, i: nat)
    requires 8 <= i < |Fraction(s)| && Fraction(s)[i] != '0'
    ensures !Representable(s)
  {
    if WellFormed(s) {
      forall v | 0 <= v <= MAXIMUM ensures !Denotes(s, v) {
        DiscardedDigit(s, i, v);
      }
    }
  }

  /** Multiply up to eight digits. */
  method Pad(value: I64, f: string) returns (fraction: I64)
    requires AllDigits(f) && value == NatValue(Kept(f))
    ensures fraction == Padded(f) < SCALE
  {
    fraction := value;
    var digits := |Kept(f)|;
    ValueBound(Kept(f));
    while digits < 8
      invariant |Kept(f)| <= digits <= 8
      invariant 0 <= fraction < Power10(digits) && fraction * Power10(8 - digits) == Padded(f)
    {
      SmallPower(digits + 1);
      PadStep(fraction, Power10(8 - digits - 1));
      fraction := fraction * 10;
      digits := digits + 1;
    }
    ScaleIsPower();
  }

  lemma PadStep(f: nat, p: nat)
    ensures f * (10 * p) == (f * 10) * p
  {
  }

  /** The result of the two parts is exact. */
  lemma PartsDenote(s: string)
    requires WellFormed(s) && forall i :: 8 <= i < |Fraction(s)| ==> Fraction(s)[i] == '0'
    ensures Denotes(s, NatValue(Whole(s)) * SCALE + Padded(Fraction(s)))
  {
    if |Fraction(s)| <= 8 {
      ShortFraction(s);
    } else {
      LongFraction(s);
    }
  }

  lemma OnlyResult(s: string, r: nat)
    requires WellFormed(s) && Denotes(s, r)
    ensures Representable(s) <==> r <= MAXIMUM
  {
    forall v | 0 <= v <= MAXIMUM && Denotes(s, v) ensures v == r {
      DenotedIsUnique(s, v, r);
    }
  }

  /** parse_decimal_1e8: a string is accepted exactly when it is well formed and the number
      it denotes, times 10^8, is an integer of 63 bits; the result is that integer. */
  method ParseDecimal(input: string) returns (r: DecimalResult)
    ensures r.Exact? <==> Representable(input)
    ensures r.Exact? ==> r.value >= 0 && Denotes(input, r.value)
  {
    if input == "" {
      return Rejected(EmptyInput);
    }
    if input[0] == '.' {
      return Rejected(MissingIntegerDigits);
    }
    var error, ok, whole, position := ParseWhole(input);
    if !ok {
      return Rejected(error);
    }
    var fraction: I64 := 0;
    if position < |input| {
      error, ok, fraction := ParseFraction(input, position + 1);
      if !ok {
        return Rejected(error);
      }
    }
    NoFraction();
    PartsDenote(input);
    FinalCheck(whole, fraction);
    ghost var result := whole * SCALE + fraction;
    OnlyResult(input, result);
    if whole > (MAXIMUM - fraction) / SCALE {
      return Rejected(Overflow);
    }
    r := Exact(whole * SCALE + fraction);
  }
}
