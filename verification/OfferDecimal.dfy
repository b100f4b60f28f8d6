/** The canonical form of decimal strings behind offer fingerprints
    (apps/api/src/commercial-offer-snapshot.ts:18-31). */
module OfferDecimal {
  import opened Wrappers

  predicate IsDigit(c: char) {
    '0' <= c <= '9'
  }

  function DigitOf(c: char): (d: nat)
    ensures IsDigit(c) ==> d < 10
  {
    if IsDigit(c) then c as int - '0' as int else 0
  }

  predicate AllDigits(s: string) {
    forall k | 0 <= k < |s| :: IsDigit(s[k])
  }

  // ---------------------------------------------------------------------------
  // Accepted strings
  // ---------------------------------------------------------------------------

  /** The index of the first point, or the length. */
  function PointAt(s: string): (k: nat)
    ensures k <= |s|
    ensures k < |s| ==> s[k] == '.'
    ensures forall j | 0 <= j < k :: s[j] != '.'
  {
    if s == "" || s[0] == '.' then 0 else 1 + PointAt(s[1..])
  }

  function Unsigned(s: string): string {
    if s != "" && s[0] == '-' then s[1..] else s
  }

  function IntegerPart(u: string): string {
    u[..PointAt(u)]
  }

  function DecimalPart(u: string): string {
    if PointAt(u) == |u| then "" else u[PointAt(u) + 1..]
  }

  /** An optional sign, digits, and perhaps a point followed by digits. */
  predicate Accepts(s: string) {
    var u := Unsigned(s);
    && IntegerPart(u) != "" && AllDigits(IntegerPart(u))
    && AllDigits(DecimalPart(u))
    && (PointAt(u) < |u| ==> DecimalPart(u) != "")
  }

  // ---------------------------------------------------------------------------
  // Canonicalisation
  // ---------------------------------------------------------------------------

  /** Drops leading zeros that another digit follows. */
  function StripLeadingZeros(s: string): string {
    if |s| >= 2 && s[0] == '0' then StripLeadingZeros(s[1..]) else s
  }

  function StripTrailingZeros(s: string): string {
    if s != "" && s[|s| - 1] == '0' then StripTrailingZeros(s[..|s| - 1]) else s
  }

  function Magnitude(integer: string, decimal: string): string {
    if decimal != "" then integer + "." + decimal else integer
  }

  /** `None` stands for the error raised on any other form. */
  function Canonicalize(s: string): Option<string> {
    if !Accepts(s) then None
    else
      var u := Unsigned(s);
      var magnitude := Magnitude(StripLeadingZeros(IntegerPart(u)), StripTrailingZeros(DecimalPart(u)));
      Some(if s[0] == '-' && magnitude != "0" then "-" + magnitude else magnitude)
  }

  // ---------------------------------------------------------------------------
  // Values
  // ---------------------------------------------------------------------------

  function IntegerValue(s: string): nat {
    if s == "" then 0 else 10 * IntegerValue(s[..|s| - 1]) + DigitOf(s[|s| - 1])
  }

  /** The value of the digits after a point. */
  function FractionValue(s: string): real {
    if s == "" then 0.0 else (DigitOf(s[0]) as real + FractionValue(s[1..])) / 10.0
  }

  function UnsignedValue(u: string): real {
    IntegerValue(IntegerPart(u)) as real + FractionValue(DecimalPart(u))
  }

  /** The rational number an accepted string denotes. */
  function Value(s: string): real {
    if s != "" && s[0] == '-' then -UnsignedValue(s[1..]) else UnsignedValue(s)
  }

  lemma {:induction false} FractionIsBelowOne(s: string)
    requires AllDigits(s)
    ensures 0.0 <= FractionValue(s) < 1.0
  {
    if s != "" {
      FractionIsBelowOne(s[1..]);
    }
  }

  lemma {:induction false} LeadingZeroIsNothing(s: string)
    requires s != "" && s[0] == '0'
    ensures IntegerValue(s[1..]) == IntegerValue(s)
  {
    if |s| > 1 {
      LeadingZeroIsNothing(s[..|s| - 1]);
      assert s[..|s| - 1][1..] == s[1..][..|s| - 2];
    } else {
      assert s[..0] == "";
    }
  }

  lemma {:induction false} StrippedInteger(s: string)
    requires s != "" && AllDigits(s)
    ensures var r := StripLeadingZeros(s);
      r != "" && AllDigits(r) && (|r| == 1 || r[0] != '0') && IntegerValue(r) == IntegerValue(s)
  {
    if |s| >= 2 && s[0] == '0' {
      LeadingZeroIsNothing(s);
      StrippedInteger(s[1..]);
    }
  }

  lemma {:induction false} TrailingZeroIsNothing(s: string)
    requires s != "" && s[|s| - 1] == '0'
    ensures FractionValue(s[..|s| - 1]) == FractionValue(s)
  {
    if |s| > 1 {
      TrailingZeroIsNothing(s[1..]);
      assert s[1..][..|s| - 2] == s[..|s| - 1][1..];
    }
  }

  lemma {:induction false} StrippedFraction(s: string)
    requires AllDigits(s)
    ensures var r := StripTrailingZeros(s);
      AllDigits(r) && (r == "" || r[|r| - 1] != '0') && FractionValue(r) == FractionValue(s)
  {
    if s != "" && s[|s| - 1] == '0' {
      TrailingZeroIsNothing(s);
      StrippedFraction(s[..|s| - 1]);
    }
  }

  // ---------------------------------------------------------------------------
  // One form for each value
  // ---------------------------------------------------------------------------

  predicate IsCanonicalInteger(s: string) {
    s != "" && AllDigits(s) && (|s| == 1 || s[0] != '0')
  }

  predicate IsCanonicalFraction(s: string) {
    AllDigits(s) && (s == "" || s[|s| - 1] != '0')
  }

  lemma {:induction false} LongIntegersAreBig(s: string)
    requires s != "" && AllDigits(s) && s[0] != '0'
    ensures IntegerValue(s) >= 1 && (|s| >= 2 ==> IntegerValue(s) >= 10)
  {
    if |s| >= 2 {
      LongIntegersAreBig(s[..|s| - 1]);
    } else {
      assert s[..0] == "";
    }
  }

  lemma {:induction false} IntegersAreUnique(s: string, t: string)
    requires IsCanonicalInteger(s) && IsCanonicalInteger(t) && IntegerValue(s) == IntegerValue(t)
    ensures s == t
  {
    if |s| >= 2 {
      LongIntegersAreBig(s);
    }
    if |t| >= 2 {
      LongIntegersAreBig(t);
    }
    var p, q := s[..|s| - 1], t[..|t| - 1];
    assert s == p + [s[|s| - 1]] && t == q + [t[|t| - 1]];
    if |s| >= 2 && |t| >= 2 {
      IntegersAreUnique(p, q);
    }
  }

  lemma {:induction false} ZeroFractionIsEmpty(s: string)
    requires IsCanonicalFraction(s) && FractionValue(s) == 0.0
    ensures s == ""
  {
    if s != "" {
      FractionIsBelowOne(s[1..]);
      if |s| > 1 {
        ZeroFractionIsEmpty(s[1..]);
      }
    }
  }

  lemma {:induction false} FractionsAreUnique(s: string, t: string)
    requires IsCanonicalFraction(s) && IsCanonicalFraction(t) && FractionValue(s) == FractionValue(t)
    ensures s == t
  {
    if s == "" {
      ZeroFractionIsEmpty(t);
    } else if t == "" {
      ZeroFractionIsEmpty(s);
    } else {
      FractionIsBelowOne(s[1..]);
      FractionIsBelowOne(t[1..]);
      assert 10.0 * FractionValue(s) == DigitOf(s[0]) as real + FractionValue(s[1..]);
      assert 10.0 * FractionValue(t) == DigitOf(t[0]) as real + FractionValue(t[1..]);
      assert DigitOf(s[0]) == DigitOf(t[0]);
      FractionsAreUnique(s[1..], t[1..]);
      assert s == [s[0]] + s[1..] && t == [t[0]] + t[1..];
    }
  }

  lemma PointOfMagnitude(integer: string, decimal: string)
    requires AllDigits(integer)
    ensures IntegerPart(Magnitude(integer, decimal)) == integer
    ensures AllDigits(decimal) ==> DecimalPart(Magnitude(integer, decimal)) == decimal
    ensures AllDigits(decimal) && integer != "" ==> Unsigned(Magnitude(integer, decimal)) == Magnitude(integer, decimal)
  {
    var m := Magnitude(integer, decimal);
    assert decimal != "" ==> m[|integer|] == '.';
    assert forall k | 0 <= k < |integer| :: m[k] == integer[k];
  }

  /** What the canonical form is made of. */
  lemma CanonicalParts(s: string) returns (negative: bool, integer: string, decimal: string)
    requires Accepts(s)
    ensures IsCanonicalInteger(integer) && IsCanonicalFraction(decimal)
    ensures negative ==> Magnitude(integer, decimal) != "0"
    ensures Canonicalize(s) == Some(if negative then "-" + Magnitude(integer, decimal) else Magnitude(integer, decimal))
    ensures var v := IntegerValue(integer) as real + FractionValue(decimal);
            v >= 0.0 && Value(s) == if negative then -v else v
  {
    var u := Unsigned(s);
    integer, decimal := StripLeadingZeros(IntegerPart(u)), StripTrailingZeros(DecimalPart(u));
    StrippedInteger(IntegerPart(u));
    StrippedFraction(DecimalPart(u));
    FractionIsBelowOne(decimal);
    negative := s[0] == '-' && Magnitude(integer, decimal) != "0";
    if Magnitude(integer, decimal) == "0" {
      PointOfMagnitude(integer, decimal);
      assert integer == "0" && decimal == "";
      assert IntegerValue("0") == 0;
    }
  }

  /** A canonical string denotes the number it was made for, and is its own canonical form. */
  lemma CanonicalIsFixed(negative: bool, integer: string, decimal: string)
    requires IsCanonicalInteger(integer) && IsCanonicalFraction(decimal)
    requires negative ==> Magnitude(integer, decimal) != "0"
    ensures var c := if negative then "-" + Magnitude(integer, decimal) else Magnitude(integer, decimal);
            var v := IntegerValue(integer) as real + FractionValue(decimal);
      && Accepts(c) && Canonicalize(c) == Some(c)
      && Value(c) == if negative then -v else v
  {
    var m := Magnitude(integer, decimal);
    PointOfMagnitude(integer, decimal);
    assert ("-" + m)[1..] == m;
    assert StripLeadingZeros(integer) == integer && StripTrailingZeros(decimal) == decimal;
  }

  /** Canonicalising again changes nothing, and the value is preserved. */
  lemma CanonicalizeIsIdempotent(s: string)
    requires Accepts(s)
    ensures Canonicalize(s).Some?
    ensures Canonicalize(Canonicalize(s).value) == Canonicalize(s)
    ensures Value(Canonicalize(s).value) == Value(s)
  {
    var negative, integer, decimal := CanonicalParts(s);
    CanonicalIsFixed(negative, integer, decimal);
  }

  lemma {:induction false} ZeroInteger(s: string)
    requires IsCanonicalInteger(s) && IntegerValue(s) == 0
    ensures s == "0"
  {
    if s[0] != '0' {
      LongIntegersAreBig(s);
    }
  }

  /** A negative canonical form is not zero. */
  lemma NegativeIsNotZero(integer: string, decimal: string)
    requires IsCanonicalInteger(integer) && IsCanonicalFraction(decimal) && Magnitude(integer, decimal) != "0"
    ensures IntegerValue(integer) as real + FractionValue(decimal) > 0.0
  {
    FractionIsBelowOne(decimal);
    if IntegerValue(integer) as real + FractionValue(decimal) == 0.0 {
      ZeroInteger(integer);
      ZeroFractionIsEmpty(decimal);
    }
  }

  /** An integer and a fraction are determined by their sum. */
  lemma PartsAreUnique(i: string, d: string, j: string, e: string)
    requires IsCanonicalInteger(i) && IsCanonicalInteger(j) && IsCanonicalFraction(d) && IsCanonicalFraction(e)
    requires IntegerValue(i) as real + FractionValue(d) == IntegerValue(j) as real + FractionValue(e)
    ensures i == j && d == e
  {
    FractionIsBelowOne(d);
    FractionIsBelowOne(e);
    assert IntegerValue(i) == IntegerValue(j);
    IntegersAreUnique(i, j);
    FractionsAreUnique(d, e);
  }

  /** Two accepted strings have the same canonical form exactly when they denote the same
      number, whatever their signs of zero and their leading and trailing zeros. */
  lemma SameFormExactlyWhenSameValue(s: string, t: string)
    requires Accepts(s) && Accepts(t)
    ensures Canonicalize(s) == Canonicalize(t) <==> Value(s) == Value(t)
  {
    CanonicalizeIsIdempotent(s);
    CanonicalizeIsIdempotent(t);
    if Value(s) == Value(t) {
      var n, i, d := CanonicalParts(s);
      var m, j, e := CanonicalParts(t);
      if n {
        NegativeIsNotZero(i, d);
      }
      if m {
        NegativeIsNotZero(j, e);
      }
      PartsAreUnique(i, d, j, e);
    }
  }
}
