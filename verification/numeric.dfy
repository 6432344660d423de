/** Numeric coercion of the device's unit-laden strings (`parse2float`) and the
    0/1 indicator (`bool2float64`). Values are exact reals: float64 rounding is not modelled. */
module Numeric {
  import opened Wrappers
  import opened Text

  predicate IsDecimalChar(c: char) {
    IsDigit(c) || c == '.'
  }

  predicate DecimalChars(s: string) {
    forall i :: 0 <= i < |s| ==> IsDecimalChar(s[i])
  }

  /** The replacement of every run of characters outside `[.0-9]` by nothing:
      the digits and points of `s`, in order. */
  function KeepDecimalChars(s: string): (r: string)
    ensures DecimalChars(r)
    ensures forall c {:trigger multiset(r)[c]} ::
              multiset(r)[c] == if IsDecimalChar(c) then multiset(s)[c] else 0
    ensures DecimalChars(s) ==> r == s
  {
    if s == [] then []
    else
      assert s == [s[0]] + s[1..];
      if IsDecimalChar(s[0]) then [s[0]] + KeepDecimalChars(s[1..]) else KeepDecimalChars(s[1..])
  }

  /** The smallest magnitude `strconv.ParseFloat` reports as out of range for 64 bits:
      halfway between the largest finite double, (2 - 2^-52) * 2^1023, and 2^1024, that is
      2^1024 - 2^970; a tie rounds to the even neighbour, 2^1024, which overflows. */
  const Float64Overflow: int := 0xFF_FFFF_FFFF_FFFC_0000_0000_0000_0000_0000_0000_0000_0000_0000_0000_0000_0000_0000_0000_0000_0000_0000_0000_0000_0000_0000_0000_0000_0000_0000_0000_0000_0000_0000_0000_0000_0000_0000_0000_0000_0000_0000_0000_0000_0000_0000_0000_0000_0000_0000_0000_0000_0000_0000_0000_0000_0000_0000_0000_0000_0000_0000_0000_0000_000000

  /** The shapes `strconv.ParseFloat` accepts among strings of digits and points:
      at most one point and at least one digit. */
  predicate IsDecimalLiteral(r: string) {
    multiset(r)['.'] <= 1 && multiset(r)['.'] < |r|
  }

  function IndexOf(r: string, c: char): (k: nat)
    requires c in r
    ensures k < |r| && r[k] == c && c !in r[..k]
  {
    if r[0] == c then 0
    else
      assert r == [r[0]] + r[1..];
      var k := IndexOf(r[1..], c) + 1;
      assert r[..k] == [r[0]] + r[1..][..k - 1];
      k
  }

  /** A literal with a point splits into a whole part and a fraction, both plain digits. */
  lemma SplitAtPoint(r: string)
    requires DecimalChars(r) && IsDecimalLiteral(r) && '.' in r
    ensures var k := IndexOf(r, '.'); AllDigits(r[..k]) && AllDigits(r[k + 1..])
  {
    var k := IndexOf(r, '.');
    assert r == r[..k] + [r[k]] + r[k + 1..];
    assert multiset(r)['.'] == multiset(r[..k])['.'] + 1 + multiset(r[k + 1..])['.'];
  }

  lemma FractionNonnegative(numerator: nat, denominator: nat)
    requires denominator >= 1
    ensures numerator as real / denominator as real >= 0.0
  {
  }

  /** The exact rational a decimal literal denotes. */
  function ExactValue(r: string): (v: real)
    requires DecimalChars(r) && IsDecimalLiteral(r)
    ensures v >= 0.0
  {
    if '.' in r then
      var k := IndexOf(r, '.');
      SplitAtPoint(r);
      FractionNonnegative(DigitsValue(r[k + 1..]), Pow10(|r| - k - 1));
      DigitsValue(r[..k]) as real + DigitsValue(r[k + 1..]) as real / Pow10(|r| - k - 1) as real
    else
      DigitsValue(r) as real
  }

  /** `strconv.ParseFloat(r, 64)` on a string of digits and points: `None` for a malformed
      literal and for a value out of the float64 range. */
  function ParseFloat(r: string): Option<real>
    requires DecimalChars(r)
  {
    if !IsDecimalLiteral(r) then None
    else if ExactValue(r) >= Float64Overflow as real then None
    else Some(ExactValue(r))
  }

  /** `parse2float`: one pass over the reading that keeps its digits and points, then
      `ParseFloat` on what was kept, with zero when that does not parse. */
  function Parse2Float(s: string): (r: real)
    ensures r >= 0.0
  {
    Scan(s, [])
  }

  /** The rest of the pass: `kept` holds the digits and points seen so far. */
  function Scan(s: string, kept: string): (r: real)
    requires DecimalChars(kept)
    ensures r >= 0.0
    decreases |s|
  {
    if s == [] then ParseFloat(kept).GetOr(0.0)
    else Scan(s[1..], if IsDecimalChar(s[0]) then kept + [s[0]] else kept)
  }

  /** The pass parses what was kept followed by the digits and points of the rest. */
  lemma {:induction false} ScanFilters(s: string, kept: string)
    requires DecimalChars(kept)
    ensures Scan(s, kept) == ParseFloat(kept + KeepDecimalChars(s)).GetOr(0.0)
    decreases |s|
  {
    if s == [] {
      assert kept + [] == kept;
    } else {
      var next := if IsDecimalChar(s[0]) then kept + [s[0]] else kept;
      ScanFilters(s[1..], next);
      KeptStep(s, kept);
    }
  }

  /** One step of the pass moves the first character into `kept` exactly when the filter keeps it. */
  lemma KeptStep(s: string, kept: string)
    requires s != []
    ensures kept + KeepDecimalChars(s)
            == (if IsDecimalChar(s[0]) then kept + [s[0]] else kept) + KeepDecimalChars(s[1..])
  {
    if IsDecimalChar(s[0]) {
      assert KeepDecimalChars(s) == [s[0]] + KeepDecimalChars(s[1..]);
    }
  }

  /** `parse2float` is the regular-expression replacement followed by `ParseFloat`: the
      reading with every character outside `[.0-9]` removed, parsed, or zero when that fails. */
  lemma Parse2FloatFilters(s: string)
    ensures Parse2Float(s) == ParseFloat(KeepDecimalChars(s)).GetOr(0.0)
  {
    ScanFilters(s, []);
    assert [] + KeepDecimalChars(s) == KeepDecimalChars(s);
  }

  /** A reading without a single digit parses to zero. */
  lemma Parse2FloatWithoutDigits(s: string)
    requires forall i :: 0 <= i < |s| ==> !IsDigit(s[i])
    ensures Parse2Float(s) == 0.0
  {
    Parse2FloatFilters(s);
    NoDigitNoLiteral(s);
  }

  /** A reading with two or more points parses to zero, whatever its digits. */
  lemma Parse2FloatOfTwoPoints(s: string)
    requires multiset(s)['.'] >= 2
    ensures Parse2Float(s) == 0.0
  {
    Parse2FloatFilters(s);
  }

  lemma NoDigitNoLiteral(s: string)
    requires forall i :: 0 <= i < |s| ==> !IsDigit(s[i])
    ensures !IsDecimalLiteral(KeepDecimalChars(s))
  {
    var r := KeepDecimalChars(s);
    forall i | 0 <= i < |r| ensures r[i] == '.' {
      assert r[i] in multiset(r);
      assert r[i] in multiset(s);
    }
    AllSameCount(r, '.');
  }

  lemma AllSameCount(r: string, c: char)
    requires forall i :: 0 <= i < |r| ==> r[i] == c
    ensures multiset(r)[c] == |r|
  {
    if r != [] {
      assert r == [r[0]] + r[1..];
      AllSameCount(r[1..], c);
    }
  }

  /** Filtering distributes over concatenation. */
  lemma {:induction false} KeepDecimalCharsAppend(a: string, b: string)
    ensures KeepDecimalChars(a + b) == KeepDecimalChars(a) + KeepDecimalChars(b)
    decreases |a|
  {
    if a == [] {
      assert a + b == b;
    } else {
      assert (a + b)[0] == a[0];
      assert (a + b)[1..] == a[1..] + b;
      KeepDecimalCharsAppend(a[1..], b);
      if IsDecimalChar(a[0]) {
        calc {
          KeepDecimalChars(a + b);
          [a[0]] + KeepDecimalChars(a[1..] + b);
          [a[0]] + (KeepDecimalChars(a[1..]) + KeepDecimalChars(b));
          ([a[0]] + KeepDecimalChars(a[1..])) + KeepDecimalChars(b);
        }
      } else {
        calc {
          KeepDecimalChars(a + b);
          KeepDecimalChars(a[1..] + b);
          KeepDecimalChars(a[1..]) + KeepDecimalChars(b);
        }
      }
    }
  }

  /** Units, signs and spaces around a reading do not change its value: a leading
      minus sign is dropped with them, so `parse2float` never yields a negative number. */
  lemma Parse2FloatIgnoresUnits(s: string, u: string)
    requires forall i :: 0 <= i < |u| ==> !IsDecimalChar(u[i])
    ensures Parse2Float(s + u) == Parse2Float(s)
    ensures Parse2Float(u + s) == Parse2Float(s)
  {
    Parse2FloatFilters(s);
    Parse2FloatFilters(s + u);
    Parse2FloatFilters(u + s);
    KeepDecimalCharsAppend(s, u);
    KeepDecimalCharsAppend(u, s);
    NothingKept(u);
    assert KeepDecimalChars(s) + [] == KeepDecimalChars(s);
    assert [] + KeepDecimalChars(s) == KeepDecimalChars(s);
  }

  lemma {:induction false} NothingKept(u: string)
    requires forall i :: 0 <= i < |u| ==> !IsDecimalChar(u[i])
    ensures KeepDecimalChars(u) == []
  {
    if u != [] {
      NothingKept(u[1..]);
    }
  }

  lemma DigitsHaveNoPoint(w: string)
    requires AllDigits(w)
    ensures multiset(w)['.'] == 0
  {
    if w != [] {
      assert w == [w[0]] + w[1..];
      DigitsHaveNoPoint(w[1..]);
    }
  }

  /** Whole digits, a point and fraction digits form a literal whose only point sits after the whole part. */
  lemma DecimalLiteralParts(whole: string, fraction: string)
    requires AllDigits(whole) && AllDigits(fraction) && |whole| + |fraction| >= 1
    ensures var r := whole + "." + fraction;
            DecimalChars(r) && IsDecimalLiteral(r) && '.' in r && IndexOf(r, '.') == |whole|
  {
    var r := whole + "." + fraction;
    assert DecimalChars(r) by {
      forall i | 0 <= i < |r| ensures IsDecimalChar(r[i]) {
        if i < |whole| { assert r[i] == whole[i]; }
        else if i > |whole| { assert r[i] == fraction[i - |whole| - 1]; }
      }
    }
    DigitsHaveNoPoint(whole);
    DigitsHaveNoPoint(fraction);
    assert multiset(r) == multiset(whole) + multiset(".") + multiset(fraction);
    assert r[|whole|] == '.';
  }

  lemma ExactValueOfDecimal(whole: string, fraction: string)
    requires AllDigits(whole) && AllDigits(fraction) && |whole| + |fraction| >= 1
    ensures var r := whole + "." + fraction;
            DecimalChars(r) && IsDecimalLiteral(r) &&
            ExactValue(r) == DigitsValue(whole) as real + DigitsValue(fraction) as real / Pow10(|fraction|) as real
  {
    var r := whole + "." + fraction;
    DecimalLiteralParts(whole, fraction);
    assert r[..|whole|] == whole;
    assert r[|whole| + 1..] == fraction;
  }

  /** A reading written as whole digits, a point and fraction digits parses to
      whole + fraction / 10^(fraction digits), unless that is out of the float64 range. */
  lemma Parse2FloatOfDecimal(whole: string, fraction: string)
    requires AllDigits(whole) && AllDigits(fraction) && |whole| + |fraction| >= 1
    ensures var v := DigitsValue(whole) as real + DigitsValue(fraction) as real / Pow10(|fraction|) as real;
            Parse2Float(whole + "." + fraction) == if v < Float64Overflow as real then v else 0.0
  {
    var r := whole + "." + fraction;
    ExactValueOfDecimal(whole, fraction);
    Parse2FloatOfDecimalChars(r);
  }

  /** On a string of digits and points alone, `parse2float` is `ParseFloat` with the zero fallback. */
  lemma Parse2FloatOfDecimalChars(r: string)
    requires DecimalChars(r)
    ensures Parse2Float(r) == ParseFloat(r).GetOr(0.0)
  {
    Parse2FloatFilters(r);
    assert KeepDecimalChars(r) == r;
  }

  /** A plain numeral parses to the number it names (the round trip with `FormatNat`). */
  lemma Parse2FloatOfNumeral(n: nat)
    requires n < Float64Overflow
    ensures Parse2Float(FormatNat(n)) == n as real
  {
    var r := FormatNat(n);
    DigitsHaveNoPoint(r);
    assert DecimalChars(r);
    Parse2FloatFilters(r);
  }

  /** `bool2float64`: 1 for true, 0 for false. */
  function Bool2Float64(b: bool): (r: real)
    ensures r == 1.0 <==> b
    ensures r == 0.0 <==> !b
  {
    if b then 1.0 else 0.0
  }
}

/** The device readings used as examples of `parse2float`'s behaviour. */
module NumericExamples {
  import opened Text
  import opened Numeric

  /** A frequency reading with its unit: `123.4 MHz`. */
  lemma Parse2FloatFrequencyExample()
    ensures Parse2Float("123" + "." + "4" + " MHz") == 123.4
  {
    var whole, fraction, unit := "123", "4", " MHz";
    assert DigitsValue(whole) == 123 by {
      var w2 := whole[..2];
      var w1 := w2[..1];
      assert w1[..0] == [];
      assert DigitsValue(w1) == 1;
      assert DigitsValue(w2) == 12;
    }
    assert DigitsValue(fraction) == 4 by { assert fraction[..0] == []; }
    DecimalExample(whole, fraction, 123, 4, 123.4);
    forall i | 0 <= i < |unit| ensures !IsDecimalChar(unit[i]) {
      if i == 0 { assert unit[0] == ' '; }
      else if i == 1 { assert unit[1] == 'M'; }
      else if i == 2 { assert unit[2] == 'H'; }
      else { assert unit[3] == 'z'; }
    }
    Parse2FloatIgnoresUnits(whole + "." + fraction, unit);
  }

  /** A power reading with its unit: `3.5 dBmV`. */
  lemma Parse2FloatPowerExample()
    ensures Parse2Float("3" + "." + "5" + " dBmV") == 3.5
  {
    var whole, fraction, unit := "3", "5", " dBmV";
    assert DigitsValue(whole) == 3 by { assert whole[..0] == []; }
    assert DigitsValue(fraction) == 5 by { assert fraction[..0] == []; }
    DecimalExample(whole, fraction, 3, 5, 3.5);
    forall i | 0 <= i < |unit| ensures !IsDecimalChar(unit[i]) {
      if i == 0 { assert unit[0] == ' '; }
      else if i == 1 { assert unit[1] == 'd'; }
      else if i == 2 { assert unit[2] == 'B'; }
      else if i == 3 { assert unit[3] == 'm'; }
      else { assert unit[4] == 'V'; }
    }
    Parse2FloatIgnoresUnits(whole + "." + fraction, unit);
  }

  /** A negative power reading loses its sign: `-3.5 dBmV`. */
  lemma Parse2FloatNegativeExample()
    ensures Parse2Float("-" + ("3" + "." + "5" + " dBmV")) == 3.5
  {
    Parse2FloatPowerExample();
    Parse2FloatIgnoresUnits("3" + "." + "5" + " dBmV", "-");
  }

  /** One-digit fractions, with the arithmetic spelled out for the solver. */
  lemma DecimalExample(whole: string, fraction: string, w: nat, f: nat, v: real)
    requires AllDigits(whole) && AllDigits(fraction) && |fraction| == 1
    requires DigitsValue(whole) == w && DigitsValue(fraction) == f
    requires v == w as real + f as real / 10.0 && v < 1000000.0
    ensures Parse2Float(whole + "." + fraction) == v
  {
    assert Pow10(|fraction|) as real == 10.0;
    assert DigitsValue(whole) as real + DigitsValue(fraction) as real / Pow10(|fraction|) as real == v;
    assert v < Float64Overflow as real;
    Parse2FloatOfDecimal(whole, fraction);
  }

  /** A reading with no digit at all falls back to zero. */
  lemma Parse2FloatGarbageExample()
    ensures Parse2Float("garbage") == 0.0
  {
    var reading := "garbage";
    assert forall i :: 0 <= i < |reading| ==> !IsDigit(reading[i]);
    Parse2FloatWithoutDigits(reading);
  }

  /** A reading with two points is not a number and falls back to zero. */
  lemma Parse2FloatTwoPointsExample()
    ensures Parse2Float("1.2.3") == 0.0
  {
    var reading := "1.2.3";
    assert reading == "1." + "2." + "3";
    assert multiset(reading)['.'] == 2;
    Parse2FloatOfTwoPoints(reading);
  }
}
