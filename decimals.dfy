/** Python's `decimal.Decimal`, restricted to the literals the pages carry:
    an optional sign, digits, and at most one decimal point. A value is kept
    the way Python keeps it, as a sign, an unscaled coefficient and an
    exponent, so no digit of the literal is ever lost or rounded. */
module Decimals {
  import opened PyBuiltins

  /** (-1)^negative * coefficient * 10^exponent. `Decimal('1.50')` is
      Decimal(false, 150, -2): trailing zeros are kept, and so is the sign of
      a negative zero. */
  datatype Decimal = Decimal(negative: bool, coefficient: nat, exponent: int)

  /** `Decimal(s)`; a literal outside the grammar above raises
      InvalidOperation. */
  function ParseDecimal(s: string): (r: Result<Decimal>)
    ensures r.Ok? ==> r.value.exponent <= 0
    ensures r.Err? ==> r.error == InvalidOperation
  {
    var negative := |s| > 0 && s[0] == '-';
    var body := if |s| > 0 && (s[0] == '+' || s[0] == '-') then s[1..] else s;
    var parts := Split(body, '.');
    if |parts| > 2 then Err(InvalidOperation)
    else
      var whole := parts[0];
      var fraction := if |parts| == 2 then parts[1] else "";
      if whole + fraction != [] && AllDigits(whole + fraction) then
        Ok(Decimal(negative, DigitsValue(whole + fraction), -|fraction|))
      else Err(InvalidOperation)
  }

  function Zeros(n: nat): (z: string)
    ensures |z| == n && forall i :: 0 <= i < n ==> z[i] == '0'
  {
    seq(n, _ => '0')
  }

  /** The coefficient's digits, padded with leading zeros to at least
      -exponent + 1 digits. */
  function Padded(coefficient: nat, exponent: int): string
    requires exponent <= 0
  {
    var digits := NatToString(coefficient);
    var width := -exponent + 1;
    (if |digits| < width then Zeros(width - |digits|) else "") + digits
  }

  /** The unsigned part of a rendering: the digits before the point and,
      when the exponent is negative, the point and the digits after it. */
  function UnsignedPart(padded: string, exponent: int): string
    requires exponent <= 0 && |padded| >= -exponent + 1
  {
    var k := |padded| + exponent;
    padded[..k] + (if exponent < 0 then "." + padded[k..] else "")
  }

  /** Fixed-point rendering of a decimal with a non-positive exponent: at
      least one digit before the point, and exactly -exponent digits after
      it. */
  function Render(d: Decimal): string
    requires d.exponent <= 0
  {
    PaddedWidth(d.coefficient, d.exponent);
    (if d.negative then "-" else "") + UnsignedPart(Padded(d.coefficient, d.exponent), d.exponent)
  }

  lemma PaddedWidth(coefficient: nat, exponent: int)
    requires exponent <= 0
    ensures |Padded(coefficient, exponent)| >= -exponent + 1
  {
  }

  /** Padding keeps the digits' value. */
  lemma PaddedValue(coefficient: nat, exponent: int)
    requires exponent <= 0
    ensures AllDigits(Padded(coefficient, exponent))
    ensures DigitsValue(Padded(coefficient, exponent)) == coefficient
  {
    var digits := NatToString(coefficient);
    var width := -exponent + 1;
    var pad := if |digits| < width then Zeros(width - |digits|) else "";
    LeadingZeros(pad, digits);
    NatToStringValue(coefficient);
  }

  /** A literal with a point is read digit for digit: the coefficient is all
      its digits, the exponent minus the number of digits after the point. */
  lemma ParseDecimalExact(whole: string, fraction: string)
    requires AllDigits(whole) && AllDigits(fraction) && whole + fraction != []
    ensures AllDigits(whole + fraction)
    ensures ParseDecimal(whole + "." + fraction)
         == Ok(Decimal(false, DigitsValue(whole + fraction), -|fraction|))
  {
    DigitsJoin(whole, fraction);
    var s := whole + "." + fraction;
    PointSplit(whole, fraction);
    assert |s| > 0 && s[0] != '+' && s[0] != '-' by {
      if whole != [] {
        assert s[0] == whole[0] && IsDigit(whole[0]);
      } else {
        assert s[0] == '.';
      }
    }
  }

  lemma DigitsJoin(a: string, b: string)
    requires AllDigits(a) && AllDigits(b)
    ensures AllDigits(a + b)
  {
    var t := a + b;
    forall i | 0 <= i < |t| ensures IsDigit(t[i]) {
      if i < |a| { assert t[i] == a[i]; } else { assert t[i] == b[i - |a|]; }
    }
  }

  /** Splitting `whole.fraction` at the point gives back both halves. */
  lemma PointSplit(whole: string, fraction: string)
    requires AllDigits(whole) && AllDigits(fraction)
    ensures Split(whole + "." + fraction, '.') == [whole, fraction]
  {
    NoPoint(whole);
    NoPoint(fraction);
    assert whole + "." + fraction == whole + ['.'] + fraction;
    SplitAtFirst(whole, '.', fraction);
    SplitWithoutSeparator(fraction, '.');
  }

  lemma NoPoint(s: string)
    requires AllDigits(s)
    ensures '.' !in s
  {
  }

  /** A leading minus sign only sets the sign of what the rest parses to. */
  lemma ParseSigned(negative: bool, body: string)
    requires body != [] && IsDigit(body[0]) && ParseDecimal(body).Ok?
    ensures ParseDecimal((if negative then "-" else "") + body)
         == Ok(ParseDecimal(body).value.(negative := negative))
  {
    var s := (if negative then "-" else "") + body;
    if negative {
      assert s[0] == '-' && s[1..] == body;
    } else {
      assert s == body;
    }
  }

  /** An unsigned digit string without a point parses to exponent zero. */
  lemma ParseDecimalInteger(digits: string)
    requires digits != [] && AllDigits(digits)
    ensures ParseDecimal(digits) == Ok(Decimal(false, DigitsValue(digits), 0))
  {
    NoPoint(digits);
    SplitWithoutSeparator(digits, '.');
    assert IsDigit(digits[0]);
    assert digits + "" == digits;
  }

  /** Both halves of a digit string are digit strings. */
  lemma SliceDigits(s: string, k: nat)
    requires AllDigits(s) && k <= |s|
    ensures AllDigits(s[..k]) && AllDigits(s[k..]) && s[..k] + s[k..] == s
  {
  }

  /** The unsigned part of a rendering parses back to the coefficient and
      the exponent. */
  lemma RenderUnsigned(exponent: int, padded: string)
    requires exponent <= 0
    requires AllDigits(padded) && |padded| >= -exponent + 1
    ensures UnsignedPart(padded, exponent) != [] && IsDigit(UnsignedPart(padded, exponent)[0])
    ensures ParseDecimal(UnsignedPart(padded, exponent)) == Ok(Decimal(false, DigitsValue(padded), exponent))
  {
    var k := |padded| + exponent;
    if exponent < 0 {
      var w, f := padded[..k], padded[k..];
      SliceDigits(padded, k);
      assert UnsignedPart(padded, exponent) == w + "." + f;
      assert IsDigit(padded[0]) && w[0] == padded[0];
      ParseDecimalExact(w, f);
    } else {
      assert UnsignedPart(padded, exponent) == padded by {
        assert padded[..k] == padded;
      }
      ParseDecimalInteger(padded);
    }
  }

  /** The characters a rendering is made of. */
  predicate RenderChar(c: char) { IsDigit(c) || c == '-' || c == '.' }

  /** A rendering holds only digits, a leading minus sign and the point,
      and it ends with a digit. */
  lemma RenderAlphabet(d: Decimal)
    requires d.exponent <= 0
    ensures forall i :: 0 <= i < |Render(d)| ==> RenderChar(Render(d)[i])
    ensures Render(d) != [] && IsDigit(Render(d)[|Render(d)| - 1])
  {
    PaddedWidth(d.coefficient, d.exponent);
    PaddedValue(d.coefficient, d.exponent);
    var padded := Padded(d.coefficient, d.exponent);
    var u := UnsignedPart(padded, d.exponent);
    UnsignedAlphabet(padded, d.exponent);
    var sign := if d.negative then "-" else "";
    assert Render(d) == sign + u;
    SignedAlphabet(sign, u);
  }

  lemma SignedAlphabet(sign: string, u: string)
    requires sign == "" || sign == "-"
    requires u != [] && IsDigit(u[|u| - 1])
    requires forall i :: 0 <= i < |u| ==> IsDigit(u[i]) || u[i] == '.'
    ensures forall i :: 0 <= i < |sign + u| ==> RenderChar((sign + u)[i])
    ensures IsDigit((sign + u)[|sign + u| - 1])
  {
    var t := sign + u;
    forall i | 0 <= i < |t| ensures RenderChar(t[i]) {
      if i < |sign| { assert t[i] == '-'; } else { assert t[i] == u[i - |sign|]; }
    }
    assert t[|t| - 1] == u[|u| - 1];
  }

  lemma UnsignedAlphabet(padded: string, exponent: int)
    requires exponent <= 0 && |padded| >= -exponent + 1 && AllDigits(padded)
    ensures var u := UnsignedPart(padded, exponent);
      && u != [] && IsDigit(u[|u| - 1])
      && forall i :: 0 <= i < |u| ==> IsDigit(u[i]) || u[i] == '.'
  {
    var k := |padded| + exponent;
    var u := UnsignedPart(padded, exponent);
    if exponent < 0 {
      var w, f := padded[..k], padded[k..];
      assert u == w + ['.'] + f;
      forall i | 0 <= i < |u| ensures IsDigit(u[i]) || u[i] == '.' {
        if i < k { assert u[i] == padded[i]; }
        else if i > k { assert u[i] == padded[i - 1]; }
      }
      assert u[|u| - 1] == padded[|padded| - 1];
    } else {
      assert u == padded[..k] && padded[..k] == padded;
    }
  }

  /** Rendering and re-parsing gives back the same sign, coefficient and
      exponent. */
  lemma RenderParse(d: Decimal)
    requires d.exponent <= 0
    ensures ParseDecimal(Render(d)) == Ok(d)
  {
    PaddedWidth(d.coefficient, d.exponent);
    PaddedValue(d.coefficient, d.exponent);
    var padded := Padded(d.coefficient, d.exponent);
    RenderUnsigned(d.exponent, padded);
    ParseSigned(d.negative, UnsignedPart(padded, d.exponent));
  }

  /** Money coercion is stable under re-serialisation: whatever a literal
      parses to, its rendering parses to the same value again. */
  lemma ParseRenderParse(s: string)
    requires ParseDecimal(s).Ok?
    ensures ParseDecimal(Render(ParseDecimal(s).value)) == ParseDecimal(s)
  {
    RenderParse(ParseDecimal(s).value);
  }
}
