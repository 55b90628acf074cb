/**
 The exact decimal printer of src/type_mapping.rs: a SQL `numeric` is an integer
 and a scale, and its text must denote exactly that pair.
 */
module Decimals {
  import opened Common
  import opened Digits

  type i128 = v: int | -0x8000_0000_0000_0000_0000_0000_0000_0000 <= v < 0x8000_0000_0000_0000_0000_0000_0000_0000
  type u128 = v: int | 0 <= v < 0x1_0000_0000_0000_0000_0000_0000_0000_0000
  type u8 = v: int | 0 <= v < 256

  /** `i128::unsigned_abs`: total, also at the minimum. */
  function UnsignedAbs(value: i128): u128 {
    var v: int := value;
    if v < 0 then -v else v
  }

  /** `format!("{:0>width$}", n)`. */
  function PrintPadded(n: nat, width: nat): (s: string)
    ensures AllDigits(s) && |s| >= width && s != ""
  {
    var digits := Print(n);
    if |digits| >= width then digits else Zeros(width - |digits|) + digits
  }

  function ToDecimalString(value: i128, scale: u8): string {
    var sign := if value < 0 then "-" else "";
    if scale == 0 then sign + Print(UnsignedAbs(value)) else
      var digits := PrintPadded(UnsignedAbs(value), scale + 1);
      var split := |digits| - scale;
      sign + digits[..split] + "." + digits[split..]
  }

  /** The magnitude and scale an unsigned decimal text denotes. */
  function ReadUnsigned(text: string): Option<(nat, nat)> {
    var k := DigitCount(text);
    if k == 0 then None
    else if k == |text| then Some((Value(text), 0))
    else
      var frac := text[k + 1..];
      if text[k] != '.' || frac == "" || !AllDigits(frac) then None
      else
        assert AllDigits(text[..k] + frac);
        Some((Value(text[..k] + frac), |frac|))
  }

  /** The value and scale a decimal text denotes. */
  function ReadDecimal(text: string): Option<(int, nat)> {
    var signed := text != "" && text[0] == '-';
    match ReadUnsigned(if signed then text[1..] else text)
    case None => None
    case Some((magnitude, scale)) =>
      var m: int := magnitude;
      Some((if signed then -m else m, scale))
  }

  /** At least one integer digit and no redundant zero in front; a sign only on a nonzero number. */
  predicate Canonical(text: string) {
    var signed := text != "" && text[0] == '-';
    var body := if signed then text[1..] else text;
    Minimal(body[..DigitCount(body)]) && (signed ==> ReadDecimal(text).Some? && ReadDecimal(text).value.0 != 0)
  }

  lemma PaddedValue(n: nat, width: nat)
    ensures Value(PrintPadded(n, width)) == n
  {
    var digits := Print(n);
    ValueOfPrint(n);
    if |digits| < width {
      LeadingZeros(width - |digits|, digits);
      assert PrintPadded(n, width) == Zeros(width - |digits|) + digits;
    } else {
      assert PrintPadded(n, width) == digits;
    }
  }

  /** The digits either fill more than one integer place without a zero in front, or one place. */
  lemma PaddedIsMinimal(n: nat, scale: nat)
    ensures var d := PrintPadded(n, scale + 1); Minimal(d[..|d| - scale])
  {
    PrintIsMinimal(n);
  }

  /** The unsigned part of the text. */
  function Magnitude(n: nat, scale: nat): string {
    if scale == 0 then Print(n) else
      var digits := PrintPadded(n, scale + 1);
      WithPoint(digits, |digits| - scale)
  }

  function WithPoint(digits: string, split: nat): string
    requires split <= |digits|
  {
    digits[..split] + ("." + digits[split..])
  }

  lemma ReadUnsignedOfParts(whole: string, frac: string)
    requires AllDigits(whole) && AllDigits(frac) && whole != "" && frac != "" && AllDigits(whole + frac)
    ensures DigitCount(whole + ("." + frac)) == |whole|
    ensures ReadUnsigned(whole + ("." + frac)) == Some((Value(whole + frac), |frac|))
  {
    var text := whole + ("." + frac);
    DigitCountUnique(whole, "." + frac);
    assert text[|whole|] == '.' && text[..|whole|] == whole && text[|whole| + 1..] == frac;
  }

  lemma ReadUnsignedOfPoint(digits: string, split: nat)
    requires AllDigits(digits) && 0 < split < |digits|
    ensures DigitCount(WithPoint(digits, split)) == split
    ensures ReadUnsigned(WithPoint(digits, split)) == Some((Value(digits), |digits| - split))
  {
    Halves(digits, split);
    ReadUnsignedOfParts(digits[..split], digits[split..]);
  }

  lemma MagnitudeReads(n: nat, scale: nat)
    ensures var m := Magnitude(n, scale);
            && m != "" && m[0] != '-' && Minimal(m[..DigitCount(m)])
            && ReadUnsigned(m) == Some((n, scale))
  {
    if scale == 0 {
      IntegerReads(n);
    } else {
      var digits := PrintPadded(n, scale + 1);
      PaddedValue(n, scale + 1);
      PaddedIsMinimal(n, scale);
      PointReads(digits, |digits| - scale);
    }
  }

  lemma IntegerReads(n: nat)
    ensures var m := Print(n); m[0] != '-' && Minimal(m[..DigitCount(m)]) && ReadUnsigned(m) == Some((n, 0))
  {
    var m := Print(n);
    ValueOfPrint(n);
    PrintIsMinimal(n);
    DigitCountUnique(m, "");
    Units(m);
    Whole(m);
    assert IsDigit(m[0]);
  }

  lemma PointReads(digits: string, split: nat)
    requires AllDigits(digits) && 0 < split < |digits| && Minimal(digits[..split])
    ensures var m := WithPoint(digits, split);
      && m != "" && m[0] != '-' && Minimal(m[..DigitCount(m)])
      && ReadUnsigned(m) == Some((Value(digits), |digits| - split))
  {
    ReadUnsignedOfPoint(digits, split);
    Cut(digits[..split], "." + digits[split..]);
    assert WithPoint(digits, split)[0] == digits[0];
    assert IsDigit(digits[0]);
  }

  lemma TextIsSignAndMagnitude(value: i128, scale: u8)
    ensures ToDecimalString(value, scale) == (if value < 0 then "-" else "") + Magnitude(UnsignedAbs(value), scale)
  {
  }

  /** Reading the text gives back exactly the value and the scale, for every i128 and every scale. */
  lemma RoundTrip(value: i128, scale: u8)
    ensures ReadDecimal(ToDecimalString(value, scale)) == Some((value, scale))
    ensures Canonical(ToDecimalString(value, scale))
  {
    TextIsSignAndMagnitude(value, scale);
    var m := Magnitude(UnsignedAbs(value), scale);
    MagnitudeReads(UnsignedAbs(value), scale);
    assert ("-" + m)[1..] == m && "" + m == m;
  }

  /** Two numerics print alike only when they are the same pair, so scale is never lost. */
  lemma Injective(v: i128, s: u8, w: i128, t: u8)
    requires ToDecimalString(v, s) == ToDecimalString(w, t)
    ensures v == w && s == t
  {
    RoundTrip(v, s);
    RoundTrip(w, t);
  }

  lemma {:induction false} StripZeros(digits: string) returns (z: nat)
    requires AllDigits(digits) && digits != ""
    ensures z < |digits| && digits == Zeros(z) + digits[z..] && Minimal(digits[z..])
  {
    if Minimal(digits) {
      z := 0;
    } else {
      var y := StripZeros(digits[1..]);
      z := y + 1;
      assert digits[1..][y..] == digits[z..];
      assert digits == [digits[0]] + digits[1..];
      assert Zeros(z) == ['0'] + Zeros(y);
    }
  }

  /** A digit string with a minimal integer part is what padding prints for its value. */
  lemma PaddedIsUnique(digits: string, k: nat, scale: nat)
    requires AllDigits(digits) && 0 < k && |digits| == k + scale && scale > 0 && Minimal(digits[..k])
    ensures PrintPadded(Value(digits), scale + 1) == digits
  {
    var z := StripZeros(digits);
    LeadingZeros(z, digits[z..]);
    PrintOfValue(digits[z..]);
    if k > 1 {
      assert digits[0] == digits[..k][0];
      assert digits[0..] == digits;
    }
  }

  lemma MagnitudeOfRead(body: string)
    requires ReadUnsigned(body).Some? && Minimal(body[..DigitCount(body)])
    ensures Magnitude(ReadUnsigned(body).value.0, ReadUnsigned(body).value.1) == body
  {
    var k := DigitCount(body);
    assert body[..|body|] == body;
    if k == |body| {
      PrintOfValue(body);
    } else {
      var digits := body[..k] + body[k + 1..];
      PaddedIsUnique(digits, k, |body| - k - 1);
      assert digits[..k] == body[..k] && digits[k..] == body[k + 1..];
      assert body == body[..k] + ([body[k]] + body[k + 1..]);
    }
  }

  /** `ToDecimalString` prints exactly the canonical texts: every canonical text in range is its image. */
  lemma CanonicalIsPrinted(text: string, value: i128, scale: u8)
    requires Canonical(text) && ReadDecimal(text) == Some((value, scale))
    ensures ToDecimalString(value, scale) == text
  {
    TextIsSignAndMagnitude(value, scale);
    MagnitudeOfRead(if text[0] == '-' then text[1..] else text);
    Uncons(text);
  }
}
