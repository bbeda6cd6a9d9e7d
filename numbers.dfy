/** Decimal notation: `String(n)` for a natural number and `parseFloat` on
    plain decimal prices, which the model keeps in millionths (micro-USD). */
module Numbers {
  import opened Base
  import opened Text

  predicate IsDigit(c: char) {
    '0' <= c <= '9'
  }

  predicate AllDigits(s: string) {
    forall i :: 0 <= i < |s| ==> IsDigit(s[i])
  }

  function DigitValue(c: char): (d: nat)
    requires IsDigit(c)
    ensures d < 10
  {
    c as int - '0' as int
  }

  function Digit(d: nat): (c: char)
    requires d < 10
    ensures IsDigit(c) && DigitValue(c) == d
  {
    ('0' as int + d) as char
  }

  /** `String(n)`: decimal digits, most significant first, no leading zero. */
  function NatToString(n: nat): (s: string)
    ensures |s| >= 1 && AllDigits(s)
    ensures s[0] == '0' <==> n == 0
    decreases n
  {
    if n < 10 then [Digit(n)] else NatToString(n / 10) + [Digit(n % 10)]
  }

  /** The number a string of digits denotes. */
  function DigitsValue(s: string): nat
    requires AllDigits(s)
  {
    if s == [] then 0 else DigitsValue(s[..|s| - 1]) * 10 + DigitValue(s[|s| - 1])
  }

  /** Reading back what `NatToString` wrote gives the number. */
  lemma {:induction false} DigitsValueOfNatToString(n: nat)
    ensures DigitsValue(NatToString(n)) == n
    decreases n
  {
    if n >= 10 {
      DigitsValueOfNatToString(n / 10);
      var s := NatToString(n);
      assert s[..|s| - 1] == NatToString(n / 10);
    }
  }

  /** Different numbers are written differently. */
  lemma NatToStringInjective(m: nat, n: nat)
    requires NatToString(m) == NatToString(n)
    ensures m == n
  {
    DigitsValueOfNatToString(m);
    DigitsValueOfNatToString(n);
  }

  /** The length of the longest prefix of digits. */
  function DigitRun(s: string): (k: nat)
    ensures k <= |s| && AllDigits(s[..k])
    ensures k < |s| ==> !IsDigit(s[k])
  {
    if s == [] || !IsDigit(s[0]) then 0
    else
      var k := 1 + DigitRun(s[1..]);
      assert s[..k] == [s[0]] + s[1..][..k - 1];
      k
  }

  /** Millionths in one unit. */
  const Micro: nat := 1000000

  /** The first six digits of a fraction, padded with zeros. */
  function SixPlaces(frac: string): (r: string)
    requires AllDigits(frac)
    ensures |r| == 6 && AllDigits(r)
  {
    if |frac| >= 6 then frac[..6] else frac + seq(6 - |frac|, _ => '0')
  }

  /** `k` zeros denote zero. */
  lemma {:induction false} DigitsValueZeros(k: nat)
    ensures AllDigits(seq(k, _ => '0')) && DigitsValue(seq(k, _ => '0')) == 0
  {
    if k > 0 {
      DigitsValueZeros(k - 1);
      assert seq(k, _ => '0')[..k - 1] == seq(k - 1, _ => '0');
    }
  }

  /** The digits before the point and the digits right after it, at the
      start of `u`. */
  function Mantissa(u: string): (r: (string, string))
    ensures AllDigits(r.0) && AllDigits(r.1)
    ensures r.0 == u[..DigitRun(u)]
    ensures DigitRun(u) == |u| ==> r.1 == []
  {
    var k := DigitRun(u);
    var rest := u[k..];
    var frac := if rest != [] && rest[0] == '.' then rest[1..][..DigitRun(rest[1..])] else [];
    (u[..k], frac)
  }

  /** The value of unsigned decimal notation at the start of `u`, in
      millionths; `None` when it holds no digit before or right after the
      point. */
  function ParseUnsigned(u: string): (r: Option<nat>)
  {
    var m := Mantissa(u);
    if m.0 == [] && m.1 == [] then None
    else Some(DigitsValue(m.0) * Micro + DigitsValue(SixPlaces(m.1)))
  }

  /** What `parseFloat` reads after the leading white space and the sign. */
  function Unsigned(s: string): string {
    var t := TrimStart(s);
    if t != [] && (t[0] == '-' || t[0] == '+') then t[1..] else t
  }

  /** The number carries a minus sign. */
  predicate Negative(s: string) {
    TrimStart(s) != [] && TrimStart(s)[0] == '-'
  }

  /** `parseFloat(s)` in millionths, for decimal notation: leading white
      space, an optional sign, digits, then optionally '.' and more digits;
      whatever follows is ignored, digits past the sixth decimal are cut
      off, and no digit at all gives NaN (`None`). */
  function ParseDecimal(s: string): (r: Option<int>)
    ensures var m := Mantissa(Unsigned(s));
            r.None? <==> m.0 == [] && m.1 == []
    ensures r.Some? ==> && ParseUnsigned(Unsigned(s)).Some?
                        && r.value == if Negative(s) then -(ParseUnsigned(Unsigned(s)).value as int) else ParseUnsigned(Unsigned(s)).value
  {
    var t := TrimStart(s);
    if t != [] && t[0] == '-' then
      match ParseUnsigned(t[1..])
      case None => None
      case Some(v) => Some(0 - v)
    else if t != [] && t[0] == '+' then
      match ParseUnsigned(t[1..])
      case None => None
      case Some(v) => Some(v)
    else
      match ParseUnsigned(t)
      case None => None
      case Some(v) => Some(v)
  }

  /** What `parseFloat` makes of decimal notation: the sign applied to the
      whole digits plus the first six decimals, in millionths. */
  lemma ParseDecimalMeaning(s: string)
    requires ParseDecimal(s).Some?
    ensures var m := Mantissa(Unsigned(s));
            var v := DigitsValue(m.0) * Micro + DigitsValue(SixPlaces(m.1));
            ParseDecimal(s).value == if Negative(s) then -v else v
  {
  }

  /** Digits followed by a non-digit: the run stops exactly there. */
  lemma {:induction false} DigitRunOfDigits(a: string, b: string)
    requires AllDigits(a)
    requires b == [] || !IsDigit(b[0])
    ensures DigitRun(a + b) == |a|
  {
    if a != [] {
      assert (a + b)[0] == a[0] && (a + b)[1..] == a[1..] + b;
      DigitRunOfDigits(a[1..], b);
    } else {
      assert a + b == b;
    }
  }

  /** Digits, a point and digits split into their two runs. */
  lemma MantissaOfPoint(w: string, f: string)
    requires AllDigits(w) && AllDigits(f)
    ensures Mantissa(w + "." + f) == (w, f)
  {
    var s := w + "." + f;
    DigitRunOfDigits(w, "." + f);
    assert s == w + ("." + f);
    assert s[..|w|] == w && s[|w|..] == "." + f;
    DigitRunOfDigits(f, []);
    assert f + [] == f && f[..|f|] == f;
    assert ("." + f)[1..] == f;
  }

  /** A price written as a whole number, a point and six decimals parses
      back to itself. */
  lemma ParseDecimalOfFixed(n: nat, f: string)
    requires |f| == 6 && AllDigits(f)
    ensures ParseDecimal(NatToString(n) + "." + f) == Some(n * Micro + DigitsValue(f))
  {
    DigitsValueOfNatToString(n);
    ParseDecimalOfPoint(NatToString(n), f, n);
  }

  /** Digits worth `v`, a point and six decimals parse to `v` and the
      decimals. */
  lemma ParseDecimalOfPoint(w: string, f: string, v: nat)
    requires w != [] && AllDigits(w) && AllDigits(f) && |f| == 6 && DigitsValue(w) == v
    ensures ParseDecimal(w + "." + f) == Some(v * Micro + DigitsValue(f))
  {
    var s := w + "." + f;
    assert s[0] == w[0];
    ParseDecimalUnsigned(s);
    ParseUnsignedOfPoint(w, f, v);
  }

  /** Digits, a point and six decimals, read without a sign. */
  lemma ParseUnsignedOfPoint(w: string, f: string, v: nat)
    requires AllDigits(w) && AllDigits(f) && |f| == 6 && DigitsValue(w) == v
    ensures ParseUnsigned(w + "." + f) == Some(v * Micro + DigitsValue(f))
  {
    MantissaOfPoint(w, f);
    ParseUnsignedOfMantissa(w + "." + f, w, f, v);
  }

  /** Six decimals are kept as they are. */
  lemma SixPlacesFull(f: string)
    requires |f| == 6 && AllDigits(f)
    ensures SixPlaces(f) == f
  {
    assert f[..6] == f;
  }

  /** A mantissa with six decimals is their value plus the whole part. */
  lemma ParseUnsignedOfMantissa(u: string, w: string, f: string, v: nat)
    requires AllDigits(w) && AllDigits(f) && |f| == 6 && Mantissa(u) == (w, f) && DigitsValue(w) == v
    ensures ParseUnsigned(u) == Some(v * Micro + DigitsValue(f))
  {
    SixPlacesFull(f);
  }

  /** A string of digits is all mantissa, with no fraction. */
  lemma MantissaOfDigits(u: string)
    requires AllDigits(u)
    ensures Mantissa(u) == (u, [])
  {
    assert u[..|u|] == u;
  }

  /** An absent fraction adds nothing. */
  lemma NoFraction()
    ensures DigitsValue(SixPlaces([])) == 0
  {
    DigitsValueZeros(6);
    assert SixPlaces([]) == seq(6, _ => '0');
  }

  /** Digits alone parse to that many units. */
  lemma ParseUnsignedOfDigits(u: string)
    requires |u| >= 1 && AllDigits(u)
    ensures ParseUnsigned(u).Some? && ParseUnsigned(u).value == DigitsValue(u) * Micro
  {
    MantissaOfDigits(u);
    NoFraction();
  }

  /** Text that starts with a digit is read without a sign. */
  lemma ParseDecimalUnsigned(s: string)
    requires s != [] && IsDigit(s[0])
    ensures ParseUnsigned(s).Some? && ParseDecimal(s) == Some(ParseUnsigned(s).value)
  {
    assert !IsSpace(s[0]);
    assert TrimStart(s) == s;
    assert DigitRun(s) > 0;
  }

  /** A whole number written out parses to that many units. */
  lemma ParseDecimalOfNat(n: nat)
    ensures ParseDecimal(NatToString(n)) == Some(n * Micro)
  {
    var s := NatToString(n);
    ParseDecimalUnsigned(s);
    ParseUnsignedOfDigits(s);
    DigitsValueOfNatToString(n);
  }

  /** Text that does not start with a digit, a sign or a point, once white
      space is skipped, is NaN. */
  lemma ParseDecimalNaN(s: string)
    requires var t := TrimStart(s); t == [] || !(IsDigit(t[0]) || t[0] == '+' || t[0] == '-' || t[0] == '.')
    ensures ParseDecimal(s) == None
  {
  }

  lemma MantissaThousandths(s: string, d: char)
    requires IsDigit(d) && s == "0.00" + [d]
    ensures Mantissa(s) == ("0", "00" + [d])
  {
    assert DigitRun(s) == 1;
    assert s[1..] == ".00" + [d] && s[..1] == "0";
    var f := "00" + [d];
    assert s[1..][1..] == f;
    assert f[1..][1..] == [d] && [d][1..] == [];
    assert DigitRun(f) == 3 && f[..3] == f;
  }

  lemma FractionThousandths(d: char)
    requires IsDigit(d)
    ensures DigitsValue(SixPlaces("00" + [d])) == DigitValue(d) * 1000
  {
    var six := SixPlaces("00" + [d]);
    assert six == "00" + [d] + "000";
    assert DigitsValue("0") == 0;
    assert DigitsValue("00") == 0 by { assert "00"[..1] == "0"; }
    assert DigitsValue(six[..3]) == DigitValue(d) by { assert six[..3][..2] == "00"; }
    assert DigitsValue(six[..4]) == DigitValue(d) * 10 by { assert six[..4][..3] == six[..3]; }
    assert DigitsValue(six[..5]) == DigitValue(d) * 100 by { assert six[..5][..4] == six[..4]; }
    assert DigitsValue(six) == DigitValue(d) * 1000 by { assert six[..5] == six[..5]; }
  }

  /** "0.00d" is d thousandths: d * 1000 millionths. */
  lemma ParseThousandths(d: char)
    requires IsDigit(d)
    ensures ParseDecimal("0.00" + [d]) == Some(DigitValue(d) * 1000)
  {
    var s := "0.00" + [d];
    ParseDecimalUnsigned(s);
    MantissaThousandths(s, d);
    FractionThousandths(d);
    assert DigitsValue("0") == 0;
  }
}
