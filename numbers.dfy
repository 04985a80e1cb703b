/** The subset of Python's float() and int() conversions of strings that the
    model relies on: surrounding white space, an optional sign and ASCII
    decimal digits (with at most one decimal point for float()). Values are
    exact reals: binary floating-point rounding is not modelled. */
module Numbers {
  import opened Text

  function Pow10(k: nat): (p: nat)
    ensures p >= 1
  {
    if k == 0 then 1 else 10 * Pow10(k - 1)
  }

  /** Index of the first occurrence of c in s, or |s| when there is none. */
  function IndexOf(s: string, c: char): (i: nat)
    ensures i <= |s| && c !in s[..i]
    ensures i < |s| ==> s[i] == c
  {
    if s == [] then 0
    else if s[0] == c then 0
    else
      var k := IndexOf(s[1..], c);
      assert s[..k + 1] == [s[0]] + s[1..][..k];
      k + 1
  }

  /** m / 10^k, by repeated division by ten. */
  function Scale(m: int, k: nat): real {
    if k == 0 then m as real else Scale(m, k - 1) / 10.0
  }

  /** An unsigned decimal literal: digits, optionally one point and more
      digits, with at least one digit in all. */
  predicate IsUnsignedDecimal(s: string) {
    var i := IndexOf(s, '.');
    AllDigits(s[..i]) && (i < |s| ==> AllDigits(s[i + 1..])) && |s| >= 1 && s != "."
  }

  /** The value of an unsigned decimal literal: its digits over 10 to the
      number of digits after the point. */
  function DecimalValue(s: string): real
    requires IsUnsignedDecimal(s)
  {
    var i := IndexOf(s, '.');
    var frac := if i < |s| then s[i + 1..] else "";
    assert AllDigits(s[..i] + frac);
    Scale(DigitsValue(s[..i] + frac), |frac|)
  }

  function ParseUnsignedDecimal(s: string): Option<real> {
    if IsUnsignedDecimal(s) then Some(DecimalValue(s)) else None
  }

  /** Splits an optional leading sign off s. */
  function SignAndBody(s: string): (bool, string) {
    if |s| > 0 && (s[0] == '+' || s[0] == '-') then (s[0] == '-', s[1..]) else (false, s)
  }

  /** Python's float(s) on a string, for plain decimal literals. */
  function ParseFloat(s: string): Option<real> {
    var (negative, body) := SignAndBody(Strip(s));
    match ParseUnsignedDecimal(body)
    case None => None
    case Some(x) => Some(if negative then -x else x)
  }

  /** Python's int(s) on a string, for plain decimal literals. */
  function ParseInt(s: string): Option<int> {
    var (negative, body) := SignAndBody(Strip(s));
    if |body| >= 1 && AllDigits(body) then
      var v: int := DigitsValue(body);
      Some(if negative then -v else v)
    else None
  }

  lemma UnsignedDecimalOnePoint(body: string)
    requires IsUnsignedDecimal(body)
    ensures Count(body, {'.'}) <= 1
  {
    var i := IndexOf(body, '.');
    var whole := body[..i];
    CountNone(whole, {'.'});
    if i < |body| {
      var frac := body[i + 1..];
      assert AllDigits(frac);
      assert forall k :: 0 <= k < |frac| ==> frac[k] != '.';
      CountNone(frac, {'.'});
      assert body == whole + ['.'] + frac;
      CountAppend(whole + ['.'], frac, {'.'});
      CountAppend(whole, ['.'], {'.'});
    } else {
      assert body == whole;
    }
  }

  lemma ParseFloatSome(s: string)
    ensures ParseFloat(s).Some? <==> IsUnsignedDecimal(SignAndBody(Strip(s)).1)
  {
  }

  lemma CountSignAndBody(u: string, cs: set<char>)
    requires '+' !in cs && '-' !in cs
    ensures Count(SignAndBody(u).1, cs) == Count(u, cs)
  {
    if |u| > 0 && (u[0] == '+' || u[0] == '-') {
      assert u == [u[0]] + u[1..];
      CountAppend([u[0]], u[1..], cs);
    }
  }

  /** A number float() accepts holds at most one decimal point. */
  lemma ParseFloatOnePoint(s: string)
    requires ParseFloat(s).Some?
    ensures Count(s, {'.'}) <= 1
  {
    ParseFloatSome(s);
    CountStrip(s, {'.'});
    CountSignAndBody(Strip(s), {'.'});
    UnsignedDecimalOnePoint(SignAndBody(Strip(s)).1);
  }

  lemma UnsignedDecimalParts(w: string, f: string)
    requires AllDigits(w) && AllDigits(f) && |w| >= 1
    ensures ParseUnsignedDecimal(w + "." + f)
         == Some(Scale(DigitsValue(w + f), |f|))
  {
    var t := w + "." + f;
    assert t[|w|] == '.' && t[..|w|] == w;
    assert IndexOf(t, '.') == |w|;
    assert t[|w| + 1..] == f;
    assert AllDigits(w + f);
  }

  /** float() reads "w.f" as the digits of w and f over 10^|f|. */
  lemma ParseFloatDecimal(w: string, f: string)
    requires AllDigits(w) && AllDigits(f) && |w| >= 1
    ensures ParseFloat(w + "." + f) == Some(Scale(DigitsValue(w + f), |f|))
  {
    var t := w + "." + f;
    assert IsDigit(t[0]);
    assert t[|t| - 1] == '.' || IsDigit(t[|t| - 1]);
    StripUnchanged(t);
    assert SignAndBody(t) == (false, t);
    UnsignedDecimalParts(w, f);
  }

  /** Python's str(i) for an int. */
  function IntToString(i: int): (s: string)
    ensures s != [] && !IsSpace(s[0]) && !IsSpace(s[|s| - 1])
    ensures ',' !in s && IsDigit(s[|s| - 1])
  {
    var digits := NatToString(if i < 0 then -i else i);
    assert forall k :: 0 <= k < |digits| ==> digits[k] != ',' && !IsSpace(digits[k]);
    if i < 0 then "-" + digits else digits
  }

  /** int() reads back what str() wrote. */
  lemma IntToStringRoundTrip(i: int)
    ensures ParseInt(IntToString(i)) == Some(i)
  {
    var s := IntToString(i);
    StripUnchanged(s);
    NatToStringValue(if i < 0 then -i else i);
  }

  lemma UnsignedDecimalOfDigits(d: string)
    requires AllDigits(d) && |d| >= 1
    ensures IsUnsignedDecimal(d) && DecimalValue(d) == DigitsValue(d) as real
  {
    assert forall k :: 0 <= k < |d| ==> d[k] != '.';
    assert IndexOf(d, '.') == |d|;
    assert d[..|d|] + "" == d;
  }

  /** float() reads back an integer written by str(). */
  lemma ParseFloatOfInteger(i: int)
    ensures ParseFloat(IntToString(i)) == Some(i as real)
  {
    var s := IntToString(i);
    StripUnchanged(s);
    var n: nat := if i < 0 then -i else i;
    var digits := NatToString(n);
    NatToStringValue(n);
    assert SignAndBody(s).1 == digits;
    UnsignedDecimalOfDigits(digits);
    ParseFloatSome(s);
  }
}
