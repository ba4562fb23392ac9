/** Python's int() and float() applied to HTTP header strings, and math.ceil.
    Only the ASCII forms a server sends are modelled: an optional sign followed
    by decimal digits, and for float() an optional decimal point. */
module PyParse {
  import opened Wrappers

  predicate IsDigit(c: char) { '0' <= c <= '9' }

  predicate AllDigits(s: string) { forall i :: 0 <= i < |s| ==> IsDigit(s[i]) }

  function DigitValue(c: char): (d: nat)
    requires IsDigit(c)
    ensures d < 10
  {
    (c as int) - ('0' as int)
  }

  function DigitChar(d: nat): (c: char)
    requires d < 10
    ensures IsDigit(c) && DigitValue(c) == d
  {
    ('0' as int + d) as char
  }

  /** The number a string of decimal digits denotes (most significant first). */
  function DigitsValue(s: string): nat
    requires AllDigits(s)
  {
    if |s| == 0 then 0 else DigitsValue(s[..|s| - 1]) * 10 + DigitValue(s[|s| - 1])
  }

  /** The decimal spelling of a natural number, as str() writes it. */
  function NatToString(n: nat): (s: string)
    ensures |s| > 0 && AllDigits(s)
  {
    if n < 10 then [DigitChar(n)] else NatToString(n / 10) + [DigitChar(n % 10)]
  }

  /** The value of the digits after a decimal point: "25" is 0.25. */
  function FractionValue(s: string): (v: real)
    requires AllDigits(s)
    ensures 0.0 <= v < 1.0
  {
    if |s| == 0 then 0.0
    else
      assert AllDigits(s[1..]) by { forall i | 0 <= i < |s| - 1 ensures IsDigit(s[1..][i]) { assert s[1..][i] == s[i + 1]; } }
      (DigitValue(s[0]) as real + FractionValue(s[1..])) / 10.0
  }

  /** A leading '-' (true) or '+' and the rest of the string. */
  function SplitSign(s: string): (bool, string)
  {
    if |s| > 0 && s[0] == '-' then (true, s[1..])
    else if |s| > 0 && s[0] == '+' then (false, s[1..])
    else (false, s)
  }

  /** int(s): an optional sign and at least one digit, otherwise ValueError. */
  function ParseInt(s: string): Result<int>
  {
    var (negative, body) := SplitSign(s);
    if |body| > 0 && AllDigits(body) then Ok(if negative then -(DigitsValue(body) as int) else DigitsValue(body))
    else Err(ValueError)
  }

  /** Index of the first '.' in s, or |s| when there is none. */
  function FindPoint(s: string): (k: nat)
    ensures k <= |s|
    ensures forall i :: 0 <= i < k ==> s[i] != '.'
    ensures k < |s| ==> s[k] == '.'
  {
    if |s| == 0 then 0 else if s[0] == '.' then 0 else 1 + FindPoint(s[1..])
  }

  /** float(s) for "[sign]digits[.digits]" with at least one digit in all,
      otherwise ValueError. The value is the exact decimal, not its IEEE rounding. */
  function ParseFloat(s: string): Result<real>
  {
    var (negative, body) := SplitSign(s);
    var k := FindPoint(body);
    var whole := body[..k];
    var frac := if k < |body| then body[k + 1..] else [];
    if AllDigits(whole) && AllDigits(frac) && |whole| + |frac| > 0 then
      var v := DigitsValue(whole) as real + FractionValue(frac);
      Ok(if negative then -v else v)
    else Err(ValueError)
  }

  /** math.ceil: the least integer not below x. */
  function Ceil(x: real): (r: int)
    ensures x <= r as real < x + 1.0
  {
    -((-x).Floor)
  }

  /** Reading back what str() writes gives the number again. */
  lemma {:induction false} DigitsValueOfNatToString(n: nat)
    ensures DigitsValue(NatToString(n)) == n
  {
    var s := NatToString(n);
    if n >= 10 {
      DigitsValueOfNatToString(n / 10);
      assert s[..|s| - 1] == NatToString(n / 10);
    }
  }

  lemma ParseIntOfNatToString(n: nat)
    ensures ParseInt(NatToString(n)) == Ok(n)
  {
    DigitsValueOfNatToString(n);
  }

  /** A string of digits has no decimal point. */
  lemma {:induction false} FindPointOfDigits(s: string)
    requires AllDigits(s)
    ensures FindPoint(s) == |s|
  {
    if |s| > 0 {
      assert AllDigits(s[1..]) by { forall i | 0 <= i < |s| - 1 ensures IsDigit(s[1..][i]) { assert s[1..][i] == s[i + 1]; } }
      FindPointOfDigits(s[1..]);
    }
  }

  /** float() agrees with int() on every string int() accepts. */
  lemma ParseFloatAgreesWithParseInt(s: string)
    requires ParseInt(s).Ok?
    ensures ParseFloat(s) == Ok(ParseInt(s).value as real)
  {
    var (negative, body) := SplitSign(s);
    FindPointOfDigits(body);
    assert body[..|body|] == body;
  }

  /** A string holding anything but a sign and digits is rejected by int(). */
  lemma ParseIntRejectsNonDigit(s: string, i: nat)
    requires 0 < i < |s| && !IsDigit(s[i])
    ensures ParseInt(s) == Err(ValueError)
  {
    var (negative, body) := SplitSign(s);
    if |s| > 0 && (s[0] == '-' || s[0] == '+') {
      assert body[i - 1] == s[i];
    } else {
      assert body[i] == s[i];
    }
  }
}
