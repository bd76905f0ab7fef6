/** A locale-free stand-in for `decimal.TryParse`: an optional sign, then
    decimal digits with at most one decimal point and at least one digit. */
module DecimalText {
  import opened Wrappers
  import opened Text

  predicate IsDigit(c: char) {
    '0' <= c <= '9'
  }

  predicate AllDigits(s: string) {
    forall i :: 0 <= i < |s| ==> IsDigit(s[i])
  }

  function DigitValue(c: char): nat
    requires IsDigit(c)
  {
    c as int - '0' as int
  }

  function DigitChar(d: nat): (c: char)
    requires d < 10
    ensures IsDigit(c) && DigitValue(c) == d
  {
    ('0' as int + d) as char
  }

  /** The number a string of digits denotes, most significant digit first. */
  function DigitsValue(s: string): nat
    requires AllDigits(s)
  {
    if |s| == 0 then 0 else 10 * DigitsValue(s[..|s| - 1]) + DigitValue(s[|s| - 1])
  }

  function Pow10(k: nat): (p: nat)
    ensures p > 0
  {
    if k == 0 then 1 else 10 * Pow10(k - 1)
  }

  /** The value of the digits after a decimal point. */
  function FractionValue(f: string): real
    requires AllDigits(f)
  {
    DigitsValue(f) as real / Pow10(|f|) as real
  }

  /** Digits, optionally split by one decimal point; at least one digit. */
  function ParseUnsigned(s: string): (r: Option<real>)
    ensures r.Some? ==> r.value >= 0.0 && Count(s, '.') <= 1
  {
    var parts := Split(s, '.');
    if |parts| == 1 then
      if parts[0] != [] && AllDigits(parts[0]) then Some(DigitsValue(parts[0]) as real) else None
    else if |parts| == 2 then
      var whole, fraction := parts[0], parts[1];
      if AllDigits(whole) && AllDigits(fraction) && (whole != [] || fraction != []) then
        Some(DigitsValue(whole) as real + FractionValue(fraction))
      else None
    else None
  }

  /** The amount a token denotes, if it denotes one. Only a leading `-`
      makes it negative; the trailing sign, thousands separators and
      surrounding white space that `decimal.TryParse` also accepts are not
      part of this grammar. */
  function ParseDecimal(s: string): (r: Option<real>)
    ensures r.Some? ==> |s| > 0
    ensures r.Some? && r.value < 0.0 ==> s[0] == '-'
  {
    if |s| > 0 && (s[0] == '-' || s[0] == '+') then
      match ParseUnsigned(s[1..])
      case None => None
      case Some(v) => Some(if s[0] == '-' then -v else v)
    else ParseUnsigned(s)
  }

  /** The decimal digits of a natural number. */
  function NatText(n: nat): (s: string)
    ensures s != [] && AllDigits(s) && DigitsValue(s) == n
  {
    if n < 10 then [DigitChar(n)]
    else
      var prefix := NatText(n / 10);
      var s := prefix + [DigitChar(n % 10)];
      assert s[..|s| - 1] == prefix;
      s
  }

  /** Every natural number's digits parse back to it. */
  lemma ParsesNatText(n: nat)
    ensures ParseDecimal(NatText(n)) == Some(n as real)
  {
    var s := NatText(n);
    assert forall i :: 0 <= i < |s| ==> s[i] != '.';
    SplitWithout(s, '.');
    assert IsDigit(s[0]);
  }

  /** A minus sign negates what follows it. */
  lemma ParsesNegated(n: nat)
    ensures ParseDecimal("-" + NatText(n)) == Some(-(n as real))
  {
    ParsesNatText(n);
    assert ("-" + NatText(n))[1..] == NatText(n);
    assert IsDigit(NatText(n)[0]);
  }

  /** Digits, a point and more digits parse to the whole part plus the
      fraction the digits after the point denote. */
  lemma ParsesFraction(w: nat, f: string)
    requires f != [] && AllDigits(f)
    ensures ParseDecimal(NatText(w) + "." + f) == Some(w as real + FractionValue(f))
  {
    var whole := NatText(w);
    var s := whole + "." + f;
    SplitsAtPoint(whole, f);
    UnsignedOfParts(s, whole, f);
    assert s[0] == whole[0];
    UnsignedFromDigit(s);
    assert DigitsValue(whole) == w;
  }

  /** A token that starts with a digit carries no sign. */
  lemma UnsignedFromDigit(s: string)
    requires |s| > 0 && IsDigit(s[0])
    ensures ParseDecimal(s) == ParseUnsigned(s)
  {
  }

  /** Digits on both sides of the one point give whole plus fraction. */
  lemma UnsignedOfParts(s: string, whole: string, f: string)
    requires Split(s, '.') == [whole, f]
    requires AllDigits(whole) && AllDigits(f) && f != []
    ensures ParseUnsigned(s).Some?
    ensures ParseUnsigned(s).value == DigitsValue(whole) as real + FractionValue(f)
  {
    var parts := Split(s, '.');
    assert |parts| == 2 && parts[0] == whole && parts[1] == f;
  }

  /** Two runs of digits around one point split into those runs. */
  lemma SplitsAtPoint(whole: string, f: string)
    requires AllDigits(whole) && AllDigits(f)
    ensures Split(whole + "." + f, '.') == [whole, f]
  {
    assert whole + "." + f == whole + ['.'] + f;
    assert forall i :: 0 <= i < |whole| ==> whole[i] != '.';
    assert forall i :: 0 <= i < |f| ==> f[i] != '.';
    SplitAround(whole, f, '.');
    SplitWithout(whole, '.');
    SplitWithout(f, '.');
  }

  /** A token holding a character that is neither a digit nor a point,
      after an optional sign, is not an amount. */
  lemma RejectsNonDigit(s: string, i: nat)
    requires i < |s| && !IsDigit(s[i]) && s[i] != '.'
    requires i > 0 || (s[0] != '-' && s[0] != '+')
    ensures ParseDecimal(s) == None
  {
    if s[0] == '-' || s[0] == '+' {
      assert s[1..][i - 1] == s[i];
      UnsignedRejectsNonDigit(s[1..], i - 1);
    } else {
      UnsignedRejectsNonDigit(s, i);
    }
  }

  lemma UnsignedRejectsNonDigit(t: string, j: nat)
    requires j < |t| && !IsDigit(t[j]) && t[j] != '.'
    ensures ParseUnsigned(t) == None
  {
    var parts := Split(t, '.');
    if |parts| == 1 {
      SplitWithoutSeparator(t, '.');
      assert parts[0] == t;
    } else if |parts| == 2 {
      assert Join(parts, '.') == parts[0] + ['.'] + parts[1];
      if j < |parts[0]| {
        assert parts[0][j] == t[j];
      } else {
        assert j > |parts[0]|;
        assert parts[1][j - |parts[0]| - 1] == t[j];
      }
    }
  }

  /** Two decimal points are one too many. */
  lemma RejectsTwoPoints(s: string)
    requires Count(s, '.') >= 2
    ensures ParseDecimal(s) == None
  {
    if s[0] == '-' || s[0] == '+' {
      assert Count(s[1..], '.') == Count(s, '.');
    }
  }
}
