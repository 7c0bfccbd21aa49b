/** Python's `float(s)`, restricted to plain decimal notation: an optional
    sign, then digits with at most one decimal point and at least one digit.
    `is_number` is "`float` does not raise". */
module Number {
  import opened Wrappers

  predicate IsDigit(c: char) {
    '0' <= c <= '9'
  }

  predicate AllDigits(s: string) {
    forall i :: 0 <= i < |s| ==> IsDigit(s[i])
  }

  function DigitValue(c: char): (d: nat)
    requires IsDigit(c)
    ensures d < 10
  {
    c as int - '0' as int
  }

  /** The value of a string of decimal digits, most significant first. */
  function DigitsValue(s: string): nat
    requires AllDigits(s)
  {
    if s == [] then 0 else DigitsValue(s[..|s| - 1]) * 10 + DigitValue(s[|s| - 1])
  }

  function Pow10(n: nat): (p: nat)
    ensures p >= 1
  {
    if n == 0 then 1 else 10 * Pow10(n - 1)
  }

  /** The length of the longest prefix of `s` made of digits. */
  function DigitPrefix(s: string): (i: nat)
    ensures i <= |s| && AllDigits(s[..i])
    ensures i < |s| ==> !IsDigit(s[i])
  {
    if s == [] || !IsDigit(s[0]) then 0 else 1 + DigitPrefix(s[1..])
  }

  /** The grammar `digits | digits? "." digits?` with at least one digit. */
  ghost predicate UnsignedForm(s: string) {
    || (s != [] && AllDigits(s))
    || exists i :: 0 <= i < |s| && s[i] == '.' && AllDigits(s[..i]) && AllDigits(s[i + 1..]) && |s| > 1
  }

  /** An optionally signed `UnsignedForm`. */
  ghost predicate DecimalForm(s: string) {
    UnsignedForm(s) || (s != [] && (s[0] == '+' || s[0] == '-') && UnsignedForm(s[1..]))
  }

  /** An unsigned decimal: integer part plus fraction. */
  function ParseUnsigned(s: string): (r: Option<real>)
    ensures r.Some? <==> UnsignedForm(s)
    ensures r.Some? ==> r.value >= 0.0
  {
    var i := DigitPrefix(s);
    if i == |s| then
      assert s[..i] == s;
      if i == 0 then None else Some(DigitsValue(s) as real)
    else if s[i] == '.' && AllDigits(s[i + 1..]) && |s| > 1 then
      Some(DigitsValue(s[..i]) as real + DigitsValue(s[i + 1..]) as real / Pow10(|s| - i - 1) as real)
    else
      assert !UnsignedForm(s) by {
        assert !AllDigits(s);
        forall j | 0 <= j < |s| && s[j] == '.' && AllDigits(s[..j])
          ensures j == i
        {
          DotEndsDigitPrefix(s, j);
        }
      }
      None
  }

  /** A decimal point that follows only digits is where the digit prefix ends. */
  lemma {:induction false} DotEndsDigitPrefix(s: string, j: nat)
    requires j < |s| && s[j] == '.' && AllDigits(s[..j])
    ensures DigitPrefix(s) == j
  {
    if j > 0 {
      assert s[1..][..j - 1] == s[1..j];
      assert AllDigits(s[1..][..j - 1]);
      DotEndsDigitPrefix(s[1..], j - 1);
      assert IsDigit(s[..j][0]);
    }
  }

  /** `float(s)`: `None` where Python raises `ValueError`. */
  function ParseNumber(s: string): (r: Option<real>)
    ensures r.Some? <==> DecimalForm(s)
  {
    if s != [] && (s[0] == '+' || s[0] == '-') then
      assert !UnsignedForm(s) by {
        assert !AllDigits(s);
        assert forall j :: 0 <= j < |s| && s[j] == '.' ==> !AllDigits(s[..j]) by {
          forall j | 0 <= j < |s| && s[j] == '.' ensures !AllDigits(s[..j]) {
            assert j > 0 && s[..j][0] == s[0];
          }
        }
      }
      match ParseUnsigned(s[1..])
      case None => None
      case Some(v) => Some(if s[0] == '-' then -v else v)
    else
      ParseUnsigned(s)
  }

  /** `is_number(s)`: `float(s)` succeeds, which for the strings of this
      model means `s` is an optionally signed decimal. */
  function IsNumber(s: string): (r: bool)
    ensures r <==> DecimalForm(s)
    ensures r ==> s != []
  {
    ParseNumber(s).Some?
  }

  /** The decimal spelling of a natural number, as `str(n)` writes it. */
  function DecimalString(n: nat): (s: string)
    ensures s != [] && AllDigits(s)
  {
    if n < 10 then [('0' as int + n) as char]
    else DecimalString(n / 10) + [('0' as int + n % 10) as char]
  }

  lemma {:induction false} DigitsOfDecimalString(n: nat)
    ensures DigitsValue(DecimalString(n)) == n
  {
    if n >= 10 {
      var s := DecimalString(n);
      assert s[..|s| - 1] == DecimalString(n / 10);
      DigitsOfDecimalString(n / 10);
    }
  }

  /** `float(str(n)) == n` for every natural number `n`. */
  lemma ParseDecimalString(n: nat)
    ensures ParseNumber(DecimalString(n)) == Some(n as real)
  {
    var s := DecimalString(n);
    DigitsOfDecimalString(n);
    assert DigitPrefix(s) == |s|;
    assert s[0] != '+' && s[0] != '-' by { assert IsDigit(s[0]); }
  }

  /** A leading minus sign negates the value. */
  lemma ParseNegative(t: string)
    requires t != [] && t[0] != '+' && t[0] != '-'
    ensures ParseNumber("-" + t) == match ParseNumber(t) case None => None case Some(v) => Some(-v)
  {
    assert ("-" + t)[1..] == t;
  }

  lemma ParseIntegerExample()
    ensures ParseNumber("20000") == Some(20000.0)
  {
    assert DecimalString(20000) == "20000";
    ParseDecimalString(20000);
  }

  lemma ParseRejectsExamples()
    ensures ParseNumber("abc") == None
    ensures ParseNumber("") == None
    ensures ParseNumber(".") == None
  {
  }
}
