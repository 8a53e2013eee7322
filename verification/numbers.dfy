/**
 * JavaScript's `Number(string)` conversion, restricted to plain decimal
 * literals, and the decimal rendering of integers that template literals
 * such as `${page}` perform.
 */
module Numbers {
  import opened Strings

  /** What the guardrails see of a converted value: a finite number, or NaN/Infinity. */
  datatype Num = Finite(value: real) | NotFinite

  predicate IsDigit(c: char) {
    '0' <= c <= '9'
  }

  predicate AllDigits(s: string) {
    forall i :: 0 <= i < |s| ==> IsDigit(s[i])
  }

  function DigitValue(c: char): (d: nat)
    requires IsDigit(c)
    ensures d < 10
  {
    c as int - '0' as int
  }

  function DigitChar(d: nat): (c: char)
    requires d < 10
    ensures IsDigit(c) && DigitValue(c) == d
  {
    ('0' as int + d) as char
  }

  /** The value of a run of decimal digits, most significant first. */
  function DigitsValue(s: string): nat
    requires AllDigits(s)
    decreases |s|
  {
    if s == [] then 0 else DigitsValue(s[..|s| - 1]) * 10 + DigitValue(s[|s| - 1])
  }

  /** The value of the digits written after a decimal point. */
  function FractionValue(s: string): (f: real)
    requires AllDigits(s)
    ensures 0.0 <= f < 1.0
  {
    if s == [] then 0.0 else (DigitValue(s[0]) as real + FractionValue(s[1..])) / 10.0
  }

  /** Decimal digits of a natural number, without leading zeros. */
  function Decimal(n: nat): (s: string)
    ensures |s| >= 1 && AllDigits(s)
    ensures DigitsValue(s) == n
    ensures s[0] == '0' ==> n == 0
  {
    if n < 10 then [DigitChar(n)]
    else
      var prefix := Decimal(n / 10);
      var s := prefix + [DigitChar(n % 10)];
      assert s[..|s| - 1] == prefix;
      s
  }

  /** Characters that can appear in the rendering of an integer. */
  predicate Numeral(s: string) {
    forall i :: 0 <= i < |s| ==> s[i] == '-' || IsDigit(s[i])
  }

  /** `${i}` for an integer `i`: a minus sign for negatives, then the decimal digits. */
  function IntString(i: int): (s: string)
    ensures |s| >= 1 && Numeral(s)
    ensures i >= 0 <==> IsDigit(s[0])
  {
    if i < 0 then "-" + Decimal(-i) else Decimal(i)
  }

  /**
   * A literal without sign: digits, optionally a '.' and more digits, with
   * at least one digit on some side of the point; "Infinity" is not finite,
   * anything else is NaN.
   */
  function UnsignedNumber(s: string): (n: Num)
    ensures n.Finite? ==> n.value >= 0.0
  {
    if s == "Infinity" then NotFinite
    else
      var dot := IndexOf(s, '.');
      var whole := s[..dot];
      var fraction := if dot < |s| then s[dot + 1..] else "";
      if AllDigits(whole) && AllDigits(fraction) && (whole != "" || fraction != "") then
        Finite(DigitsValue(whole) as real + FractionValue(fraction))
      else NotFinite
  }

  /** `Number(s)` for the decimal literals above, with an optional sign; the empty string is 0. */
  function NumberOf(s: string): (n: Num)
    ensures s == "" ==> n == Finite(0.0)
    ensures s != "" && s[0] != '-' && n.Finite? ==> n.value >= 0.0
  {
    if s == "" then Finite(0.0)
    else if s[0] == '-' then
      match UnsignedNumber(s[1..])
      case Finite(v) => Finite(-v)
      case NotFinite => NotFinite
    else if s[0] == '+' then UnsignedNumber(s[1..])
    else UnsignedNumber(s)
  }

  /** A run of digits is read as a whole number. */
  lemma UnsignedWhole(s: string)
    requires s != "" && AllDigits(s)
    ensures UnsignedNumber(s) == Finite(DigitsValue(s) as real)
  {
    assert s != "Infinity" by { assert IsDigit(s[0]); }
    assert Lacks(s, '.');
    assert s[..|s|] == s;
  }

  /** Digits, a point and more digits are read as the whole part plus the fraction. */
  lemma UnsignedPoint(whole: string, fraction: string)
    requires AllDigits(whole) && AllDigits(fraction) && (whole != "" || fraction != "")
    ensures UnsignedNumber(whole + "." + fraction) ==
      Finite(DigitsValue(whole) as real + FractionValue(fraction))
  {
    var s := whole + "." + fraction;
    var infinity := "Infinity";
    assert s[0] != infinity[0] by {
      if whole != "" { assert s[0] == whole[0]; } else { assert s[0] == '.'; }
    }
    assert forall j :: 0 <= j < |whole| ==> s[j] == whole[j];
    assert s[|whole|] == '.';
    assert Lacks(whole, '.');
    assert IndexOf(s, '.') == |whole|;
    assert s[..|whole|] == whole;
    assert s[|whole| + 1..] == fraction;
  }

  /** Reading back a rendered natural number gives the number itself. */
  lemma NumberOfDecimal(n: nat)
    ensures UnsignedNumber(Decimal(n)) == Finite(n as real)
    ensures NumberOf(Decimal(n)) == Finite(n as real)
  {
    UnsignedWhole(Decimal(n));
  }

  /** Reading back `${i}` gives `i` for every integer: the link round trip at the number level. */
  lemma NumberOfIntString(i: int)
    ensures NumberOf(IntString(i)) == Finite(i as real)
  {
    if i < 0 {
      NumberOfDecimal(-i);
      assert IntString(i)[1..] == Decimal(-i);
    } else {
      NumberOfDecimal(i);
    }
  }

  /** Rendering is injective: different integers never print the same. */
  lemma IntStringInjective(i: int, j: int)
    requires IntString(i) == IntString(j)
    ensures i == j
  {
    NumberOfIntString(i);
    NumberOfIntString(j);
  }

  /** `Number("0.5")` is one half. */
  lemma NumberOfHalf()
    ensures NumberOf("0.5") == Finite(0.5)
  {
    assert FractionValue("5") == 0.5;
    UnsignedPoint("0", "5");
    assert "0" + "." + "5" == "0.5";
  }

  /** `Number("2.5")` is two and a half. */
  lemma NumberOfTwoAndAHalf()
    ensures NumberOf("2.5") == Finite(2.5)
  {
    assert FractionValue("5") == 0.5;
    UnsignedPoint("2", "5");
    assert "2" + "." + "5" == "2.5";
  }

  /** `Number("abc")` is NaN. */
  lemma NumberOfWord()
    ensures NumberOf("abc") == NotFinite
  {
    assert !IsDigit("abc"[0]);
  }

  /** `Number("1x")` is NaN: a trailing letter spoils the literal. */
  lemma NumberOfTrailingLetter()
    ensures NumberOf("1x") == NotFinite
  {
    assert Lacks("1x", '.');
    assert "1x"[..2] == "1x";
    assert !IsDigit("1x"[1]);
  }

  /** Both infinities are not finite. */
  lemma NumberOfInfinities()
    ensures NumberOf("Infinity") == NotFinite
    ensures NumberOf("-Infinity") == NotFinite
  {
    assert "-Infinity"[1..] == "Infinity";
  }

  /** `Number("0")` is zero. */
  lemma NumberOfZero()
    ensures NumberOf("0") == Finite(0.0)
  {
    UnsignedWhole("0");
  }

  /** `Number("-3")` is minus three. */
  lemma NumberOfMinusThree()
    ensures NumberOf("-3") == Finite(-3.0)
  {
    UnsignedWhole("3");
    assert "-3"[1..] == "3";
  }

  /** `Number("101")` is one hundred and one. */
  lemma NumberOfHundredOne()
    ensures NumberOf("101") == Finite(101.0)
  {
    UnsignedWhole("101");
    assert DigitsValue("101") == 101 by {
      assert "101"[..2] == "10" && "10"[..1] == "1";
    }
  }
}
