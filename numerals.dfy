/**
 * JavaScript's reading of a string as a number, `Number(s)`, after the
 * StringNumericLiteral grammar of section 7.1.4.1.1 of ECMA-262: white
 * space around the literal is ignored, a blank string is 0, and the
 * literal is either a decimal one (an optional sign, digits with an
 * optional fraction, an optional exponent) or an unsigned hexadecimal,
 * octal or binary integer (`0x`, `0o`, `0b`). Anything else is NaN,
 * written `None`. Also the decimal printing of integers, which the
 * reading inverts.
 */
module Numerals {
  import opened Wrappers
  import opened Strings

  /** The value of a digit character, in any radix up to 16; 16 for every other character. */
  function DigitValue(c: char): (d: nat)
    ensures d <= 16
    ensures '0' <= c <= '9' <==> d < 10
  {
    if '0' <= c <= '9' then c as int - '0' as int
    else if 'a' <= c <= 'f' then c as int - 'a' as int + 10
    else if 'A' <= c <= 'F' then c as int - 'A' as int + 10
    else 16
  }

  predicate AllDigits(s: string, radix: nat) {
    forall i :: 0 <= i < |s| ==> DigitValue(s[i]) < radix
  }

  /** The number that the digits `s` spell in `radix`, most significant digit first. */
  function DigitsValue(s: string, radix: nat): (n: nat)
    requires AllDigits(s, radix)
    ensures s == [] ==> n == 0
  {
    if s == [] then 0 else DigitsValue(s[..|s| - 1], radix) * radix + DigitValue(s[|s| - 1])
  }

  /** The length of the run of decimal digits that `s` starts with. */
  function LeadingDigits(s: string): (k: nat)
    ensures k <= |s|
    ensures AllDigits(s[..k], 10)
    ensures k < |s| ==> DigitValue(s[k]) >= 10
  {
    if s != [] && DigitValue(s[0]) < 10 then
      var k := 1 + LeadingDigits(s[1..]);
      assert s[..k] == [s[0]] + s[1..][..k - 1];
      k
    else 0
  }

  function Pow10(n: nat): (p: nat)
    ensures p >= 1
  {
    if n == 0 then 1 else 10 * Pow10(n - 1)
  }

  /** `m` times ten to the power `e`, exactly. */
  function Scaled(m: nat, e: int): real {
    if e >= 0 then (m * Pow10(e)) as real else m as real / Pow10(-e) as real
  }

  /** An optional ExponentPart: nothing (0), or `e`/`E`, an optional sign and at least one digit. */
  function ParseExponent(s: string): (e: Option<int>)
    ensures s == [] ==> e == Some(0)
  {
    if s == [] then Some(0)
    else if s[0] != 'e' && s[0] != 'E' then None
    else
      var t := s[1..];
      var negative := t != [] && t[0] == '-';
      var digits := if t != [] && (t[0] == '+' || t[0] == '-') then t[1..] else t;
      if digits == [] || !AllDigits(digits, 10) then None
      else
        var n: int := DigitsValue(digits, 10);
        Some(if negative then -n else n)
  }

  /** A StrUnsignedDecimalLiteral other than `Infinity`: digits, an optional fraction, an optional exponent. */
  function ParseUnsigned(s: string): (r: Option<real>)
    ensures AllDigits(s, 10) && s != [] ==> r == Some(DigitsValue(s, 10) as real)
  {
    var i := LeadingDigits(s);
    var whole, rest := s[..i], s[i..];
    if rest != [] && rest[0] == '.' then
      var j := LeadingDigits(rest[1..]);
      var fraction := rest[1..][..j];
      if i + j == 0 then None
      else
        assert AllDigits(whole + fraction, 10);
        match ParseExponent(rest[1..][j..])
        case None => None
        case Some(e) => Some(Scaled(DigitsValue(whole + fraction, 10), e - j))
    else if i == 0 then None
    else
      match ParseExponent(rest)
      case None => None
      case Some(e) =>
        assert AllDigits(s, 10) ==> i == |s| && whole == s;
        Some(Scaled(DigitsValue(whole, 10), e))
  }

  /** The radix that a `0x`, `0o` or `0b` prefix names, and 0 for any other character. */
  function PrefixRadix(c: char): nat {
    if c == 'x' || c == 'X' then 16
    else if c == 'o' || c == 'O' then 8
    else if c == 'b' || c == 'B' then 2
    else 0
  }

  /** A StrNumericLiteral with the white space around it already removed; the empty literal is 0. */
  function ParseLiteral(t: string): (r: Option<real>)
    ensures t == [] ==> r == Some(0.0)
  {
    if t == [] then Some(0.0)
    else if t[0] == '+' then ParseUnsigned(t[1..])
    else if t[0] == '-' then
      match ParseUnsigned(t[1..])
      case None => None
      case Some(x) => Some(-x)
    else if |t| > 2 && t[0] == '0' && PrefixRadix(t[1]) != 0 then
      var radix := PrefixRadix(t[1]);
      if AllDigits(t[2..], radix) then Some(DigitsValue(t[2..], radix) as real) else None
    else ParseUnsigned(t)
  }

  /** `Number(s)` for a string `s`; `None` is NaN. */
  function StringToNumber(s: string): (r: Option<real>)
    ensures IsBlank(s) ==> r == Some(0.0)
  {
    ParseLiteral(Trim(s))
  }

  /** The decimal digits of `n`, as `String(n)` prints a non-negative integer. */
  function DecimalText(n: nat): (s: string)
    ensures s != [] && AllDigits(s, 10)
    ensures s[0] != '0' || n == 0
    ensures s[0] == '0' ==> s == "0"
  {
    var last := [(n % 10 + '0' as int) as char];
    if n < 10 then last else DecimalText(n / 10) + last
  }

  /** `String(i)` for an integer `i`: a minus sign before the digits of a negative one. */
  function IntegerText(i: int): (s: string)
    ensures s != []
  {
    if i < 0 then "-" + DecimalText(-i) else DecimalText(i)
  }

  /** Reading the digits of `n` gives `n` back. */
  lemma {:induction false} DecimalValue(n: nat)
    ensures DigitsValue(DecimalText(n), 10) == n
  {
    var s := DecimalText(n);
    if n >= 10 {
      DecimalValue(n / 10);
      assert s[..|s| - 1] == DecimalText(n / 10);
    }
  }

  /** The digits of `n`, read as an unsigned decimal literal, are `n`. */
  lemma DecimalRead(n: nat)
    ensures ParseUnsigned(DecimalText(n)) == Some(n as real)
  {
    DecimalValue(n);
  }

  /** Digits without a leading zero, or a lone zero, are read as an unsigned decimal literal. */
  lemma UnsignedLiteral(t: string)
    requires t != [] && AllDigits(t, 10)
    requires t[0] == '0' ==> |t| == 1
    ensures ParseLiteral(t) == ParseUnsigned(t)
  {
    assert DigitValue(t[0]) < 10;
  }

  /** A digit is not white space. */
  lemma DigitUnspaced(c: char)
    requires DigitValue(c) < 10
    ensures !IsSpace(c)
  {
  }

  /** `Number(String(n))` is `n` for every non-negative integer. */
  lemma NaturalRoundTrip(n: nat)
    ensures StringToNumber(DecimalText(n)) == Some(n as real)
  {
    var s := DecimalText(n);
    DigitUnspaced(s[0]);
    DigitUnspaced(s[|s| - 1]);
    Unpadded(s);
    DecimalRead(n);
    UnsignedLiteral(s);
  }

  /** `Number(String(i))` is `i` for every integer, negative ones included. */
  lemma IntegerRoundTrip(i: int)
    ensures StringToNumber(IntegerText(i)) == Some(i as real)
  {
    if i < 0 {
      var s := IntegerText(i);
      var d := DecimalText(-i);
      assert s[|s| - 1] == d[|d| - 1];
      DigitUnspaced(d[|d| - 1]);
      Unpadded(s);
      assert s == "-" + d;
      DecimalRead(-i);
      NegativeLiteral(d);
      assert -((-i) as real) == i as real;
    } else {
      NaturalRoundTrip(i);
    }
  }

  /** A minus sign before an unsigned literal negates its value. */
  lemma NegativeLiteral(d: string)
    ensures ParseLiteral("-" + d) == (if ParseUnsigned(d).Some? then Some(-ParseUnsigned(d).value) else None)
  {
    var t := "-" + d;
    assert t[0] == '-' && t[1..] == d;
  }

  /** A string without white space at either end is read as the literal it is. */
  lemma Unpadded(s: string)
    requires s != [] && !IsSpace(s[0]) && !IsSpace(s[|s| - 1])
    ensures StringToNumber(s) == ParseLiteral(s)
  {
    TrimUnspaced(s);
  }

  /** `Number("12.5")` is 12.5: digits, a fraction and no exponent. */
  lemma ReadsFraction()
    ensures StringToNumber("12.5") == Some(12.5)
  {
    Unpadded("12.5");
    FractionParsed();
  }

  /** The literal "12.5": the digits 12, then the fraction 5, so 125 tenths. */
  lemma FractionParsed()
    ensures ParseUnsigned("12.5") == Some(12.5)
  {
    assert LeadingDigits("12.5") == 2;
    assert "12.5"[..2] == "12" && "12.5"[2..] == ".5" && "12.5"[2..][1..] == "5";
    assert LeadingDigits("5") == 1;
    assert "5"[..1] == "5" && "5"[1..] == [];
    assert "12" + "5" == "125";
    assert DigitsValue("125", 10) == 125;
    assert Scaled(125, -1) == 12.5;
  }

  /** `Number("0x1A")` is 26: a hexadecimal literal, either letter case. */
  lemma ReadsHexadecimal()
    ensures StringToNumber("0x1A") == Some(26.0)
  {
    Unpadded("0x1A");
    assert "0x1A"[2..] == "1A";
    assert DigitsValue("1A", 16) == 26;
  }

  /** `Number("12abc")` is NaN: trailing text is not an exponent. */
  lemma RejectsTrailingText()
    ensures StringToNumber("12abc") == None
  {
    Unpadded("12abc");
    assert LeadingDigits("12abc") == 2;
    assert "12abc"[2..] == "abc";
  }
}
