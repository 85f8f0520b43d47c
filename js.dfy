// The few JavaScript value rules the client code relies on: `Number(text)`,
// truthiness of numbers and strings, and `a || b` on strings.
module Js {
  import opened Wrappers
  import opened Text
  import opened Numbers

  /** A parsed JSON value, as `JSON.parse` returns it. */
  datatype JsValue =
    | JsNull
    | JsBool(b: bool)
    | JsNumber(n: real)
    | JsString(s: string)
    | JsArray(items: seq<JsValue>)
    | JsObject(fields: map<string, JsValue>)

  /** The result of `Number(text)`: a finite number or NaN. */
  datatype Num = Finite(v: real) | NaN

  /**
   * `Number(text)`: surrounding whitespace is ignored and the empty string is
   * 0; otherwise the text must be a whole numeric literal (a JavaScript
   * `StringNumericLiteral`), and anything else is NaN.
   */
  function ToNumber(s: string): (r: Num)
    ensures IsBlank(s) ==> r == Finite(0.0)
  {
    var t := Trim(s);
    if t == "" then Finite(0.0)
    else match ReadNumeral(t)
      case Some(v) => Finite(v)
      case None => NaN
  }

  /**
   * A trimmed, non-empty numeric literal: `0x`, `0o` or `0b` and digits of
   * that radix, unsigned; or a decimal literal with an optional sign.
   */
  function ReadNumeral(t: string): (r: Option<real>)
    requires t != []
  {
    if |t| >= 2 && t[0] == '0' && RadixOf(t[1]).Some? then
      var digits, radix := t[2..], RadixOf(t[1]).value;
      if digits != [] && RadixDigits(digits, radix) then Some(RadixValue(digits, radix) as real) else None
    else if t[0] == '+' || t[0] == '-' then
      match ReadUnsigned(t[1..])
      case Some(v) => Some(if t[0] == '-' then -v else v)
      case None => None
    else ReadUnsigned(t)
  }

  /** The radix a `0x`, `0o` or `0b` prefix names, in either case. */
  function RadixOf(c: char): (r: Option<nat>)
    ensures r.Some? ==> r.value == 2 || r.value == 8 || r.value == 16
    ensures r.Some? ==> !IsDigit(c) && c != '.' && c != 'e' && c != 'E'
  {
    if c == 'x' || c == 'X' then Some(16)
    else if c == 'o' || c == 'O' then Some(8)
    else if c == 'b' || c == 'B' then Some(2)
    else None
  }

  /** The value of a hexadecimal digit, upper or lower case. */
  function HexDigitValue(c: char): (r: Option<nat>)
    ensures r.Some? ==> r.value < 16
    ensures IsDigit(c) ==> r == Some(c as int - '0' as int)
  {
    if IsDigit(c) then Some(c as int - '0' as int)
    else if 'a' <= c <= 'f' then Some(c as int - 'a' as int + 10)
    else if 'A' <= c <= 'F' then Some(c as int - 'A' as int + 10)
    else None
  }

  predicate RadixDigits(s: string, radix: nat)
  {
    forall i :: 0 <= i < |s| ==> HexDigitValue(s[i]).Some? && HexDigitValue(s[i]).value < radix
  }

  /** The value of a run of digits in a radix. */
  function RadixValue(s: string, radix: nat): nat
    requires RadixDigits(s, radix)
    decreases |s|
  {
    if s == [] then 0 else RadixValue(s[..|s| - 1], radix) * radix + HexDigitValue(s[|s| - 1]).value
  }

  /** The first position of an exponent letter, or the length when there is none. */
  function ExponentAt(u: string): (k: nat)
    ensures k <= |u|
    ensures k < |u| ==> u[k] == 'e' || u[k] == 'E'
    decreases |u|
  {
    if u == [] then 0
    else if u[0] == 'e' || u[0] == 'E' then 0
    else 1 + ExponentAt(u[1..])
  }

  /** No exponent letter comes before `ExponentAt(u)`. */
  lemma {:induction false} ExponentAtFirst(u: string)
    ensures forall i :: 0 <= i < ExponentAt(u) ==> u[i] != 'e' && u[i] != 'E'
    decreases |u|
  {
    if u != [] && u[0] != 'e' && u[0] != 'E' {
      ExponentAtFirst(u[1..]);
      assert forall i :: 1 <= i < ExponentAt(u) ==> u[i] == u[1..][i - 1];
    }
  }

  /** The first position of a decimal point, or the length when there is none. */
  function PointAt(m: string): (k: nat)
    ensures k <= |m|
    ensures k < |m| ==> m[k] == '.'
    decreases |m|
  {
    if m == [] then 0
    else if m[0] == '.' then 0
    else 1 + PointAt(m[1..])
  }

  /** No decimal point comes before `PointAt(m)`. */
  lemma {:induction false} PointAtFirst(m: string)
    ensures forall i :: 0 <= i < PointAt(m) ==> m[i] != '.'
    decreases |m|
  {
    if m != [] && m[0] != '.' {
      PointAtFirst(m[1..]);
      assert forall i :: 1 <= i < PointAt(m) ==> m[i] == m[1..][i - 1];
    }
  }

  /** An unsigned decimal literal: a significand, then optionally `e` or `E` and a signed exponent. */
  function ReadUnsigned(u: string): (r: Option<real>)
    ensures r.Some? ==> r.value >= 0.0
  {
    var k := ExponentAt(u);
    if k == |u| then ReadSignificand(u)
    else match (ReadSignificand(u[..k]), ParseInt(u[k + 1..]))
      case (Some(v), Some(e)) => Some(Scale(v, e))
      case _ => None
  }

  /** `digits`, `digits.`, `digits.digits` or `.digits`. */
  function ReadSignificand(m: string): (r: Option<real>)
    ensures r.Some? ==> r.value >= 0.0
  {
    var k := PointAt(m);
    var whole, fraction := m[..k], if k < |m| then m[k + 1..] else "";
    if AllDigits(whole) && AllDigits(fraction) && (whole != [] || fraction != []) then
      Some(DecimalValue(whole, fraction))
    else None
  }

  /** `v * 10^e` for a whole exponent of either sign. */
  function Scale(v: real, e: int): (r: real)
    ensures v >= 0.0 ==> r >= 0.0
    decreases if e < 0 then -e else e
  {
    if e == 0 then v else if e > 0 then Scale(v, e - 1) * 10.0 else Scale(v, e + 1) / 10.0
  }

  /** A rendered natural number reads back as itself. */
  lemma ToNumberOfNat(n: nat)
    ensures ToNumber(NatToString(n)) == Finite(n as real)
  {
    DigitsValueOfNatToString(n);
    ToNumberOfDigits(NatToString(n));
  }

  /** `Math.round(x)`: halves round up, towards positive infinity. */
  function Round(x: real): (r: int)
    ensures r as real <= x + 0.5 < r as real + 1.0
  {
    (x + 0.5).Floor
  }

  /** Rounding a value between two integers stays between them. */
  lemma RoundBetween(x: real, lo: int, hi: int)
    requires lo as real <= x <= hi as real
    ensures lo <= Round(x) <= hi
  {
  }

  lemma RoundOfInt(n: int)
    ensures Round(n as real) == n
  {
  }

  /** A piece without a minus sign never reads as a negative number. */
  lemma ToNumberNoMinus(s: string)
    requires '-' !in s
    ensures ToNumber(s).Finite? ==> ToNumber(s).v >= 0.0
  {
    var t := Trim(s);
    if t != [] {
      TrimmedNoMinus(s);
      NumeralNoMinus(t);
    }
  }

  lemma TrimmedNoMinus(s: string)
    requires '-' !in s
    ensures '-' !in Trim(s)
  {
    var a := TrimStart(s);
    var t := TrimEnd(a);
    assert forall i :: 0 <= i < |t| ==> t[i] == a[i] == s[|s| - |a| + i];
  }

  lemma NumeralNoMinus(t: string)
    requires t != [] && t[0] != '-'
    ensures ReadNumeral(t).Some? ==> ReadNumeral(t).value >= 0.0
  {
  }

  /** A two-digit padded number reads back as itself. */
  lemma ToNumberOfPad2(n: nat)
    requires n < 100
    ensures ToNumber(Pad2(n)) == Finite(n as real)
  {
    Pad2Value(n);
    ToNumberOfDigits(Pad2(n));
  }

  /** A non-empty run of digits reads as its decimal value. */
  lemma ToNumberOfDigits(s: string)
    requires s != [] && AllDigits(s)
    ensures ToNumber(s) == Finite(DigitsValue(s) as real)
  {
    NoExponent(s);
    SignificandOfDigits(s);
    UnsignedNumeral(s, DigitsValue(s) as real);
  }

  /** Digits, a point and digits read as the whole part plus the scaled fraction. */
  lemma ToNumberOfDecimal(whole: string, fraction: string)
    requires whole != [] && AllDigits(whole) && AllDigits(fraction)
    ensures ToNumber(whole + "." + fraction) == Finite(DecimalValue(whole, fraction))
  {
    var s := whole + "." + fraction;
    assert s[0] == whole[0];
    assert |s| >= 2 ==> IsDigit(s[1]) || s[1] == '.';
    ExponentAfter(whole, fraction);
    SignificandOfDecimal(whole, fraction);
    UnsignedNumeral(s, DecimalValue(whole, fraction));
  }

  /** Digits, `e` and digits read as the significand scaled by that power of ten (see `ScaleUp`). */
  lemma ToNumberOfExponent(significand: string, exponent: string)
    requires significand != [] && AllDigits(significand) && exponent != [] && AllDigits(exponent)
    ensures ToNumber(significand + "e" + exponent) == Finite(Scale(DigitsValue(significand) as real, DigitsValue(exponent)))
  {
    var s := significand + "e" + exponent;
    assert s[0] == significand[0] && s[|s| - 1] == exponent[|exponent| - 1];
    assert |s| >= 2 ==> IsDigit(s[1]) || s[1] == 'e';
    ExponentUnsigned(significand, exponent);
    UnsignedNumeral(s, Scale(DigitsValue(significand) as real, DigitsValue(exponent)));
  }

  lemma ExponentUnsigned(significand: string, exponent: string)
    requires significand != [] && AllDigits(significand) && exponent != [] && AllDigits(exponent)
    ensures ReadUnsigned(significand + "e" + exponent) == Some(Scale(DigitsValue(significand) as real, DigitsValue(exponent)))
  {
    var s := significand + "e" + exponent;
    ExponentIn(significand, exponent);
    assert s[..|significand|] == significand && s[|significand| + 1..] == exponent;
    SignificandOfDigits(significand);
    ParseIntOfDigits(exponent);
    UnsignedWithExponent(s, |significand|, DigitsValue(significand) as real, DigitsValue(exponent));
  }

  /** A non-negative exponent multiplies by that power of ten. */
  lemma {:induction false} ScaleUp(v: real, e: nat)
    ensures Scale(v, e) == v * Pow10(e) as real
  {
    if e > 0 {
      ScaleUp(v, e - 1);
      assert v * Pow10(e - 1) as real * 10.0 == v * Pow10(e) as real;
    }
  }

  /** A negative exponent divides by that power of ten. */
  lemma {:induction false} ScaleDown(v: real, e: nat)
    ensures Scale(v, -(e as int)) == v / Pow10(e) as real
  {
    if e > 0 {
      ScaleDown(v, e - 1);
      assert v / Pow10(e - 1) as real / 10.0 == v / Pow10(e) as real;
    }
  }

  lemma UnsignedWithExponent(u: string, k: nat, v: real, e: int)
    requires k == ExponentAt(u) && k < |u|
    requires ReadSignificand(u[..k]) == Some(v) && ParseInt(u[k + 1..]) == Some(e)
    ensures ReadUnsigned(u) == Some(Scale(v, e))
  {
  }

  lemma ParseIntOfDigits(s: string)
    requires s != [] && AllDigits(s)
    ensures ParseInt(s) == Some(DigitsValue(s) as int)
  {
    assert IsDigit(s[0]);
  }

  /** A literal that starts with a digit, ends outside whitespace and has no radix prefix reads unsigned. */
  lemma UnsignedNumeral(t: string, v: real)
    requires t != [] && IsDigit(t[0]) && !IsSpace(t[|t| - 1])
    requires |t| >= 2 ==> RadixOf(t[1]).None?
    requires ReadUnsigned(t) == Some(v)
    ensures ToNumber(t) == Finite(v)
  {
    TrimStartOfTrimmed(t);
    TrimEndOfTrimmed(t);
    assert Trim(t) == t;
    NumeralUnsigned(t);
  }

  lemma NumeralUnsigned(t: string)
    requires t != [] && IsDigit(t[0])
    requires |t| >= 2 ==> RadixOf(t[1]).None?
    ensures ReadNumeral(t) == ReadUnsigned(t)
  {
  }

  lemma SignificandOfDigits(s: string)
    requires s != [] && AllDigits(s)
    ensures ReadSignificand(s) == Some(DigitsValue(s) as real)
  {
    NoPoint(s);
    assert s[..|s|] == s;
  }

  lemma SignificandOfDecimal(whole: string, fraction: string)
    requires whole != [] && AllDigits(whole) && AllDigits(fraction)
    ensures ReadSignificand(whole + "." + fraction) == Some(DecimalValue(whole, fraction))
  {
    var s := whole + "." + fraction;
    PointAfter(whole, fraction);
    assert s[..|whole|] == whole && s[|whole| + 1..] == fraction;
  }

  /** A `0x`, `0o` or `0b` prefix and digits of that radix read as their value. */
  lemma ToNumberOfRadix(t: string)
    requires |t| >= 3 && t[0] == '0' && RadixOf(t[1]).Some?
    requires RadixDigits(t[2..], RadixOf(t[1]).value)
    ensures ToNumber(t) == Finite(RadixValue(t[2..], RadixOf(t[1]).value) as real)
  {
    assert HexDigitValue(t[|t| - 1]).Some? by { assert t[|t| - 1] == t[2..][|t| - 3]; }
    TrimStartOfTrimmed(t);
    TrimEndOfTrimmed(t);
    assert Trim(t) == t;
  }

  /** A leading minus negates an unsigned literal, and a malformed one stays NaN. */
  lemma ToNumberOfNegated(u: string)
    requires u != [] && !IsSpace(u[|u| - 1])
    ensures ReadUnsigned(u).Some? ==> ToNumber("-" + u) == Finite(-ReadUnsigned(u).value)
    ensures ReadUnsigned(u).None? ==> ToNumber("-" + u) == NaN
  {
    var t := "-" + u;
    assert t[1..] == u && t[|t| - 1] == u[|u| - 1];
    TrimStartOfTrimmed(t);
    TrimEndOfTrimmed(t);
    assert Trim(t) == t;
  }

  /** A fee typed with cents, such as the tracker form's `125.50`, reads as 125.5. */
  lemma DecimalFeeReads()
    ensures ToNumber("125.50") == Finite(125.5)
  {
    var whole, fraction := "125", "50";
    DecimalFeeSplits(whole, fraction);
    ToNumberOfDecimal(whole, fraction);
    CentsValue();
  }

  lemma DecimalFeeSplits(whole: string, fraction: string)
    requires whole == "125" && fraction == "50"
    ensures whole + "." + fraction == "125.50"
  {
  }

  lemma CentsValue()
    ensures DecimalValue("125", "50") == 125.5
  {
    assert DigitsValue("125") == 125 by { assert "125"[..2] == "12" && "12"[..1] == "1" && "1"[..0] == ""; }
    assert DigitsValue("50") == 50 by { assert "50"[..1] == "5" && "5"[..0] == ""; }
    assert Pow10(2) == 100;
  }


  lemma {:induction false} NoPoint(s: string)
    requires AllDigits(s)
    ensures PointAt(s) == |s|
    decreases |s|
  {
    if s != [] {
      NoPoint(s[1..]);
    }
  }

  lemma {:induction false} NoExponent(s: string)
    requires AllDigits(s)
    ensures ExponentAt(s) == |s|
    decreases |s|
  {
    if s != [] {
      NoExponent(s[1..]);
    }
  }

  lemma {:induction false} PointAfter(whole: string, fraction: string)
    requires AllDigits(whole)
    ensures PointAt(whole + "." + fraction) == |whole|
    decreases |whole|
  {
    if whole != [] {
      assert (whole + "." + fraction)[1..] == whole[1..] + "." + fraction;
      PointAfter(whole[1..], fraction);
    }
  }

  lemma {:induction false} ExponentAfter(whole: string, fraction: string)
    requires AllDigits(whole) && AllDigits(fraction)
    ensures ExponentAt(whole + "." + fraction) == |whole| + 1 + |fraction|
    decreases |whole|
  {
    if whole == [] {
      assert ("" + "." + fraction)[1..] == fraction;
      NoExponent(fraction);
    } else {
      assert (whole + "." + fraction)[1..] == whole[1..] + "." + fraction;
      ExponentAfter(whole[1..], fraction);
    }
  }

  lemma {:induction false} ExponentIn(significand: string, exponent: string)
    requires AllDigits(significand)
    ensures ExponentAt(significand + "e" + exponent) == |significand|
    decreases |significand|
  {
    if significand != [] {
      assert (significand + "e" + exponent)[1..] == significand[1..] + "e" + exponent;
      ExponentIn(significand[1..], exponent);
    }
  }

  /** Text that starts with neither whitespace, a sign, a point nor a digit is not a number. */
  lemma ToNumberOfNonNumeric(s: string)
    requires s != [] && !IsSpace(s[0]) && !IsDigit(s[0]) && s[0] != '-' && s[0] != '+' && s[0] != '.'
    ensures ToNumber(s) == NaN
  {
    TrimStartOfTrimmed(s);
    var t := Trim(s);
    assert t == TrimEnd(s);
    assert t[0] == s[0];
    var k := ExponentAt(t);
    var m := if k == |t| then t else t[..k];
    if m != [] {
      assert m[0] == t[0];
      assert PointAt(m) > 0;
      assert m[..PointAt(m)][0] == t[0];
    }
  }

  /** `0` and `NaN` are falsy; every other number is truthy. */
  predicate NumTruthy(n: Num) { n.Finite? && n.v != 0.0 }

  /** `a || b` on strings: the empty string is the only falsy string. */
  function OrElse(a: string, b: string): (r: string)
    ensures r == a || r == b
    ensures r != "" <==> a != "" || b != ""
  {
    if a != "" then a else b
  }

  /** `n || 0` followed by `Number(...)` on an optional count. */
  function CountOrZero(n: Option<int>): int
  {
    if n.Some? then n.value else 0
  }
}
