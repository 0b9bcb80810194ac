/**
 * Character classes and decimal numerals as the form's inputs see them.
 *
 * JavaScript's `Number(text)`, `parseInt(text)` and `parseFloat(text)` are
 * modelled on decimal numerals: an optional sign, digits, an optional point
 * and more digits, with at least one digit in all. `Number("")` is 0; any
 * other text outside that syntax is NaN, written `None`.
 */
module NumberText {
  import opened Optional

  predicate IsDigit(c: char) { '0' <= c <= '9' }

  predicate IsAsciiLetter(c: char) { 'a' <= c <= 'z' || 'A' <= c <= 'Z' }

  /** The regular-expression class `[a-zA-Z0-9]`. */
  predicate IsAlphanumeric(c: char) { IsDigit(c) || IsAsciiLetter(c) }

  predicate AllDigits(s: string) { forall i :: 0 <= i < |s| ==> IsDigit(s[i]) }

  function DigitValue(c: char): (d: nat)
    requires IsDigit(c)
    ensures d < 10
  {
    c as int - '0' as int
  }

  function DigitChar(d: nat): (c: char)
    requires d < 10
    ensures IsDigit(c) && DigitValue(c) == d
  {
    ('0' as int + d) as char
  }

  /** The value of a string of decimal digits, most significant first; "" has value 0. */
  function DigitsValue(s: string): nat
    requires AllDigits(s)
  {
    if s == [] then 0 else DigitsValue(s[..|s| - 1]) * 10 + DigitValue(s[|s| - 1])
  }

  function Pow10(n: nat): (r: nat)
    ensures r >= 1
  {
    if n == 0 then 1 else 10 * Pow10(n - 1)
  }

  /** k digits are worth less than 10^k, so a fraction part is below 1. */
  lemma {:induction false} DigitsValueBelowPow10(s: string)
    requires AllDigits(s)
    ensures DigitsValue(s) < Pow10(|s|)
  {
    if s != [] {
      var init := s[..|s| - 1];
      assert AllDigits(init) by {
        forall i | 0 <= i < |init| ensures IsDigit(init[i]) { assert init[i] == s[i]; }
      }
      DigitsValueBelowPow10(init);
    }
  }

  /** The shortest decimal rendering of a natural number. */
  function ShowNat(n: nat): (s: string)
    ensures 1 <= |s| && AllDigits(s)
  {
    if n < 10 then [DigitChar(n)] else ShowNat(n / 10) + [DigitChar(n % 10)]
  }

  /** Reading back the rendering of n gives n. */
  lemma {:induction false} ShowNatRoundTrip(n: nat)
    ensures DigitsValue(ShowNat(n)) == n
  {
    if n >= 10 {
      var s := ShowNat(n);
      assert s[..|s| - 1] == ShowNat(n / 10);
      ShowNatRoundTrip(n / 10);
    }
  }

  /** The rendering of an integer: a leading '-' for negatives. */
  function ShowInt(i: int): string
  {
    if i < 0 then "-" + ShowNat(-i) else ShowNat(i)
  }

  datatype Sign = Unsigned | Plus | Minus

  /** A decimal numeral split into its parts: sign, digits before the point, whether a point is written, digits after it. */
  datatype Numeral = Numeral(sign: Sign, whole: string, point: bool, frac: string)

  predicate WellFormed(n: Numeral)
  {
    && AllDigits(n.whole)
    && AllDigits(n.frac)
    && (n.point || n.frac == [])
    && 1 <= |n.whole| + |n.frac|
  }

  function SignText(s: Sign): string
  {
    match s
    case Unsigned => ""
    case Plus => "+"
    case Minus => "-"
  }

  /** The unsigned part of a numeral's text: digits, maybe a point, digits. */
  function Body(n: Numeral): string
  {
    n.whole + (if n.point then "." else "") + n.frac
  }

  /** The text a numeral is written as. */
  function Render(n: Numeral): string
  {
    SignText(n.sign) + Body(n)
  }

  /** The position of the first '.' in s, or |s| if there is none. */
  function IndexOfPoint(s: string): (r: nat)
    ensures r <= |s|
    ensures forall j :: 0 <= j < r ==> s[j] != '.'
    ensures r < |s| ==> s[r] == '.'
  {
    if s == [] then 0
    else if s[0] == '.' then 0
    else 1 + IndexOfPoint(s[1..])
  }

  function SignOf(s: string): Sign
  {
    if s != [] && s[0] == '-' then Minus else if s != [] && s[0] == '+' then Plus else Unsigned
  }

  /** The text after the sign. */
  function Unsign(s: string): (body: string)
    ensures SignText(SignOf(s)) + body == s
  {
    if SignOf(s) == Unsigned then s else s[1..]
  }

  /** Splits a numeral body at its first point. */
  function SplitBody(body: string): (r: Numeral)
    ensures r.sign == Unsigned && (r.point || r.frac == [])
    ensures Body(r) == body
  {
    var i := IndexOfPoint(body);
    if i < |body| then
      assert body == body[..i] + "." + body[i + 1..];
      Numeral(Unsigned, body[..i], true, body[i + 1..])
    else
      assert body == body[..i];
      Numeral(Unsigned, body, false, [])
  }

  /** Recognises a decimal numeral; `None` when the text is not one. */
  function Scan(s: string): (r: Option<Numeral>)
    ensures r.Some? ==> WellFormed(r.value) && Render(r.value) == s
  {
    var n := SplitBody(Unsign(s)).(sign := SignOf(s));
    if AllDigits(n.whole) && AllDigits(n.frac) && 1 <= |n.whole| + |n.frac| then Some(n) else None
  }

  /** Every well-formed numeral is recognised from its rendering, with the same parts. */
  lemma ScanRender(n: Numeral)
    requires WellFormed(n)
    ensures Scan(Render(n)) == Some(n)
  {
    UnsignRender(n);
    SplitRenderedBody(n);
  }

  lemma UnsignRender(n: Numeral)
    requires WellFormed(n)
    ensures SignOf(Render(n)) == n.sign
    ensures Unsign(Render(n)) == Body(n)
  {
    var s := Render(n);
    var body := Body(n);
    assert body[0] == '.' || IsDigit(body[0]) by {
      if n.whole != [] {
        assert body[0] == n.whole[0];
      } else {
        assert body[0] == '.';
      }
    }
    if n.sign == Unsigned {
      assert s == body;
    } else {
      assert s == [s[0]] + body;
    }
  }

  lemma SplitRenderedBody(n: Numeral)
    requires WellFormed(n)
    ensures SplitBody(Body(n)) == n.(sign := Unsigned)
  {
    var body := Body(n);
    var i := IndexOfPoint(body);
    assert forall j :: 0 <= j < |n.whole| ==> body[j] == n.whole[j];
    assert n.point ==> body[|n.whole|] == '.';
    assert i == |n.whole|;
    assert body[..i] == n.whole;
    if n.point {
      assert body[i + 1..] == n.frac;
    }
  }

  function Signed(sign: Sign, x: real): real
  {
    if sign == Minus then -x else x
  }

  /** The magnitude a numeral denotes: the whole digits plus the fraction digits over 10^k. */
  function Magnitude(n: Numeral): real
    requires WellFormed(n)
  {
    DigitsValue(n.whole) as real + DigitsValue(n.frac) as real / Pow10(|n.frac|) as real
  }

  /** JavaScript's `Number(text)` for the text inputs; `None` is NaN. */
  function JsNumber(s: string): (r: Option<real>)
    ensures s == "" ==> r == Some(0.0)
    ensures s != "" ==> (r.Some? <==> Scan(s).Some?)
  {
    if s == "" then Some(0.0)
    else match Scan(s)
      case None => None
      case Some(n) => Some(Signed(n.sign, Magnitude(n)))
  }

  /**
   * JavaScript's `parseInt(text)` on a numeral: the sign and the digits
   * before the point; NaN when there are none (".5" has none).
   */
  function ParseInt(s: string): (r: Option<int>)
    requires Scan(s).Some?
    ensures r.Some? <==> Scan(s).value.whole != []
  {
    var n := Scan(s).value;
    var w: int := DigitsValue(n.whole);
    if n.whole == [] then None else Some(if n.sign == Minus then -w else w)
  }

  /** Reads digits left to right: each digit moves what was read so far one place up. */
  function ReadWhole(acc: nat, s: string): nat
    requires AllDigits(s)
    decreases |s|
  {
    if s == [] then acc else ReadWhole(acc * 10 + DigitValue(s[0]), s[1..])
  }

  /** Reads fraction digits: the first is tenths, the rest are read one place further down. */
  function ReadFraction(s: string): real
    requires AllDigits(s)
  {
    if s == [] then 0.0 else (DigitValue(s[0]) as real + ReadFraction(s[1..])) / 10.0
  }

  /**
   * JavaScript's `parseFloat(text)` on a numeral: the sign, then the digits
   * read left to right, then the fraction digits each a place further down.
   */
  function ParseFloat(s: string): real
    requires Scan(s).Some?
  {
    var n := Scan(s).value;
    Signed(n.sign, ReadWhole(0, n.whole) as real + ReadFraction(n.frac))
  }

  /** A digit in front of k digits is worth that digit times 10^k more. */
  lemma {:induction false} DigitsValueCons(c: char, t: string)
    requires IsDigit(c) && AllDigits(t)
    ensures AllDigits([c] + t)
    ensures DigitsValue([c] + t) == DigitValue(c) * Pow10(|t|) + DigitsValue(t)
  {
    if t != [] {
      var init := t[..|t| - 1];
      assert AllDigits(init) by {
        forall i | 0 <= i < |init| ensures IsDigit(init[i]) { assert init[i] == t[i]; }
      }
      var ct := [c] + t;
      assert ct[..|ct| - 1] == [c] + init;
      assert ct[|ct| - 1] == t[|t| - 1];
      DigitsValueCons(c, init);
      var d := DigitValue(c);
      assert DigitsValue(ct) == (d * Pow10(|init|) + DigitsValue(init)) * 10 + DigitValue(t[|t| - 1]);
      assert (d * Pow10(|init|)) * 10 == d * Pow10(|t|);
    }
  }

  /** The first digit of a digit string is worth that digit times 10^(k-1); the rest keep their value. */
  lemma DigitsValueHead(s: string)
    requires AllDigits(s) && s != []
    ensures AllDigits(s[1..])
    ensures DigitsValue(s) == DigitValue(s[0]) * Pow10(|s| - 1) + DigitsValue(s[1..])
  {
    var t := s[1..];
    assert AllDigits(t) by {
      forall i | 0 <= i < |t| ensures IsDigit(t[i]) { assert t[i] == s[i + 1]; }
    }
    assert [s[0]] + t == s;
    DigitsValueCons(s[0], t);
  }

  /** The left-to-right reading agrees with the place-value definition. */
  lemma {:induction false} ReadWholeValue(acc: nat, s: string)
    requires AllDigits(s)
    ensures ReadWhole(acc, s) == acc * Pow10(|s|) + DigitsValue(s)
    decreases |s|
  {
    if s != [] {
      DigitsValueHead(s);
      var t := s[1..];
      var d := DigitValue(s[0]);
      ReadWholeValue(acc * 10 + d, t);
      assert ReadWhole(acc, s) == (acc * 10 + d) * Pow10(|t|) + DigitsValue(t);
      assert Pow10(|s|) == 10 * Pow10(|t|);
      ShiftWhole(acc, d, Pow10(|t|), DigitsValue(t));
    }
  }

  /** One more leading digit: (acc*10 + d)*p + v is acc*(10p) + (d*p + v). */
  lemma ShiftWhole(acc: nat, d: nat, p: nat, v: nat)
    ensures (acc * 10 + d) * p + v == acc * (10 * p) + (d * p + v)
  {
  }

  /** The fraction reading agrees with the digits' value over 10^k. */
  lemma {:induction false} ReadFractionValue(s: string)
    requires AllDigits(s)
    ensures ReadFraction(s) == DigitsValue(s) as real / Pow10(|s|) as real
  {
    if s != [] {
      DigitsValueHead(s);
      var t := s[1..];
      ReadFractionValue(t);
      assert Pow10(|s|) == 10 * Pow10(|t|);
      FractionStep(DigitValue(s[0]), DigitsValue(t), Pow10(|t|), ReadFraction(t));
    }
  }

  /** One more leading fraction digit d in front of v/p: (d + v/p)/10 is (d*p + v)/(10p). */
  lemma FractionStep(d: nat, v: nat, p: nat, rest: real)
    requires p >= 1 && rest == v as real / p as real
    ensures (d as real + rest) / 10.0 == (d * p + v) as real / (10 * p) as real
  {
    var pr := p as real;
    assert (d * p) as real == d as real * pr;
    assert (10 * p) as real == 10.0 * pr;
    assert d as real + rest == (d as real * pr + v as real) / pr;
  }

  /** On a numeral, `parseFloat` gives the value `Number` gives. */
  lemma ParseFloatIsNumber(s: string)
    requires Scan(s).Some?
    ensures JsNumber(s) == Some(ParseFloat(s))
  {
    var n := Scan(s).value;
    assert WellFormed(n);
    ReadWholeValue(0, n.whole);
    ReadFractionValue(n.frac);
    var x := ReadWhole(0, n.whole) as real + ReadFraction(n.frac);
    assert x == Magnitude(n);
    assert ParseFloat(s) == Signed(n.sign, x);
    assert JsNumber(s) == Some(Signed(n.sign, Magnitude(n)));
  }

  /** `Math.trunc`: rounds toward zero. */
  function Trunc(x: real): (r: int)
    ensures 0.0 <= x ==> r as real <= x < r as real + 1.0
    ensures x < 0.0 ==> r as real - 1.0 < x <= r as real
  {
    if x >= 0.0 then x.Floor else -((-x).Floor)
  }

  /** The numeral an integer is rendered as: its sign and its digits, no point. */
  function IntNumeral(i: int): (n: Numeral)
    ensures WellFormed(n) && Render(n) == ShowInt(i)
  {
    var m: nat := if i < 0 then -i else i;
    var n := Numeral(if i < 0 then Minus else Unsigned, ShowNat(m), false, []);
    assert Body(n) == ShowNat(m);
    n
  }

  /** Typing the rendering of an integer gives that integer back as a number. */
  lemma ShowIntNumber(i: int)
    ensures JsNumber(ShowInt(i)) == Some(i as real)
    ensures ParseInt(ShowInt(i)) == Some(i)
  {
    var n := IntNumeral(i);
    var m: nat := if i < 0 then -i else i;
    ScanRender(n);
    ShowNatRoundTrip(m);
    IntNumeralValue(n, m, i);
  }

  /** The value of the numeral an integer is rendered as. */
  lemma IntNumeralValue(n: Numeral, m: nat, i: int)
    requires n == Numeral(if i < 0 then Minus else Unsigned, ShowNat(m), false, [])
    requires m == (if i < 0 then -i else i) && DigitsValue(n.whole) == m
    ensures WellFormed(n) && Signed(n.sign, Magnitude(n)) == i as real
  {
    assert DigitsValue(n.frac) == 0;
  }

  /** Where `parseInt` gives a number, it is `Number`'s value truncated toward zero. */
  lemma ParseIntIsTrunc(s: string)
    requires Scan(s).Some? && ParseInt(s).Some?
    ensures ParseInt(s).value == Trunc(JsNumber(s).value)
  {
    var n := Scan(s).value;
    var w := DigitsValue(n.whole);
    var f := DigitsValue(n.frac) as real / Pow10(|n.frac|) as real;
    assert JsNumber(s).value == Signed(n.sign, w as real + f);
    assert ParseInt(s).value == if n.sign == Minus then -(w as int) else w as int;
    DigitsValueBelowPow10(n.frac);
    FractionBelowOne(DigitsValue(n.frac), Pow10(|n.frac|));
    TruncSigned(n.sign, w, f);
  }

  lemma TruncSigned(sign: Sign, w: nat, f: real)
    requires 0.0 <= f < 1.0
    ensures Trunc(Signed(sign, w as real + f)) == if sign == Minus then -(w as int) else w as int
  {
    FloorOfWholePlusFraction(w, f);
  }

  lemma FractionBelowOne(a: nat, b: nat)
    requires a < b
    ensures 0.0 <= a as real / b as real < 1.0
  {
    var q := a as real / b as real;
    assert q * b as real == a as real;
  }

  lemma FloorOfWholePlusFraction(w: nat, f: real)
    requires 0.0 <= f < 1.0
    ensures (w as real + f).Floor == w
  {
  }
}
