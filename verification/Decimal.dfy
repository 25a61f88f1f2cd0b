/** Numbers as text: what Rust prints and what its `parse` accepts, in exact arithmetic. */
module Decimal {
  import opened Prelude
  import opened Text

  const U64_MAX := 0xffff_ffff_ffff_ffff

  function Digit(d: nat): (c: char)
    requires d < 10
    ensures '0' <= c <= '9'
  {
    '0' + d as char
  }

  predicate IsDigit(c: char) {
    '0' <= c <= '9'
  }

  ghost predicate AllDigits(s: string) {
    forall i :: 0 <= i < |s| ==> IsDigit(s[i])
  }

  function DigitsOnly(s: string): (b: bool)
    ensures b <==> AllDigits(s)
  {
    |s| == 0 || (IsDigit(Last(s)) && DigitsOnly(Front(s)))
  }

  function DigitValue(c: char): (d: nat)
    requires IsDigit(c)
    ensures d < 10
  {
    c as nat - '0' as nat
  }

  // ---- naturals ----

  /** A natural number in decimal, without leading zeros. */
  function NatText(n: nat): (s: string)
    ensures |s| > 0 && AllDigits(s)
  {
    if n < 10 then [Digit(n)] else NatText(n / 10) + [Digit(n % 10)]
  }

  function DigitsValue(s: string): nat
    requires AllDigits(s)
  {
    if |s| == 0 then 0 else DigitsValue(Front(s)) * 10 + DigitValue(Last(s))
  }

  lemma {:induction false} NatTextValue(n: nat)
    ensures DigitsValue(NatText(n)) == n
  {
    if n < 10 {
      assert Front(NatText(n)) == "";
    } else {
      NatTextValue(n / 10);
      assert Front(NatText(n)) == NatText(n / 10);
    }
  }

  /** Parsing an unsigned integer no larger than `max`; a leading plus is accepted. */
  function ParseUnsigned(s: string, max: nat): Option<nat> {
    var digits := if |s| > 0 && s[0] == '+' then s[1..] else s;
    if |digits| > 0 && DigitsOnly(digits) && DigitsValue(digits) <= max then Some(DigitsValue(digits)) else None
  }

  /** Exactly the numbers up to `max` are read, with or without a plus. */
  lemma ParseUnsignedText(n: nat, max: nat)
    ensures ParseUnsigned(NatText(n), max) == if n <= max then Some(n) else None
    ensures ParseUnsigned("+" + NatText(n), max) == if n <= max then Some(n) else None
  {
    hide NatText, DigitsValue;
    NatTextValue(n);
    assert ("+" + NatText(n))[1..] == NatText(n);
  }

  /** Nothing else is a number: no empty text, and no character but digits after the sign. */
  lemma NotUnsigned(s: string, max: nat, i: nat)
    ensures s == "" || s == "+" ==> ParseUnsigned(s, max) == None
    ensures i < |s| && !IsDigit(s[i]) && !(i == 0 && s[0] == '+') ==> ParseUnsigned(s, max) == None
  {
    hide DigitsValue;
    var digits := if |s| > 0 && s[0] == '+' then s[1..] else s;
    if i < |s| && !IsDigit(s[i]) && !(i == 0 && s[0] == '+') && |digits| < |s| {
      assert digits[i - 1] == s[i];
    }
  }

  // ---- integers ----

  function IntText(n: int): string {
    if n < 0 then "-" + NatText(-n) else NatText(n)
  }

  function Signed(negative: bool, n: nat): int {
    if negative then 0 - n else n
  }

  /** Parsing a signed integer in [lo, hi]. */
  function ParseSigned(s: string, lo: int, hi: int): Option<int> {
    var digits := if |s| > 0 && (s[0] == '+' || s[0] == '-') then s[1..] else s;
    if |digits| == 0 || !DigitsOnly(digits) then None
    else
      var v := Signed(s[0] == '-', DigitsValue(digits));
      if lo <= v <= hi then Some(v) else None
  }

  /** Exactly the numbers from `lo` to `hi` are read. */
  lemma ParseSignedText(n: int, lo: int, hi: int)
    ensures ParseSigned(IntText(n), lo, hi) == if lo <= n <= hi then Some(n) else None
    ensures n >= 0 ==> ParseSigned("+" + NatText(n), lo, hi) == if lo <= n <= hi then Some(n) else None
  {
    hide NatText, DigitsValue;
    if n < 0 {
      NatTextValue(-n);
      assert IntText(n)[1..] == NatText(-n);
    } else {
      NatTextValue(n);
      assert ("+" + NatText(n))[1..] == NatText(n);
    }
  }

  lemma NotSigned(s: string, lo: int, hi: int, i: nat)
    ensures s == "" || s == "+" || s == "-" ==> ParseSigned(s, lo, hi) == None
    ensures i < |s| && !IsDigit(s[i]) && !(i == 0 && (s[0] == '+' || s[0] == '-')) ==> ParseSigned(s, lo, hi) == None
  {
    hide DigitsValue;
    var digits := if |s| > 0 && (s[0] == '+' || s[0] == '-') then s[1..] else s;
    if i < |s| && !IsDigit(s[i]) && !(i == 0 && (s[0] == '+' || s[0] == '-')) && |digits| < |s| {
      assert digits[i - 1] == s[i];
    }
  }

  lemma NumberIsWord(s: string)
    requires |s| > 0 && forall i :: 0 <= i < |s| ==> s[i] == '-' || s[i] == '.' || IsDigit(s[i])
    ensures IsWord(s) && Tight(s) && Free(s, '(') && Free(s, ')') && Free(s, '#')
  {
  }

  // ---- decimals ----

  function Pow10(d: nat): (p: nat)
    ensures p > 0
  {
    if d == 0 then 1 else 10 * Pow10(d - 1)
  }

  /** The last d digits of m, zero-padded. */
  function FractionText(m: nat, d: nat): (s: string)
    ensures |s| == d && AllDigits(s)
  {
    if d == 0 then "" else FractionText(m / 10, d - 1) + [Digit(m % 10)]
  }

  /** m / 10^d, rounded down. */
  function Whole(m: nat, d: nat): nat {
    if d == 0 then m else Whole(m / 10, d - 1)
  }

  /** m / 10^d with exactly d decimals, as `{:.d}` prints it. */
  function FixedText(m: nat, d: nat): (s: string) {
    NatText(Whole(m, d)) + if d == 0 then "" else "." + FractionText(m, d)
  }

  function SignedText(m: int, d: nat): string {
    if m < 0 then "-" + FixedText(-m, d) else FixedText(m, d)
  }

  /** A terminating decimal, which every finite floating-point number is: m / 10^d. */
  datatype Number = Number(m: int, d: nat)
  {
    function Value(): real {
      m as real / Pow10(d) as real
    }

    function Text(): string {
      SignedText(m, d)
    }
  }

  function PowReal(e: int): (p: real)
    ensures p > 0.0
    decreases if e < 0 then -e else e
  {
    if e == 0 then 1.0
    else if e > 0 then 10.0 * PowReal(e - 1)
    else PowReal(e + 1) / 10.0
  }

  /** digits [ "." digits ], at least one digit in all. */
  function ParseMantissa(s: string): Option<real> {
    var dot := Find(s, '.');
    var whole := if dot.Some? then s[..dot.value] else s;
    var frac := if dot.Some? then s[dot.value + 1..] else "";
    if |whole| + |frac| == 0 || !DigitsOnly(whole) || !DigitsOnly(frac) then None
    else Some(DigitsValue(whole + frac) as real / Pow10(|frac|) as real)
  }

  /** v * 10^e. */
  function Shifted(v: real, e: int): real {
    v * PowReal(e)
  }

  /** [ sign ] mantissa [ exponent ]: `f64::from_str` on finite numbers, without rounding. */
  function ParseReal(s: string): Option<real> {
    var body := if |s| > 0 && (s[0] == '+' || s[0] == '-') then s[1..] else s;
    var neg := |s| > 0 && s[0] == '-';
    var e := ExponentAt(body);
    var mantissa := ParseMantissa(if e.Some? then body[..e.value] else body);
    var exponent := if e.Some? then ParseExponent(body[e.value + 1..]) else Some(0);
    if mantissa.None? || exponent.None? then None
    else
      var v := Shifted(mantissa.value, exponent.value);
      Some(if neg then -v else v)
  }

  function ExponentAt(s: string): (r: Option<nat>)
    ensures r.Some? ==> r.value < |s|
  {
    match (Find(s, 'e'), Find(s, 'E'))
    case (None, r) => r
    case (r, None) => r
    case (Some(i), Some(j)) => Some(if i < j then i else j)
  }

  function ParseExponent(s: string): Option<int> {
    var digits := if |s| > 0 && (s[0] == '+' || s[0] == '-') then s[1..] else s;
    if |digits| == 0 || !DigitsOnly(digits) then None
    else Some(Signed(s[0] == '-', DigitsValue(digits)))
  }

  // ---- printing then parsing a decimal ----

  lemma Regroup(x: nat, p: nat)
    ensures x * (10 * p) == (x * p) * 10
  {
  }

  lemma {:induction false} DigitsValueConcat(a: string, b: string)
    requires AllDigits(a) && AllDigits(b)
    ensures AllDigits(a + b) && DigitsValue(a + b) == DigitsValue(a) * Pow10(|b|) + DigitsValue(b)
  {
    if |b| == 0 {
      assert a + b == a;
    } else {
      DigitsValueConcat(a, Front(b));
      assert Front(a + b) == a + Front(b) && Last(a + b) == Last(b);
      OneMoreDigit(DigitsValue(a), Pow10(|b| - 1), DigitsValue(Front(b)), DigitValue(Last(b)));
      assert DigitsValue(b) == DigitsValue(Front(b)) * 10 + DigitValue(Last(b));
      assert DigitsValue(a + b) == DigitsValue(a + Front(b)) * 10 + DigitValue(Last(b));
      assert Pow10(|b|) == 10 * Pow10(|b| - 1);
      hide DigitsValue, Pow10;
    }
  }

  lemma OneMoreDigit(x: nat, p: nat, y: nat, d: nat)
    ensures (x * p + y) * 10 + d == x * (10 * p) + (y * 10 + d)
  {
    Regroup(x, p);
  }

  lemma {:induction false} FractionTextValue(m: nat, d: nat)
    ensures Whole(m, d) * Pow10(d) + DigitsValue(FractionText(m, d)) == m
  {
    if d > 0 {
      FractionTextValue(m / 10, d - 1);
      assert Front(FractionText(m, d)) == FractionText(m / 10, d - 1);
      Regroup(Whole(m, d), Pow10(d - 1));
    }
  }

  lemma NoDotInDigits(a: string, b: string)
    requires AllDigits(a)
    ensures Find(a + "." + b, '.') == Some(|a|)
  {
    FindIs(a + "." + b, '.', |a|);
  }

  lemma DigitsOfFixed(m: nat, d: nat)
    ensures DigitsValue(NatText(Whole(m, d)) + FractionText(m, d)) == m
  {
    var whole, frac := NatText(Whole(m, d)), FractionText(m, d);
    NatTextValue(Whole(m, d));
    FractionTextValue(m, d);
    DigitsValueConcat(whole, frac);
  }

  lemma MantissaOfFixed(m: nat, d: nat)
    ensures ParseMantissa(FixedText(m, d)) == Some(m as real / Pow10(d) as real)
  {
    hide NatText, FractionText, DigitsValue, Pow10, Whole;
    var whole, frac := NatText(Whole(m, d)), FractionText(m, d);
    DigitsOfFixed(m, d);
    if d == 0 {
      assert FixedText(m, d) == whole && whole + "" == whole;
      assert Find(whole, '.') == None;
    } else {
      var s := whole + "." + frac;
      assert FixedText(m, d) == s;
      NoDotInDigits(whole, frac);
      assert s[..|whole|] == whole && s[|whole| + 1..] == frac;
    }
  }

  lemma FixedTextShape(m: nat, d: nat)
    ensures var s := FixedText(m, d);
            |s| > 0 && IsDigit(s[0]) && forall i :: 0 <= i < |s| ==> s[i] == '.' || IsDigit(s[i])
  {
  }

  lemma ParseRealPlain(t: string, v: real)
    requires |t| > 0 && IsDigit(t[0]) && (forall i :: 0 <= i < |t| ==> t[i] == '.' || IsDigit(t[i]))
    requires ParseMantissa(t) == Some(v)
    ensures ParseReal(t) == Some(v) && ParseReal("-" + t) == Some(-v)
  {
    hide ParseMantissa;
    assert ("-" + t)[1..] == t;
    assert ExponentAt(t) == None;
    assert PowReal(0) == 1.0;
  }

  lemma NegatedQuotient(a: real, p: real)
    requires p != 0.0
    ensures -(a / p) == (-a) / p
  {
    assert (-(a / p)) * p == -a;
  }

  /** A decimal survives printing and parsing. */
  lemma ParseRealText(m: int, d: nat)
    ensures ParseReal(SignedText(m, d)) == Some(m as real / Pow10(d) as real)
  {
    hide ParseReal, ParseMantissa, FixedText;
    var a: nat := if m < 0 then -m else m;
    MantissaOfFixed(a, d);
    FixedTextShape(a, d);
    ParseRealPlain(FixedText(a, d), a as real / Pow10(d) as real);
    NegatedQuotient(a as real, Pow10(d) as real);
    assert m < 0 ==> m as real == -(a as real);
  }

  lemma SignedTextShape(m: int, d: nat)
    ensures var s := SignedText(m, d);
            |s| > 0 && forall i :: 0 <= i < |s| ==> s[i] == '-' || s[i] == '.' || IsDigit(s[i])
  {
    FixedTextShape(if m < 0 then -m else m, d);
  }

  lemma NumberSign(n: Number)
    ensures n.Value() >= 0.0 <==> n.m >= 0
  {
  }

  lemma LastIsDigit(m: int, d: nat)
    ensures |SignedText(m, d)| > 0 && IsDigit(Last(SignedText(m, d)))
  {
  }

  /** A printed number is a word, free of comment marks, that ends in a digit. */
  lemma NumberTextIsWord(n: Number)
    ensures var t := n.Text();
            && IsWord(t) && Tight(t) && Free(t, '#') && IsDigit(Last(t))
            && (IsDigit(t[0]) || (t[0] == '-' && |t| > 1)) && Free(t, 'e') && Free(t, 'E')
    ensures ParseReal(n.Text()) == Some(n.Value())
  {
    hide ParseReal;
    SignedTextShape(n.m, n.d);
    NumberIsWord(n.Text());
    LastIsDigit(n.m, n.d);
    ParseRealText(n.m, n.d);
    SignedTextStart(n.m, n.d);
  }

  lemma SignedTextStart(m: int, d: nat)
    ensures var t := SignedText(m, d); |t| > 0 && (IsDigit(t[0]) || (t[0] == '-' && |t| > 1))
  {
    FixedTextShape(if m < 0 then -m else m, d);
  }

  /** A text that ends in anything but a digit or a point is no number. */
  lemma BadEnding(s: string)
    requires |s| > 1 && (s[0] == '-' ==> |s| > 2) && !IsDigit(Last(s)) && Last(s) != '.'
    requires Free(s, 'e') && Free(s, 'E') && s[0] != '+'
    ensures ParseReal(s) == None
  {
    hide ParseMantissa;
    var body := if s[0] == '-' then s[1..] else s;
    assert Last(body) == Last(s);
    assert ExponentAt(body) == None;
    TrailingLetter(body);
  }

  lemma TrailingLetter(s: string)
    requires |s| > 1 && !IsDigit(Last(s)) && Last(s) != '.'
    ensures ParseMantissa(s) == None
  {
    hide DigitsValue, Pow10;
    var dot := Find(s, '.');
    if dot.Some? {
      assert Last(s[dot.value + 1..]) == Last(s);
    }
  }
}
