/** Rust's `f64` as the calculator uses it: parsed from text, added, multiplied by ±1
    and compared with zero. Finite values are exact reals (no rounding, no overflow to
    infinity, no signed zero); infinities and NaN follow IEEE 754. */
module Floats {
  import opened Outcomes
  import opened Text

  datatype Float = Finite(value: real) | Infinity(negative: bool) | NaN

  const One := Finite(1.0)
  const MinusOne := Finite(-1.0)

  /** `a == 0.` (true of 0.0 only; NaN is never equal to anything). */
  predicate IsZero(a: Float) {
    a == Finite(0.0)
  }

  /** IEEE 754 addition without rounding. */
  function Add(a: Float, b: Float): (r: Float)
    ensures a.Finite? && b.Finite? ==> r == Finite(a.value + b.value)
    ensures a.NaN? || b.NaN? ==> r.NaN?
    ensures IsZero(a) ==> r == b
    ensures a.Infinity? && b.Finite? ==> r == a
    ensures a.Finite? && b.Infinity? ==> r == b
    ensures a.Infinity? && b.Infinity? ==> (if a == b then r == a else r.NaN?)
  {
    match (a, b)
    case (NaN, _) => NaN
    case (_, NaN) => NaN
    case (Finite(x), Finite(y)) => Finite(x + y)
    case (Infinity(_), Finite(_)) => a
    case (Finite(_), Infinity(_)) => b
    case (Infinity(n), Infinity(m)) => if n == m then a else NaN
  }

  /** IEEE 754 negation: flips the sign of a number or an infinity. */
  function Neg(a: Float): Float {
    match a
    case Finite(x) => Finite(-x)
    case Infinity(n) => Infinity(!n)
    case NaN => NaN
  }

  /** IEEE 754 multiplication without rounding. */
  function Mul(a: Float, b: Float): (r: Float)
    ensures b == One ==> r == a
    ensures b == MinusOne ==> r == Neg(a)
  {
    match (a, b)
    case (NaN, _) => NaN
    case (_, NaN) => NaN
    case (Finite(x), Finite(y)) =>
      assert y == 1.0 ==> x * y == x;
      assert y == -1.0 ==> x * y == -x;
      Finite(x * y)
    case (Infinity(n), Finite(y)) => if y == 0.0 then NaN else Infinity(n != (y < 0.0))
    case (Finite(x), Infinity(n)) => if x == 0.0 then NaN else Infinity(n != (x < 0.0))
    case (Infinity(n), Infinity(m)) => Infinity(n != m)
  }

  /** Addition does not depend on the order of its operands. */
  lemma AddCommutes(a: Float, b: Float)
    ensures Add(a, b) == Add(b, a)
  {
  }

  predicate AllDigits(s: string) {
    forall k | 0 <= k < |s| :: IsDigit(s[k])
  }

  /** The number a string of decimal digits denotes. */
  function DigitsValue(s: string): nat
    requires AllDigits(s)
  {
    if s == [] then 0 else 10 * DigitsValue(s[..|s| - 1]) + (s[|s| - 1] as int - '0' as int)
  }

  /** m · 10^e, one factor of ten at a time. */
  function Scale10(m: nat, e: int): real
    decreases if e >= 0 then e else -e
  {
    if e == 0 then m as real
    else if e > 0 then 10.0 * Scale10(m, e - 1)
    else Scale10(m, e + 1) / 10.0
  }

  function LowerAscii(s: string): (r: string)
    ensures |r| == |s|
    ensures forall k | 0 <= k < |s| :: r[k] == if 'A' <= s[k] <= 'Z' then (s[k] as int + 32) as char else s[k]
  {
    if s == [] then []
    else [if 'A' <= s[0] <= 'Z' then (s[0] as int + 32) as char else s[0]] + LowerAscii(s[1..])
  }

  /** Exp ::= Sign? Digit+ (what follows the `e`). */
  function ParseExponent(s: string): Option<int> {
    var digits := if s != [] && (s[0] == '+' || s[0] == '-') then s[1..] else s;
    if digits != [] && AllDigits(digits) then
      Some(if s[0] == '-' then -(DigitsValue(digits) as int) else DigitsValue(digits))
    else None
  }

  /** Number ::= ( Digit+ | Digit+ '.' Digit* | Digit* '.' Digit+ ) ( ('e' | 'E') Exp )? */
  function ParseUnsigned(s: string): Option<real> {
    var e := IndexOfAny(s, "eE");
    var exponent := if e < |s| then ParseExponent(s[e + 1..]) else Some(0);
    if exponent.None? then None else ParseMantissa(s[..e], exponent.value)
  }

  /** The part before the exponent, scaled by ten to the `x`. */
  function ParseMantissa(mantissa: string, x: int): Option<real> {
    var dot := IndexOfAny(mantissa, ".");
    var whole := mantissa[..dot];
    var fraction := if dot < |mantissa| then mantissa[dot + 1..] else "";
    if !AllDigits(whole) || !AllDigits(fraction) || |whole| + |fraction| == 0 then None
    else Some(Scale10(DigitsValue(whole + fraction), x - |fraction|))
  }

  /** Rust's `str::parse::<f64>()`: an optional sign, then `inf`, `infinity` or `nan`
      in any case, or a decimal number with optional fraction and exponent. No
      whitespace is accepted anywhere. */
  function ParseF64(s: string): (r: Option<Float>)
    ensures r.Some? ==> s != []
  {
    var body := if s != [] && (s[0] == '+' || s[0] == '-') then s[1..] else s;
    var negative := s != [] && s[0] == '-';
    var word := LowerAscii(body);
    if word == "inf" || word == "infinity" then Some(Infinity(negative))
    else if word == "nan" then Some(NaN)
    else match ParseUnsigned(body)
      case Some(v) => Some(Finite(if negative then -v else v))
      case None => None
  }

  /** The characters a float literal can be made of: ASCII letters (for `inf`, `nan`
      and the exponent marker), digits, signs and the decimal point. */
  predicate IsFloatChar(c: char) {
    IsDigit(c) || c == '+' || c == '-' || c == '.' || 'a' <= c <= 'z' || 'A' <= c <= 'Z'
  }

  predicate FloatChars(s: string) {
    forall k | 0 <= k < |s| :: IsFloatChar(s[k])
  }

  lemma DigitsAlphabet(x: string)
    requires AllDigits(x)
    ensures FloatChars(x)
  {
  }

  /** Float characters on both sides of a float character. */
  lemma Around(s: string, i: nat)
    requires i <= |s| && FloatChars(s[..i])
    requires i < |s| ==> IsFloatChar(s[i]) && FloatChars(s[i + 1..])
    ensures FloatChars(s)
  {
    forall k | 0 <= k < |s|
      ensures IsFloatChar(s[k])
    {
      if k < i {
        assert s[k] == s[..i][k];
      } else if k > i {
        assert s[k] == s[i + 1..][k - i - 1];
      }
    }
  }

  lemma ExponentAlphabet(x: string)
    requires ParseExponent(x).Some?
    ensures FloatChars(x)
  {
    if x[0] == '+' || x[0] == '-' {
      DigitsAlphabet(x[1..]);
      Around(x, 0);
    } else {
      DigitsAlphabet(x);
    }
  }

  lemma MantissaAlphabet(m: string)
    requires var dot := IndexOfAny(m, ".");
      AllDigits(m[..dot]) && (dot < |m| ==> AllDigits(m[dot + 1..]))
    ensures FloatChars(m)
  {
    var dot := IndexOfAny(m, ".");
    DigitsAlphabet(m[..dot]);
    if dot < |m| {
      DigitsAlphabet(m[dot + 1..]);
    }
    Around(m, dot);
  }

  /** What `ParseUnsigned` demands of the text, without the value it computes. */
  lemma ParseUnsignedShape(s: string)
    requires ParseUnsigned(s).Some?
    ensures var e := IndexOfAny(s, "eE");
      var dot := IndexOfAny(s[..e], ".");
      AllDigits(s[..e][..dot]) && (dot < |s[..e]| ==> AllDigits(s[..e][dot + 1..])) &&
      (e < |s| ==> ParseExponent(s[e + 1..]).Some?)
  {
    WholeDigits(s);
    FractionDigits(s);
    ExponentParses(s);
  }

  lemma WholeDigits(s: string)
    requires ParseUnsigned(s).Some?
    ensures var e := IndexOfAny(s, "eE"); AllDigits(s[..e][..IndexOfAny(s[..e], ".")])
  {
  }

  lemma FractionDigits(s: string)
    requires ParseUnsigned(s).Some?
    ensures var e := IndexOfAny(s, "eE"); var dot := IndexOfAny(s[..e], ".");
      dot < |s[..e]| ==> AllDigits(s[..e][dot + 1..])
  {
  }

  lemma ExponentParses(s: string)
    requires ParseUnsigned(s).Some?
    ensures IndexOfAny(s, "eE") < |s| ==> ParseExponent(s[IndexOfAny(s, "eE") + 1..]).Some?
  {
  }

  lemma ParseUnsignedAlphabet(s: string)
    requires ParseUnsigned(s).Some?
    ensures FloatChars(s)
  {
    ParseUnsignedShape(s);
    var e := IndexOfAny(s, "eE");
    MantissaAlphabet(s[..e]);
    if e < |s| {
      ExponentAlphabet(s[e + 1..]);
    }
    Around(s, e);
  }

  predicate Lowercase(w: string) {
    forall k | 0 <= k < |w| :: 'a' <= w[k] <= 'z'
  }

  /** A text whose lower-case form is made of letters is made of letters. */
  lemma LettersAlphabet(body: string)
    requires Lowercase(LowerAscii(body))
    ensures FloatChars(body)
  {
    var w := LowerAscii(body);
    forall k | 0 <= k < |body|
      ensures IsFloatChar(body[k])
    {
      assert 'a' <= w[k] <= 'z';
    }
  }

  lemma FloatWordsLowercase(w: string)
    requires w == "inf" || w == "infinity" || w == "nan"
    ensures Lowercase(w)
  {
  }

  /** Whatever `parse::<f64>()` accepts is written with float characters only; in
      particular it holds no bracket, comma or semicolon. */
  lemma ParseF64Alphabet(s: string)
    requires ParseF64(s).Some?
    ensures FloatChars(s)
  {
    var signed := s != [] && (s[0] == '+' || s[0] == '-');
    var body := if signed then s[1..] else s;
    var word := LowerAscii(body);
    if word == "inf" || word == "infinity" || word == "nan" {
      FloatWordsLowercase(word);
      LettersAlphabet(body);
    } else {
      ParseUnsignedAlphabet(body);
    }
    if signed {
      Around(s, 0);
    }
  }

  /** A single decimal digit parses as its own value. */
  lemma ParseDigit(d: char)
    requires IsDigit(d)
    ensures ParseF64([d]) == Some(Finite((d as int - '0' as int) as real))
  {
    var s := [d];
    assert LowerAscii(s) == s;
    assert IndexOfAny(s, "eE") == 1;
    assert s[..1] == s;
    assert IndexOfAny(s, ".") == 1;
    assert s[..0] == [];
    assert DigitsValue(s) == d as int - '0' as int by {
      assert s[..|s| - 1] == [];
    }
    assert Scale10(DigitsValue(s + ""), 0) == (d as int - '0' as int) as real by {
      assert s + "" == s;
    }
  }
}
