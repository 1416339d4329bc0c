/** `Operator::calc` of the revised generation: the only arithmetic implemented is
    the sum of two monomials `number · x^x · i^i`, which folds `i^i` to `±i^(i % 2)`
    and succeeds when the two terms are alike or one of them is zero. */
module Arithmetic {
  import opened Outcomes
  import opened Floats
  import opened Tokens

  /** Rust's `%` on integers: the remainder takes the sign of the dividend. */
  function Rem(a: int, b: int): (r: int)
    requires b > 0
    ensures a >= 0 ==> 0 <= r < b
    ensures a < 0 ==> -b < r <= 0
    ensures (a - r) % b == 0
  {
    if a >= 0 then
      assert a - a % b == b * (a / b) + 0;
      ModOfMultiple(b, a / b, 0);
      a % b
    else
      assert a + (-a) % b == b * -((-a) / b) + 0;
      ModOfMultiple(b, -((-a) / b), 0);
      -((-a) % b)
  }

  lemma {:induction false} MulAtLeast(b: int, k: int)
    requires b > 0 && k >= 1
    ensures b * k >= b
    decreases k
  {
    if k > 1 {
      MulAtLeast(b, k - 1);
      assert b * k == b * (k - 1) + b;
    }
  }

  /** Euclidean division is unique: `b·q + m` leaves `m` when `0 <= m < b`. */
  lemma ModOfMultiple(b: int, q: int, m: int)
    requires b > 0 && 0 <= m < b
    ensures (b * q + m) % b == m
  {
    var x := b * q + m;
    var d, r := x / b, x % b;
    assert x == b * d + r && 0 <= r < b;
    assert b * (q - d) == r - m;
    if q - d >= 1 {
      MulAtLeast(b, q - d);
    } else if q - d <= -1 {
      MulAtLeast(b, d - q);
    }
  }

  /** The sign `i^i` contributes once the exponent is folded to `i % 2`: `1.` when
      `i % 4 < 2`, else `-1.`. */
  function Sign(i: I32): Float {
    if Rem(i as int, 4) < 2 then One else MinusOne
  }

  /** `i % 2` as a power of the imaginary unit. */
  function Parity(i: I32): (r: I32)
    ensures -1 <= r <= 1
    ensures (i as int - r as int) % 2 == 0
    ensures i >= 0 ==> r >= 0
    ensures i < 0 ==> r <= 0
  {
    Rem(i as int, 2) as I32
  }

  /** The `Add` arm on two numbers: one monomial when the terms are alike (same
      power of `x`, same parity of the power of `i`) or one coefficient is zero, else
      `None`. */
  function AddMonomials(a: Monomial, b: Monomial): Option<Monomial> {
    if a.x == b.x && Parity(a.i) == Parity(b.i) then
      Some(Monomial(Floats.Add(Mul(a.number, Sign(a.i)), Mul(b.number, Sign(b.i))), a.x, Parity(a.i)))
    else if IsZero(a.number) then
      Some(Monomial(Mul(b.number, Sign(b.i)), b.x, Parity(b.i)))
    else if IsZero(b.number) then
      Some(Monomial(Mul(a.number, Sign(a.i)), a.x, Parity(a.i)))
    else None
  }

  /** `op.calc(a, b)`: anything but `Add` on two numbers is `unimplemented!()`. */
  function Calc(op: Token, a: Token, b: Token): (r: Outcome<Option<Token>>)
    ensures r.Panic? <==> !(op == Add && a.Number? && b.Number?)
    ensures r.Panic? ==> r.message == Unimplemented
    ensures r.Ok? && r.value.Some? ==> r.value.value.Number? && -1 <= r.value.value.n.i <= 1
  {
    if op != Add || !a.Number? || !b.Number? then Panic(Unimplemented)
    else
      match AddMonomials(a.n, b.n)
      case None => Ok(None)
      case Some(m) => Ok(Some(Number(m)))
  }

  /** The sum cannot be written as one monomial exactly when the terms are unlike and
      both coefficients are non-zero. */
  lemma CalcNone(a: Monomial, b: Monomial)
    ensures Calc(Add, Number(a), Number(b)) == Ok(None) <==>
      (a.x != b.x || Parity(a.i) != Parity(b.i)) && !IsZero(a.number) && !IsZero(b.number)
  {
  }

  /** A complex coefficient. */
  datatype Complex = Complex(re: real, im: real)

  function Plus(u: Complex, v: Complex): Complex {
    Complex(u.re + v.re, u.im + v.im)
  }

  /** Multiplication by `i`. */
  function Turn(c: Complex): Complex {
    Complex(-c.im, c.re)
  }

  /** `c · i^n`, by repeated multiplication by `i`. */
  function TurnN(c: Complex, n: nat): Complex {
    if n == 0 then c else Turn(TurnN(c, n - 1))
  }

  /** The powers of `i` repeat with period four. */
  lemma {:induction false} TurnCycle(c: Complex, n: nat)
    ensures TurnN(c, n) == if n % 4 == 0 then c else if n % 4 == 1 then Complex(-c.im, c.re)
      else if n % 4 == 2 then Complex(-c.re, -c.im) else Complex(c.im, -c.re)
  {
    if n > 0 {
      TurnCycle(c, n - 1);
    }
  }

  /** The coefficient of `x^k` in the monomial `m`, for a finite coefficient and a
      non-negative power of `i`. */
  function Coeff(m: Monomial, k: int): Complex
    requires m.number.Finite? && m.i >= 0
  {
    if m.x as int != k then Complex(0.0, 0.0) else TurnN(Complex(m.number.value, 0.0), m.i as nat)
  }

  lemma ParityOfQuarter(n: nat)
    ensures n % 2 == (n % 4) % 2
  {
    var q, r := n / 4, n % 4;
    assert n == 2 * (2 * q + r / 2) + r % 2;
  }

  /** `v · i^n == (±v) · i^(n % 2)`, the sign being `+` when `n % 4 < 2`. */
  lemma TurnFold(v: real, n: nat)
    ensures TurnN(Complex(if n % 4 < 2 then v else -v, 0.0), n % 2) == TurnN(Complex(v, 0.0), n)
  {
    ParityOfQuarter(n);
    TurnCycle(Complex(v, 0.0), n);
    var w := Complex(if n % 4 < 2 then v else -v, 0.0);
    if n % 2 == 1 {
      assert TurnN(w, n % 2) == Turn(TurnN(w, 0));
    }
  }

  /** Folding `i^i` to `Sign(i) · i^(i % 2)` keeps the term's value. */
  lemma FoldKeepsValue(m: Monomial, k: int)
    requires m.number.Finite? && m.i >= 0
    ensures var f := Monomial(Mul(m.number, Sign(m.i)), m.x, Parity(m.i));
      f.number.Finite? && f.i >= 0 && Coeff(f, k) == Coeff(m, k)
  {
    var n := m.i as nat;
    var v := m.number.value;
    assert Parity(m.i) as nat == n % 2;
    assert Mul(m.number, Sign(m.i)) == Finite(if n % 4 < 2 then v else -v);
    TurnFold(v, n);
  }

  lemma CoeffOfSum(u: Monomial, w: Monomial, k: int)
    requires u.number.Finite? && w.number.Finite? && u.i >= 0 && u.x == w.x && u.i == w.i
    ensures Coeff(Monomial(Finite(u.number.value + w.number.value), u.x, u.i), k) == Plus(Coeff(u, k), Coeff(w, k))
  {
    TurnCycle(Complex(u.number.value + w.number.value, 0.0), u.i as nat);
    TurnCycle(Complex(u.number.value, 0.0), u.i as nat);
    TurnCycle(Complex(w.number.value, 0.0), u.i as nat);
  }

  lemma CoeffOfZero(m: Monomial, k: int)
    requires m.number == Finite(0.0) && m.i >= 0
    ensures Coeff(m, k) == Complex(0.0, 0.0)
  {
    TurnCycle(Complex(0.0, 0.0), m.i as nat);
  }

  lemma LikeTermsSound(a: Monomial, b: Monomial, k: int)
    requires a.number.Finite? && b.number.Finite? && a.i >= 0 && b.i >= 0
    requires a.x == b.x && Parity(a.i) == Parity(b.i)
    ensures var m := AddMonomials(a, b).value;
      m.number.Finite? && m.i >= 0 && Coeff(m, k) == Plus(Coeff(a, k), Coeff(b, k))
  {
    var fa := Monomial(Mul(a.number, Sign(a.i)), a.x, Parity(a.i));
    var fb := Monomial(Mul(b.number, Sign(b.i)), b.x, Parity(b.i));
    FoldKeepsValue(a, k);
    FoldKeepsValue(b, k);
    assert AddMonomials(a, b) == Some(Monomial(Floats.Add(fa.number, fb.number), fa.x, fa.i));
    assert Floats.Add(fa.number, fb.number) == Finite(fa.number.value + fb.number.value);
    CoeffOfSum(fa, fb, k);
  }

  lemma ZeroTermSound(a: Monomial, b: Monomial, k: int)
    requires a.number.Finite? && b.number.Finite? && a.i >= 0 && b.i >= 0
    requires !(a.x == b.x && Parity(a.i) == Parity(b.i)) && (IsZero(a.number) || IsZero(b.number))
    ensures var m := AddMonomials(a, b).value;
      m.number.Finite? && m.i >= 0 && Coeff(m, k) == Plus(Coeff(a, k), Coeff(b, k))
  {
    if IsZero(a.number) {
      FoldKeepsValue(b, k);
      CoeffOfZero(a, k);
    } else {
      FoldKeepsValue(a, k);
      CoeffOfZero(b, k);
    }
  }

  lemma AddMonomialsSound(a: Monomial, b: Monomial, k: int)
    requires a.number.Finite? && b.number.Finite? && a.i >= 0 && b.i >= 0
    ensures var r := AddMonomials(a, b);
      r.Some? ==> r.value.number.Finite? && r.value.i >= 0 && Coeff(r.value, k) == Plus(Coeff(a, k), Coeff(b, k))
  {
    if a.x == b.x && Parity(a.i) == Parity(b.i) {
      LikeTermsSound(a, b, k);
    } else if IsZero(a.number) || IsZero(b.number) {
      ZeroTermSound(a, b, k);
    }
  }

  /** Whenever `calc` sums two finite monomials with non-negative powers of `i`, the
      result has the value of the sum, power of `x` by power of `x`. */
  lemma CalcSound(a: Monomial, b: Monomial, k: int)
    requires a.number.Finite? && b.number.Finite? && a.i >= 0 && b.i >= 0
    ensures var r := Calc(Add, Number(a), Number(b));
      r.Ok? && (r.value.Some? ==>
        var m := r.value.value.n;
        m.number.Finite? && 0 <= m.i <= 1 && Coeff(m, k) == Plus(Coeff(a, k), Coeff(b, k)))
  {
    AddMonomialsSound(a, b, k);
    assert Calc(Add, Number(a), Number(b)) ==
      if AddMonomials(a, b).Some? then Ok(Some(Number(AddMonomials(a, b).value))) else Ok(None);
  }

  // Cases of the source's own unit tests.

  lemma CalcAddsLikeTerms()
    ensures Calc(Add, Number(Monomial(Finite(3.0), 0, 0)), Number(Monomial(Finite(-2.0), 0, 0)))
      == Ok(Some(Number(Monomial(Finite(1.0), 0, 0))))
  {
  }

  lemma CalcKeepsUnlikeTerms()
    ensures Calc(Add, Number(Monomial(Finite(3.0), 99, 0)), Number(Monomial(Finite(-4.0), 98, 0))) == Ok(None)
  {
  }

  lemma CalcFoldsPowersOfI()
    ensures Calc(Add, Number(Monomial(Finite(3.0), 0, 0)), Number(Monomial(Finite(4.0), 0, 98)))
      == Ok(Some(Number(Monomial(Finite(-1.0), 0, 0))))
  {
  }

  lemma CalcDropsZeroTerm()
    ensures Calc(Add, Number(Monomial(Finite(0.0), 0, 0)), Number(Monomial(Finite(4.0), 0, 3)))
      == Ok(Some(Number(Monomial(Finite(-4.0), 0, 1))))
  {
  }

  /** For a negative even power of `i` the fold keeps the wrong sign: Rust's
      `-2 % 4 == -2` is below 2, so `4·i^-2` is taken as `+4`, although
      `i^-2 == i^2 == -1` makes it `-4`, the value of `4·i^2`. */
  lemma CalcNegativeEvenPower()
    ensures Calc(Add, Number(Monomial(Finite(0.0), 0, 0)), Number(Monomial(Finite(4.0), 0, -2)))
      == Ok(Some(Number(Monomial(Finite(4.0), 0, 0))))
    ensures Coeff(Monomial(Finite(4.0), 0, 0), 0) == Complex(4.0, 0.0)
    ensures Coeff(Monomial(Finite(4.0), 0, 2), 0) == Complex(-4.0, 0.0)
  {
    var a, b := Monomial(Finite(0.0), 0, 0), Monomial(Finite(4.0), 0, -2);
    SumWithMinusTwo();
    CalcOfSum(a, b, Monomial(Finite(4.0), 0, 0));
    FourTimesISquared();
  }

  lemma FourTimesISquared()
    ensures Coeff(Monomial(Finite(4.0), 0, 0), 0) == Complex(4.0, 0.0)
    ensures Coeff(Monomial(Finite(4.0), 0, 2), 0) == Complex(-4.0, 0.0)
  {
    assert TurnN(Complex(4.0, 0.0), 2) == Turn(Turn(Complex(4.0, 0.0)));
  }

  lemma SumWithMinusTwo()
    ensures AddMonomials(Monomial(Finite(0.0), 0, 0), Monomial(Finite(4.0), 0, -2)) == Some(Monomial(Finite(4.0), 0, 0))
  {
    FoldOfMinusTwo();
    FoldOfZero();
    SumOfFour();
  }

  lemma CalcOfSum(a: Monomial, b: Monomial, m: Monomial)
    requires AddMonomials(a, b) == Some(m)
    ensures Calc(Add, Number(a), Number(b)) == Ok(Some(Number(m)))
  {
  }

  lemma FoldOfMinusTwo()
    ensures Sign(-2) == One && Parity(-2) == 0
  {
    assert Rem(-2, 4) == -2 && Rem(-2, 2) == 0;
  }

  lemma FoldOfZero()
    ensures Sign(0) == One && Parity(0) == 0
  {
    assert Rem(0, 4) == 0 && Rem(0, 2) == 0;
  }

  lemma SumOfFour()
    ensures Floats.Add(Mul(Finite(0.0), One), Mul(Finite(4.0), One)) == Finite(4.0)
  {
  }

  lemma CalcMultiplicationUnimplemented()
    ensures Calc(Mult, Number(Monomial(Finite(3.0), 0, 0)), Number(Monomial(Finite(4.0), 0, 0))) == Panic(Unimplemented)
  {
  }
}
