/** The calculator's token type, shared by both generations of the front end. The
    compiled generation carries a plain `f64` in `Number` (`Operator<Float>`); the later
    revision carries a monomial `number · x^x · i^i` (`Operator<Monomial>`). */
module Tokens {
  import opened Outcomes
  import opened Floats

  /** Rust's `i32`. */
  newtype I32 = x: int | -0x8000_0000 <= x < 0x8000_0000

  /** The payload of the revised `Number { number, x, i }`: the coefficient, the power
      of the unknown `x`, and the power of the imaginary unit `i`. */
  datatype Monomial = Monomial(number: Float, x: I32, i: I32)

  datatype Operator<N> =
    | Var(name: string)
    | Number(n: N)
    | Add
    | Minus
    | Mult
    | MatricialMult
    | Modulo
    | Power
    | OpenParenthesis
    | CloseParenthesis
    | Div
    | Mat(rows: seq<seq<Operator<N>>>)
    | Equal

  /** Tokens of the revised generation. */
  type Token = Operator<Monomial>

  /** How a parsed `f64` becomes a revised `Number`: `x: 0, i: 0`. */
  function AsMonomial(f: Float): Monomial {
    Monomial(f, 0, 0)
  }

  /** The tokens that name a value rather than an operation. */
  predicate IsOperand<N>(t: Operator<N>) {
    t.Var? || t.Number? || t.Mat?
  }

  predicate IsParenthesis<N>(t: Operator<N>) {
    t.OpenParenthesis? || t.CloseParenthesis?
  }

  /** The five operators that `get_precedence` ranks, besides the parentheses. */
  predicate IsRanked<N>(t: Operator<N>) {
    t.Add? || t.Minus? || t.Mult? || t.Div? || t.Power?
  }

  /** `get_precedence`: parentheses bind loosest, then the additive operators, then the
      multiplicative ones, then `^`; every other token is a panic (`unreachable!()`). */
  function Precedence<N>(t: Operator<N>): (r: Outcome<nat>)
    ensures r.Ok? <==> IsRanked(t) || IsParenthesis(t)
    ensures IsParenthesis(t) ==> r == Ok(1)
    ensures (t.Add? || t.Minus?) ==> r == Ok(2)
    ensures (t.Mult? || t.Div?) ==> r == Ok(3)
    ensures t.Power? ==> r == Ok(4)
    ensures r.Panic? <==> !r.Ok?
    ensures r.Panic? ==> r.message == Unreachable
  {
    match t
    case Add => Ok(2)
    case Minus => Ok(2)
    case Mult => Ok(3)
    case Div => Ok(3)
    case Power => Ok(4)
    case CloseParenthesis => Ok(1)
    case OpenParenthesis => Ok(1)
    case _ => Panic(Unreachable)
  }

  /** `get_associativity`: true means right-associative, which only `^` is. */
  function RightAssociative<N>(t: Operator<N>): (r: bool)
    ensures r <==> t == Power
  {
    t.Power?
  }
}
