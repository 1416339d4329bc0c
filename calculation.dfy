/** `calculation::calc` of the revised generation: one pass over a postfix sequence
    with a result stack, folding `a b op` into one token wherever `Operator::calc`
    can, and a new pass as long as the previous one folded something. */
module Calculation {
  import opened Outcomes
  import opened Floats
  import opened Tokens
  import opened Arithmetic
  import opened Seqs

  const WrongInput := "wrong input"
  const UnexpectedToken := "unexpected token wile calculation"

  /** The state of a pass: the result stack and whether anything was folded yet. */
  datatype Reduction = Reduction(stack: seq<Token>, changed: bool)

  /** The operators a pass tries to fold. */
  predicate IsBinary(t: Token) {
    t.Add? || t.Minus? || t.Mult? || t.Modulo? || t.MatricialMult? || t.Power? || t.Div?
  }

  /** One token of a pass. Numbers and matrices are pushed; a binary operator pops the
      top two entries and pushes either what `calc` makes of them or, when `calc` gives
      `None`, both entries and the operator again, in their original order. */
  function Push(st: Reduction, ope: Token): (r: Outcome<Reduction>)
    ensures ope.Var? ==> r == Panic(Unimplemented)
    ensures (ope.Number? || ope.Mat?) ==> r == Ok(Reduction(st.stack + [ope], st.changed))
    ensures (IsParenthesis(ope) || ope.Equal?) ==> r == Err(UnexpectedToken)
    ensures IsBinary(ope) && |st.stack| < 2 ==> r == Err(WrongInput)
    ensures r.Ok? ==> |r.value.stack| + (if r.value.changed && !st.changed then 2 else 0) <= |st.stack| + 1
    ensures r.Ok? && !r.value.changed ==> !st.changed && r.value.stack == st.stack + [ope]
    ensures r.Ok? && st.changed ==> r.value.changed
    ensures r.Err? ==> r.error == WrongInput || r.error == UnexpectedToken
    ensures r.Panic? ==> r.message == Unimplemented
  {
    if ope.Var? then Panic(Unimplemented)
    else if ope.Number? || ope.Mat? then Ok(Reduction(st.stack + [ope], st.changed))
    else if !IsBinary(ope) then Err(UnexpectedToken)
    else if |st.stack| < 2 then Err(WrongInput)
    else
      var n := |st.stack|;
      var last := st.stack[n - 1];
      var lastLast := st.stack[n - 2];
      var below := st.stack[..n - 2];
      assert st.stack == below + [lastLast, last];
      match Calc(ope, lastLast, last)
      case Ok(Some(calculated)) => Ok(Reduction(below + [calculated], true))
      case Ok(None) => Ok(Reduction(below + [lastLast, last, ope], st.changed))
      case Err(e) => Err(e)
      case Panic(m) => Panic(m)
  }

  /** A whole pass from state `st`. A pass that folds nothing gives back its input. */
  function Pass(input: seq<Token>, st: Reduction): (r: Outcome<Reduction>)
    ensures r.Ok? ==> |r.value.stack| + (if r.value.changed && !st.changed then 2 else 0) <= |st.stack| + |input|
    ensures r.Ok? && !r.value.changed ==> !st.changed && r.value.stack == st.stack + input
    ensures r.Ok? && st.changed ==> r.value.changed
    ensures r.Err? ==> r.error == WrongInput || r.error == UnexpectedToken
    ensures r.Panic? ==> r.message == Unimplemented
    decreases |input|
  {
    if input == [] then Ok(st)
    else
      match Push(st, input[0])
      case Ok(next) =>
        var r := Pass(input[1..], next);
        assert r.Ok? && !r.value.changed ==> r.value.stack == st.stack + input by {
          Unroll(input, [], st.stack);
        }
        r
      case Err(e) => Err(e)
      case Panic(m) => Panic(m)
  }

  /** A pass from the empty stack. */
  function FirstPass(input: seq<Token>): Outcome<Reduction> {
    Pass(input, Reduction([], false))
  }

  /** `calc`: passes until one folds nothing. The result is never longer than the
      input, and a further pass over it folds nothing and gives it back. */
  function Reduce(input: seq<Token>): (r: Outcome<seq<Token>>)
    ensures r.Ok? ==> |r.value| <= |input|
    ensures r.Ok? ==> FirstPass(r.value) == Ok(Reduction(r.value, false))
    ensures r.Err? ==> r.error == WrongInput || r.error == UnexpectedToken
    ensures r.Panic? ==> r.message == Unimplemented
    decreases |input|
  {
    match FirstPass(input)
    case Ok(st) =>
      if st.changed then Reduce(st.stack)
      else
        assert st.stack == input;
        Ok(st.stack)
    case Err(e) => Err(e)
    case Panic(m) => Panic(m)
  }

  /** The result of `calc` is a fixed point of `calc`. */
  lemma ReduceIdempotent(input: seq<Token>)
    requires Reduce(input).Ok?
    ensures Reduce(Reduce(input).value) == Reduce(input)
  {
    var out := Reduce(input).value;
    assert FirstPass(out) == Ok(Reduction(out, false));
  }

  /** `calc` over a sequence of numbers and matrices folds nothing. */
  lemma {:induction false} OperandsStay(input: seq<Token>, st: Reduction)
    requires forall k | 0 <= k < |input| :: input[k].Number? || input[k].Mat?
    ensures Pass(input, st) == Ok(Reduction(st.stack + input, st.changed))
    decreases |input|
  {
    if input != [] {
      OperandsStay(input[1..], Reduction(st.stack + [input[0]], st.changed));
      assert st.stack + [input[0]] + input[1..] == st.stack + input by {
        assert input == [input[0]] + input[1..];
      }
    } else {
      assert st.stack + input == st.stack;
    }
  }

  lemma OperandsAreReduced(input: seq<Token>)
    requires forall k | 0 <= k < |input| :: input[k].Number? || input[k].Mat?
    ensures Reduce(input) == Ok(input)
  {
    OperandsStay(input, Reduction([], false));
    assert [] + input == input;
  }

  /** A pass over `[t] + rest`: the first token, then the rest. */
  lemma PassCons(t: Token, rest: seq<Token>, st: Reduction)
    ensures Pass([t] + rest, st) == if Push(st, t).Ok? then Pass(rest, Push(st, t).value) else Push(st, t)
  {
    assert ([t] + rest)[1..] == rest;
  }

  /** A binary operator over two entries `calc` leaves alone. */
  lemma PushKeeps(st: Reduction, x: Token, y: Token, op: Token)
    requires IsBinary(op) && |st.stack| >= 2
    requires st.stack[|st.stack| - 2] == x && st.stack[|st.stack| - 1] == y && Calc(op, x, y) == Ok(None)
    ensures Push(st, op) == Ok(Reduction(st.stack + [op], st.changed))
  {
    var n := |st.stack|;
    assert st.stack[..n - 2] + [x, y, op] == st.stack + [op];
  }

  /** A binary operator over two entries `calc` folds. */
  lemma PushFolds(st: Reduction, x: Token, y: Token, op: Token, z: Token)
    requires IsBinary(op) && |st.stack| >= 2
    requires st.stack[|st.stack| - 2] == x && st.stack[|st.stack| - 1] == y && Calc(op, x, y) == Ok(Some(z))
    ensures Push(st, op) == Ok(Reduction(st.stack[..|st.stack| - 2] + [z], true))
  {
  }

  // Small inputs, for any monomials.

  /** Two like terms and `+` fold into their sum. */
  lemma LikeTermsFold(a: Monomial, b: Monomial)
    requires a.x == b.x && Parity(a.i) == Parity(b.i)
    ensures Reduce([Number(a), Number(b), Add]) == Ok([Calc(Add, Number(a), Number(b)).value.value])
  {
    var x, y := Number(a), Number(b);
    var sum := Calc(Add, x, y).value.value;
    var st := Reduction([], false);
    var st1 := Reduction([x], false);
    var st2 := Reduction([x, y], false);
    Triple(x, y, Add);
    Units([x]);
    Units([sum]);
    Pair(x, y);
    PushFolds(st2, x, y, Add, sum);
    PassCons(Add, [], st2);
    PassCons(y, [Add], st1);
    PassCons(x, [y, Add], st);
    OperandsStay([sum], st);
  }

  /** Two unlike, non-zero terms and `+` are given back unchanged. */
  lemma UnlikeTermsStay(a: Monomial, b: Monomial)
    requires (a.x != b.x || Parity(a.i) != Parity(b.i)) && !IsZero(a.number) && !IsZero(b.number)
    ensures Reduce([Number(a), Number(b), Add]) == Ok([Number(a), Number(b), Add])
  {
    var x, y := Number(a), Number(b);
    var st := Reduction([], false);
    var st1 := Reduction([x], false);
    var st2 := Reduction([x, y], false);
    Triple(x, y, Add);
    CalcNone(a, b);
    Units([x]);
    Pair(x, y);
    PushKeeps(st2, x, y, Add);
    PassCons(Add, [], st2);
    PassCons(y, [Add], st1);
    PassCons(x, [y, Add], st);
  }

  /** A third term after two unlike ones reaches the `+` they left on the stack, which
      `Operator::calc` does not implement. */
  lemma ThirdTermPanics(a: Monomial, b: Monomial, c: Monomial)
    requires (a.x != b.x || Parity(a.i) != Parity(b.i)) && !IsZero(a.number) && !IsZero(b.number)
    ensures Reduce([Number(a), Number(b), Add, Number(c), Add]) == Panic(Unimplemented)
  {
    var x, y, z := Number(a), Number(b), Number(c);
    var st := Reduction([], false);
    var st1 := Reduction([x], false);
    var st2 := Reduction([x, y], false);
    var st3 := Reduction([x, y, Add], false);
    var st4 := Reduction([x, y, Add, z], false);
    Five(x, y, Add, z, Add);
    CalcNone(a, b);
    Units([x]);
    Pair(x, y);
    PushKeeps(st2, x, y, Add);
    Triple(x, y, Add);
    Quad(x, y, Add, z);
    assert Push(st4, Add) == Panic(Unimplemented);
    PassCons(Add, [], st4);
    PassCons(z, [Add], st3);
    PassCons(Add, [z, Add], st2);
    PassCons(y, [Add, z, Add], st1);
    PassCons(x, [y, Add, z, Add], st);
  }

  /** An operator with fewer than two entries below it is an error. */
  lemma LoneOperatorFails(a: Monomial, op: Token)
    requires IsBinary(op)
    ensures Reduce([Number(a), op]) == Err(WrongInput)
  {
    var x := Number(a);
    var st := Reduction([], false);
    var st1 := Reduction([x], false);
    Pair(x, op);
    Units([x]);
    PassCons(op, [], st1);
    PassCons(x, [op], st);
  }

  /** The binary-operator arm of the loop: pop the two top entries, then push what
      `Operator::calc` makes of them, or both entries and the operator again. */
  method PopAndCalc(ret: seq<Token>, changed: bool, ope: Token) returns (r: Outcome<Reduction>)
    requires IsBinary(ope)
    ensures r == Push(Reduction(ret, changed), ope)
  {
    if |ret| == 0 {
      return Err(WrongInput);
    }
    var last := ret[|ret| - 1];
    if |ret| == 1 {
      return Err(WrongInput);
    }
    var lastLast := ret[|ret| - 2];
    var below := ret[..|ret| - 2];
    var calculated := Calc(ope, lastLast, last);
    if calculated.Panic? {
      return Panic(calculated.message);
    }
    if calculated.value.Some? {
      PushFolds(Reduction(ret, changed), lastLast, last, ope, calculated.value.value);
      return Ok(Reduction(below + [calculated.value.value], true));
    }
    PushKeeps(Reduction(ret, changed), lastLast, last, ope);
    assert below + [lastLast, last, ope] == ret + [ope];
    return Ok(Reduction(below + [lastLast, last, ope], changed));
  }

  /** `calc` on a postfix sequence: one pass with a stack and a `changed` flag, then a
      new call on the result when the pass folded something. */
  method Calculate(input: seq<Token>) returns (r: Outcome<seq<Token>>)
    ensures r == Reduce(input)
    decreases |input|
  {
    var changed := false;
    var ret: seq<Token> := [];
    for i := 0 to |input|
      invariant Pass(input[i..], Reduction(ret, changed)) == FirstPass(input)
    {
      var ope := input[i];
      assert input[i..][1..] == input[i + 1..];
      if ope.Var? {
        return Panic(Unimplemented);
      } else if ope.Number? || ope.Mat? {
        ret := ret + [ope];
      } else if !IsBinary(ope) {
        return Err(UnexpectedToken);
      } else {
        var next := PopAndCalc(ret, changed, ope);
        if next.Err? {
          return Err(next.error);
        } else if next.Panic? {
          return Panic(next.message);
        }
        ret, changed := next.value.stack, next.value.changed;
      }
    }
    assert input[|input|..] == [];
    if changed {
      r := Calculate(ret);
      return;
    }
    return Ok(ret);
  }
}
