/** `shunting_yard`: Dijkstra's algorithm turning the token list of a line into
    postfix order. The compiled generation and the revised one differ only in the
    messages of their errors and in the revised treatment of the variable `?`, which,
    like `=`, closes the expression before it; `Dialect` tells them apart. */
module Shunting {
  import opened Outcomes
  import opened Tokens
  import opened Seqs

  datatype Dialect = Compiled | Revised

  /** The two vectors of the algorithm: the output queue and the operator stack, whose
      top is its last element. */
  datatype Yard<N> = Yard(output: seq<Operator<N>>, stack: seq<Operator<N>>)

  /** An operator left on the stack where it must be empty (at `=`, at `?`, at the end). */
  function Unclosed(d: Dialect): string {
    if d == Compiled then "Missmatched parentesis 02" else "Missmatched parentesis"
  }

  /** A `)` with no `(` below it on the stack. */
  function Unopened(d: Dialect): string {
    if d == Compiled then "Missmatched parentesis 01" else "Missmatched parentesis"
  }

  /** A `)` found on the stack while closing a group. */
  function ClosedOnStack(d: Dialect): string {
    if d == Compiled then "Missmatched parentesis 00" else "Missmatched parentesis"
  }

  /** The failure of `r` as a failure of another type. */
  function Fail<T, U>(r: Outcome<T>): Outcome<U>
    requires !r.Ok?
  {
    if r.Err? then Err(r.error) else Panic(r.message)
  }

  /** The tokens that take the last arm of the `match`: everything but operands,
      parentheses and `=`. */
  predicate IsInfix<N>(t: Operator<N>) {
    t.Add? || t.Minus? || t.Mult? || t.MatricialMult? || t.Modulo? || t.Power? || t.Div?
  }

  /** The two operators `get_precedence` has no rank for. */
  predicate Unranked<N>(t: Operator<N>) {
    t.Modulo? || t.MatricialMult?
  }

  /** Where the stack is emptied onto the output: `=`, and in the revised generation
      also the variable `?`. */
  predicate FlushPoint<N>(d: Dialect, t: Operator<N>) {
    t.Equal? || (d == Revised && t.Var? && t.name == "?")
  }

  /** Pop every operator onto the output; a parenthesis on the stack is an error. */
  function FlushAll<N>(output: seq<Operator<N>>, stack: seq<Operator<N>>, msg: string): Outcome<seq<Operator<N>>>
    decreases |stack|
  {
    if stack == [] then Ok(output)
    else
      var top := stack[|stack| - 1];
      if IsParenthesis(top) then Err(msg) else FlushAll(output + [top], stack[..|stack| - 1], msg)
  }

  /** At `)`: pop operators onto the output down to the nearest `(`, which is dropped. */
  function CloseGroup<N>(output: seq<Operator<N>>, stack: seq<Operator<N>>, d: Dialect): Outcome<Yard<N>>
    decreases |stack|
  {
    if stack == [] then Err(Unopened(d))
    else
      var top := stack[|stack| - 1];
      if top.OpenParenthesis? then Ok(Yard(output, stack[..|stack| - 1]))
      else if top.CloseParenthesis? then Err(ClosedOnStack(d))
      else CloseGroup(output + [top], stack[..|stack| - 1], d)
  }

  /** Before pushing `op`: pop the operators that bind more tightly than `op`, or as
      tightly when `op` is left-associative. Ranking a token `get_precedence` does not
      know is a panic. */
  function PopOperators<N>(output: seq<Operator<N>>, stack: seq<Operator<N>>, op: Operator<N>): Outcome<Yard<N>>
    decreases |stack|
  {
    if stack == [] then Ok(Yard(output, stack))
    else
      var top := stack[|stack| - 1];
      var above := Precedence(top);
      var mine := Precedence(op);
      if !above.Ok? || !mine.Ok? then Panic(Unreachable)
      else if above.value > mine.value || (above.value == mine.value && !RightAssociative(op)) then
        PopOperators(output + [top], stack[..|stack| - 1], op)
      else Ok(Yard(output, stack))
  }

  /** One token of the input. */
  function Step<N>(d: Dialect, y: Yard<N>, t: Operator<N>): Outcome<Yard<N>> {
    if FlushPoint(d, t) then
      var flushed := FlushAll(y.output, y.stack, Unclosed(d));
      if flushed.Ok? then Ok(Yard(flushed.value + [t], [])) else Fail(flushed)
    else if IsOperand(t) then Ok(Yard(y.output + [t], y.stack))
    else if t.OpenParenthesis? then Ok(Yard(y.output, y.stack + [t]))
    else if t.CloseParenthesis? then CloseGroup(y.output, y.stack, d)
    else
      var popped := PopOperators(y.output, y.stack, t);
      if popped.Ok? then Ok(Yard(popped.value.output, popped.value.stack + [t])) else popped
  }

  /** The main loop, first token first. */
  function Run<N>(d: Dialect, y: Yard<N>, input: seq<Operator<N>>): Outcome<Yard<N>>
    decreases |input|
  {
    if input == [] then Ok(y)
    else
      var next := Step(d, y, input[0]);
      if next.Ok? then Run(d, next.value, input[1..]) else next
  }

  /** The whole algorithm: the loop, then the final flush. */
  function Postfix<N>(d: Dialect, input: seq<Operator<N>>): Outcome<seq<Operator<N>>> {
    var r := Run(d, Yard([], []), input);
    if r.Ok? then FlushAll(r.value.output, r.value.stack, Unclosed(d)) else Fail(r)
  }

  // Views of a token list used by the properties below.

  predicate NoParens<N>(s: seq<Operator<N>>) {
    forall k | 0 <= k < |s| :: !IsParenthesis(s[k])
  }

  /** What the stack can hold: open parentheses and infix operators. */
  predicate StackShape<N>(s: seq<Operator<N>>) {
    forall k | 0 <= k < |s| :: s[k].OpenParenthesis? || IsInfix(s[k])
  }

  predicate RankedOnly<N>(s: seq<Operator<N>>) {
    forall k | 0 <= k < |s| :: !Unranked(s[k])
  }

  /** The number of `(` in `s`. */
  function Opens<N>(s: seq<Operator<N>>): nat {
    if s == [] then 0 else Opens(s[..|s| - 1]) + (if s[|s| - 1].OpenParenthesis? then 1 else 0)
  }

  /** `s` without its parentheses. */
  function NonParens<N>(s: seq<Operator<N>>): seq<Operator<N>> {
    if s == [] then [] else NonParens(s[..|s| - 1]) + (if IsParenthesis(s[|s| - 1]) then [] else [s[|s| - 1]])
  }

  /** The operands of `s`, in order. */
  function Operands<N>(s: seq<Operator<N>>): seq<Operator<N>> {
    if s == [] then [] else Operands(s[..|s| - 1]) + (if IsOperand(s[|s| - 1]) then [s[|s| - 1]] else [])
  }

  /** How a token moves the nesting depth. */
  function Delta<N>(t: Operator<N>): int {
    if t.OpenParenthesis? then 1 else if t.CloseParenthesis? then -1 else 0
  }

  /** From nesting depth `depth`, the depth never drops below zero and every flush
      point sits at depth zero. */
  predicate NestOk<N>(d: Dialect, depth: int, input: seq<Operator<N>>)
    decreases |input|
  {
    input == [] ||
    (depth + Delta(input[0]) >= 0 && (FlushPoint(d, input[0]) ==> depth == 0) &&
     NestOk(d, depth + Delta(input[0]), input[1..]))
  }

  function EndDepth<N>(depth: int, input: seq<Operator<N>>): int
    decreases |input|
  {
    if input == [] then depth else EndDepth(depth + Delta(input[0]), input[1..])
  }

  /** Parentheses that match, and `=` (and the revised `?`) outside every group. */
  predicate WellNested<N>(d: Dialect, input: seq<Operator<N>>) {
    NestOk(d, 0, input) && EndDepth(0, input) == 0
  }

  // When the algorithm succeeds.

  lemma {:induction false} FlushAllOk<N>(output: seq<Operator<N>>, stack: seq<Operator<N>>, msg: string)
    requires StackShape(stack)
    ensures var r := FlushAll(output, stack, msg);
      (r.Ok? <==> Opens(stack) == 0) && (!r.Ok? ==> r == Err(msg))
    decreases |stack|
  {
    if stack != [] {
      FlushAllOk(output + [stack[|stack| - 1]], stack[..|stack| - 1], msg);
    }
  }

  lemma {:induction false} CloseGroupOk<N>(output: seq<Operator<N>>, stack: seq<Operator<N>>, d: Dialect)
    requires StackShape(stack)
    ensures var r := CloseGroup(output, stack, d);
      (r.Ok? <==> Opens(stack) > 0) && (!r.Ok? ==> r == Err(Unopened(d))) &&
      (r.Ok? ==> (StackShape(r.value.stack) && Opens(r.value.stack) == Opens(stack) - 1 &&
        (RankedOnly(stack) ==> RankedOnly(r.value.stack))))
    decreases |stack|
  {
    if stack != [] {
      CloseGroupOk(output + [stack[|stack| - 1]], stack[..|stack| - 1], d);
    }
  }

  lemma {:induction false} PopOperatorsOk<N>(output: seq<Operator<N>>, stack: seq<Operator<N>>, op: Operator<N>)
    requires StackShape(stack) && IsInfix(op)
    ensures var r := PopOperators(output, stack, op);
      !r.Err? && (RankedOnly(stack) && !Unranked(op) ==> r.Ok?) &&
      (r.Ok? ==> (StackShape(r.value.stack) && Opens(r.value.stack) == Opens(stack) &&
        (RankedOnly(stack) ==> RankedOnly(r.value.stack))))
    decreases |stack|
  {
    if stack != [] {
      PopOperatorsOk(output + [stack[|stack| - 1]], stack[..|stack| - 1], op);
    }
  }

  lemma StepOk<N>(d: Dialect, y: Yard<N>, t: Operator<N>)
    requires StackShape(y.stack)
    ensures var r, depth := Step(d, y, t), Opens(y.stack);
      r.Ok? ==> (depth + Delta(t) >= 0 && (FlushPoint(d, t) ==> depth == 0) &&
        StackShape(r.value.stack) && Opens(r.value.stack) == depth + Delta(t))
    ensures var r, depth := Step(d, y, t), Opens(y.stack);
      RankedOnly(y.stack) && !Unranked(t) ==>
        !r.Panic? && (r.Ok? <==> depth + Delta(t) >= 0 && (FlushPoint(d, t) ==> depth == 0)) &&
        (r.Ok? ==> RankedOnly(r.value.stack))
  {
    if FlushPoint(d, t) {
      FlushAllOk(y.output, y.stack, Unclosed(d));
    } else if IsOperand(t) {
    } else if t.OpenParenthesis? {
      PushStack(y.stack, t);
    } else if t.CloseParenthesis? {
      CloseGroupOk(y.output, y.stack, d);
    } else {
      PopOperatorsOk(y.output, y.stack, t);
      var popped := PopOperators(y.output, y.stack, t);
      if popped.Ok? {
        PushStack(popped.value.stack, t);
      }
    }
  }

  lemma PushStack<N>(s: seq<Operator<N>>, t: Operator<N>)
    requires StackShape(s) && (t.OpenParenthesis? || IsInfix(t))
    ensures StackShape(s + [t]) && Opens(s + [t]) == Opens(s) + (if t.OpenParenthesis? then 1 else 0)
    ensures RankedOnly(s) && !Unranked(t) ==> RankedOnly(s + [t])
  {
    assert (s + [t])[..|s|] == s;
  }

  lemma {:induction false} RunOk<N>(d: Dialect, y: Yard<N>, input: seq<Operator<N>>)
    requires StackShape(y.stack)
    ensures var r := Run(d, y, input);
      r.Ok? ==> (NestOk(d, Opens(y.stack), input) && StackShape(r.value.stack) &&
        Opens(r.value.stack) == EndDepth(Opens(y.stack), input))
    ensures var r := Run(d, y, input);
      RankedOnly(y.stack) && RankedOnly(input) ==> !r.Panic? && (r.Ok? <==> NestOk(d, Opens(y.stack), input))
    decreases |input|
  {
    if input != [] {
      var t := input[0];
      StepOk(d, y, t);
      var next := Step(d, y, t);
      RunFirst(d, y, input);
      NestOkFirst(d, Opens(y.stack), input);
      if next.Ok? {
        RunOk(d, next.value, input[1..]);
        assert RankedOnly(input) ==> RankedOnly(input[1..]);
      }
    }
  }

  lemma RunFirst<N>(d: Dialect, y: Yard<N>, input: seq<Operator<N>>)
    requires input != []
    ensures var next := Step(d, y, input[0]);
      Run(d, y, input) == if next.Ok? then Run(d, next.value, input[1..]) else next
  {
  }

  lemma NestOkFirst<N>(d: Dialect, depth: int, input: seq<Operator<N>>)
    requires input != []
    ensures var t := input[0];
      NestOk(d, depth, input) <==>
        depth + Delta(t) >= 0 && (FlushPoint(d, t) ==> depth == 0) && NestOk(d, depth + Delta(t), input[1..])
    ensures EndDepth(depth, input) == EndDepth(depth + Delta(input[0]), input[1..])
  {
  }

  /** Whatever the algorithm accepts has matching parentheses, with `=` (and the
      revised `?`) outside every group. */
  lemma PostfixWellNested<N>(d: Dialect, input: seq<Operator<N>>)
    ensures Postfix(d, input).Ok? ==> WellNested(d, input)
  {
    RunOk(d, Yard([], []), input);
    var r := Run(d, Yard([], []), input);
    if r.Ok? {
      FlushAllOk(r.value.output, r.value.stack, Unclosed(d));
    }
  }

  /** Without `%` and `**`, whose precedence is never defined, the algorithm never
      panics, and it succeeds exactly on the well-nested inputs; every failure is an
      error. */
  lemma PostfixSucceeds<N>(d: Dialect, input: seq<Operator<N>>)
    requires RankedOnly(input)
    ensures var r := Postfix(d, input);
      (r.Ok? <==> WellNested(d, input)) && (!r.Ok? ==> r.Err?)
  {
    RunOk(d, Yard([], []), input);
    var r := Run(d, Yard([], []), input);
    if r.Ok? {
      FlushAllOk(r.value.output, r.value.stack, Unclosed(d));
    }
  }

  /** `s` last element first: the order in which popping a stack yields it. */
  function Reversed<T>(s: seq<T>): (r: seq<T>)
    ensures |r| == |s|
    ensures forall k | 0 <= k < |s| :: r[k] == s[|s| - 1 - k]
    decreases |s|
  {
    if s == [] then [] else [s[|s| - 1]] + Reversed(s[..|s| - 1])
  }

  lemma {:induction false} NoOpensNoParens<N>(s: seq<Operator<N>>)
    requires StackShape(s) && Opens(s) == 0
    ensures NoParens(s)
    decreases |s|
  {
    if s != [] {
      NoOpensNoParens(s[..|s| - 1]);
    }
  }

  /** Without parentheses on the stack, emptying it appends the stack top first. */
  lemma {:induction false} FlushAllReverses<N>(output: seq<Operator<N>>, stack: seq<Operator<N>>, msg: string)
    requires NoParens(stack)
    ensures FlushAll(output, stack, msg) == Ok(output + Reversed(stack))
    decreases |stack|
  {
    if stack == [] {
      Units(output);
    } else {
      var top, below := stack[|stack| - 1], stack[..|stack| - 1];
      FlushAllReverses(output + [top], below, msg);
      Chain(output, [top], Reversed(below), output + [top], output + [top] + Reversed(below));
    }
  }

  /** `=`, and in the revised generation `?`, succeed exactly when no `(` is open; they
      then move the whole stack to the output, top first, and follow it. */
  lemma StepAtFlushPoint<N>(d: Dialect, y: Yard<N>, t: Operator<N>)
    requires StackShape(y.stack) && FlushPoint(d, t)
    ensures Step(d, y, t).Ok? <==> Opens(y.stack) == 0
    ensures Step(d, y, t).Ok? ==> Step(d, y, t).value == Yard(y.output + Reversed(y.stack) + [t], [])
    ensures !Step(d, y, t).Ok? ==> Step(d, y, t) == Err(Unclosed(d))
  {
    FlushAllOk(y.output, y.stack, Unclosed(d));
    if Opens(y.stack) == 0 {
      NoOpensNoParens(y.stack);
      FlushAllReverses(y.output, y.stack, Unclosed(d));
    }
  }

  // What the algorithm keeps.

  lemma {:induction false} NonParensAppend<N>(a: seq<Operator<N>>, b: seq<Operator<N>>)
    ensures NonParens(a + b) == NonParens(a) + NonParens(b)
    decreases |b|
  {
    if b != [] {
      NonParensAppend(a, b[..|b| - 1]);
      assert (a + b)[..|a + b| - 1] == a + b[..|b| - 1];
    } else {
      assert a + b == a;
    }
  }

  lemma {:induction false} OperandsAppend<N>(a: seq<Operator<N>>, b: seq<Operator<N>>)
    ensures Operands(a + b) == Operands(a) + Operands(b)
    decreases |b|
  {
    if b != [] {
      OperandsAppend(a, b[..|b| - 1]);
      assert (a + b)[..|a + b| - 1] == a + b[..|b| - 1];
    } else {
      assert a + b == a;
    }
  }

  /** Moving one token that is not an operand from the stack to the output changes
      neither the tokens held nor the operands output. */
  lemma MoveOne<N>(output: seq<Operator<N>>, stack: seq<Operator<N>>)
    requires stack != [] && IsInfix(stack[|stack| - 1])
    ensures var top := stack[|stack| - 1];
      multiset(output + [top]) + multiset(NonParens(stack[..|stack| - 1])) == multiset(output) + multiset(NonParens(stack)) &&
      Operands(output + [top]) == Operands(output) &&
      (NoParens(output) ==> NoParens(output + [top]))
  {
    var top := stack[|stack| - 1];
    MoveOneHeld(output, stack);
    assert Operands(output + [top]) == Operands(output) by {
      assert (output + [top])[..|output|] == output;
    }
    assert NoParens(output) ==> NoParens(output + [top]) by {
      assert forall k | 0 <= k < |output| :: (output + [top])[k] == output[k];
    }
  }

  lemma MoveOneHeld<N>(output: seq<Operator<N>>, stack: seq<Operator<N>>)
    requires stack != [] && IsInfix(stack[|stack| - 1])
    ensures var top := stack[|stack| - 1];
      multiset(output + [top]) + multiset(NonParens(stack[..|stack| - 1])) == multiset(output) + multiset(NonParens(stack))
  {
    var top := stack[|stack| - 1];
    assert NonParens(stack) == NonParens(stack[..|stack| - 1]) + [top];
    MoveLast(output, NonParens(stack[..|stack| - 1]), NonParens(stack), top);
  }

  lemma {:induction false} FlushAllKeeps<N>(output: seq<Operator<N>>, stack: seq<Operator<N>>, msg: string)
    requires StackShape(stack)
    ensures var r := FlushAll(output, stack, msg);
      r.Ok? ==> (multiset(r.value) == multiset(output) + multiset(NonParens(stack)) &&
        Operands(r.value) == Operands(output) && (NoParens(output) ==> NoParens(r.value)))
    decreases |stack|
  {
    if stack != [] && !IsParenthesis(stack[|stack| - 1]) {
      MoveOne(output, stack);
      FlushAllKeeps(output + [stack[|stack| - 1]], stack[..|stack| - 1], msg);
    }
  }

  lemma {:induction false} CloseGroupKeeps<N>(output: seq<Operator<N>>, stack: seq<Operator<N>>, d: Dialect)
    requires StackShape(stack)
    ensures var r := CloseGroup(output, stack, d);
      r.Ok? ==> (multiset(r.value.output) + multiset(NonParens(r.value.stack)) == multiset(output) + multiset(NonParens(stack)) &&
        Operands(r.value.output) == Operands(output) && (NoParens(output) ==> NoParens(r.value.output)))
    decreases |stack|
  {
    if stack != [] && !IsParenthesis(stack[|stack| - 1]) {
      MoveOne(output, stack);
      CloseGroupKeeps(output + [stack[|stack| - 1]], stack[..|stack| - 1], d);
    }
  }

  lemma {:induction false} PopOperatorsKeeps<N>(output: seq<Operator<N>>, stack: seq<Operator<N>>, op: Operator<N>)
    requires StackShape(stack) && IsInfix(op)
    ensures var r := PopOperators(output, stack, op);
      r.Ok? ==> (multiset(r.value.output) + multiset(NonParens(r.value.stack)) == multiset(output) + multiset(NonParens(stack)) &&
        Operands(r.value.output) == Operands(output) && (NoParens(output) ==> NoParens(r.value.output)))
    decreases |stack|
  {
    if stack != [] {
      var top := stack[|stack| - 1];
      var above := Precedence(top);
      var mine := Precedence(op);
      if above.Ok? && mine.Ok? && (above.value > mine.value || (above.value == mine.value && !RightAssociative(op))) {
        assert IsInfix(top);
        MoveOne(output, stack);
        PopOperatorsKeeps(output + [top], stack[..|stack| - 1], op);
      }
    }
  }

  lemma StepShape<N>(d: Dialect, y: Yard<N>, t: Operator<N>)
    requires StackShape(y.stack)
    ensures Step(d, y, t).Ok? ==> StackShape(Step(d, y, t).value.stack)
  {
    if !FlushPoint(d, t) && !IsOperand(t) && !t.OpenParenthesis? {
      if t.CloseParenthesis? {
        CloseGroupOk(y.output, y.stack, d);
      } else {
        PopOperatorsOk(y.output, y.stack, t);
      }
    }
  }

  lemma SingleViews<N>(t: Operator<N>)
    ensures NonParens([t]) == if IsParenthesis(t) then [] else [t]
    ensures Operands([t]) == if IsOperand(t) then [t] else []
  {
    assert [t][..0] == [];
  }

  /** The tokens a yard holds: the output and the stack without its parentheses. */
  ghost function Held<N>(y: Yard<N>): multiset<Operator<N>> {
    multiset(y.output) + multiset(NonParens(y.stack))
  }

  lemma FlushTokens<N>(d: Dialect, y: Yard<N>, t: Operator<N>)
    requires StackShape(y.stack) && FlushPoint(d, t)
    ensures Step(d, y, t).Ok? ==> Held(Step(d, y, t).value) == Held(y) + multiset{t}
  {
    var flushed := FlushAll(y.output, y.stack, Unclosed(d));
    if flushed.Ok? {
      FlushAllKeeps(y.output, y.stack, Unclosed(d));
      StepFlush(d, y, t);
      HeldAfterFlush(flushed.value, t);
    }
  }

  lemma HeldAfterFlush<N>(out: seq<Operator<N>>, t: Operator<N>)
    ensures Held(Yard(out + [t], [])) == multiset(out) + multiset{t}
  {
    var none: seq<Operator<N>> := [];
    assert NonParens(none) == [];
    Count(out, t);
  }

  lemma StepFlush<N>(d: Dialect, y: Yard<N>, t: Operator<N>)
    requires FlushPoint(d, t)
    ensures var flushed := FlushAll(y.output, y.stack, Unclosed(d));
      flushed.Ok? ==> Step(d, y, t) == Ok(Yard(flushed.value + [t], []))
  {
  }

  lemma OpenTokens<N>(d: Dialect, y: Yard<N>, t: Operator<N>)
    requires !FlushPoint(d, t) && t.OpenParenthesis?
    ensures Step(d, y, t).Ok? ==> Held(Step(d, y, t).value) == Held(y)
  {
    NonParensAppend(y.stack, [t]);
    SingleViews(t);
    assert Step(d, y, t) == Ok(Yard(y.output, y.stack + [t]));
  }

  lemma PushTokens<N>(z: Yard<N>, t: Operator<N>)
    requires !IsParenthesis(t)
    ensures Held(Yard(z.output, z.stack + [t])) == Held(z) + multiset{t}
  {
    NonParensAppend(z.stack, [t]);
    SingleViews(t);
  }

  lemma InfixTokens<N>(y: Yard<N>, t: Operator<N>)
    requires StackShape(y.stack) && IsInfix(t)
    ensures var popped := PopOperators(y.output, y.stack, t);
      popped.Ok? ==> Held(Yard(popped.value.output, popped.value.stack + [t])) == Held(y) + multiset{t}
  {
    var popped := PopOperators(y.output, y.stack, t);
    if popped.Ok? {
      PopOperatorsKeeps(y.output, y.stack, t);
      PushTokens(popped.value, t);
    }
  }

  lemma StepTokens<N>(d: Dialect, y: Yard<N>, t: Operator<N>)
    requires StackShape(y.stack)
    ensures Step(d, y, t).Ok? ==> Held(Step(d, y, t).value) == Held(y) + multiset(NonParens([t]))
  {
    SingleViews(t);
    if FlushPoint(d, t) {
      FlushTokens(d, y, t);
    } else if IsOperand(t) {
      OperandTokens(d, y, t);
    } else if t.OpenParenthesis? {
      OpenTokens(d, y, t);
    } else if t.CloseParenthesis? {
      CloseTokens(d, y, t);
    } else {
      InfixTokens(y, t);
    }
  }

  lemma OperandTokens<N>(d: Dialect, y: Yard<N>, t: Operator<N>)
    requires !FlushPoint(d, t) && IsOperand(t)
    ensures Step(d, y, t).Ok? && Held(Step(d, y, t).value) == Held(y) + multiset{t}
  {
    assert Step(d, y, t) == Ok(Yard(y.output + [t], y.stack));
  }

  lemma CloseTokens<N>(d: Dialect, y: Yard<N>, t: Operator<N>)
    requires StackShape(y.stack) && !FlushPoint(d, t) && t.CloseParenthesis?
    ensures Step(d, y, t).Ok? ==> Held(Step(d, y, t).value) == Held(y)
  {
    CloseGroupKeeps(y.output, y.stack, d);
  }

  lemma AppendOrder<N>(output: seq<Operator<N>>, t: Operator<N>)
    requires !IsParenthesis(t)
    ensures Operands(output + [t]) == Operands(output) + Operands([t])
    ensures NoParens(output) ==> NoParens(output + [t])
  {
    OperandsAppend(output, [t]);
  }

  lemma FlushOrder<N>(y: Yard<N>, t: Operator<N>, msg: string)
    requires StackShape(y.stack) && !IsParenthesis(t)
    ensures var flushed := FlushAll(y.output, y.stack, msg);
      flushed.Ok? ==> (Operands(flushed.value + [t]) == Operands(y.output) + Operands([t]) &&
        (NoParens(y.output) ==> NoParens(flushed.value + [t])))
  {
    var flushed := FlushAll(y.output, y.stack, msg);
    if flushed.Ok? {
      FlushAllKeeps(y.output, y.stack, msg);
      AppendOrder(flushed.value, t);
    }
  }

  lemma StepOrder<N>(d: Dialect, y: Yard<N>, t: Operator<N>)
    requires StackShape(y.stack)
    ensures var r := Step(d, y, t);
      r.Ok? ==> (Operands(r.value.output) == Operands(y.output) + Operands([t]) &&
        (NoParens(y.output) ==> NoParens(r.value.output)))
  {
    SingleViews(t);
    if FlushPoint(d, t) {
      FlushOrder(y, t, Unclosed(d));
    } else if IsOperand(t) {
      AppendOrder(y.output, t);
    } else if t.CloseParenthesis? {
      CloseGroupKeeps(y.output, y.stack, d);
    } else if !t.OpenParenthesis? {
      PopOperatorsKeeps(y.output, y.stack, t);
    }
  }

  lemma {:induction false} RunTokens<N>(d: Dialect, y: Yard<N>, input: seq<Operator<N>>)
    requires StackShape(y.stack)
    ensures Run(d, y, input).Ok? ==> Held(Run(d, y, input).value) == Held(y) + multiset(NonParens(input))
    decreases |input|
  {
    if input != [] {
      var t := input[0];
      StepShape(d, y, t);
      StepTokens(d, y, t);
      var next := Step(d, y, t);
      if next.Ok? {
        RunTokens(d, next.value, input[1..]);
        NonParensFirst(input);
      }
    }
  }
  lemma {:induction false} RunOrder<N>(d: Dialect, y: Yard<N>, input: seq<Operator<N>>)
    requires StackShape(y.stack)
    ensures var r := Run(d, y, input);
      r.Ok? ==> (Operands(r.value.output) == Operands(y.output) + Operands(input) &&
        (NoParens(y.output) ==> NoParens(r.value.output)) && StackShape(r.value.stack))
    decreases |input|
  {
    if input == [] {
      Units(Operands(y.output));
    } else {
      var t := input[0];
      StepShape(d, y, t);
      StepOrder(d, y, t);
      var next := Step(d, y, t);
      if next.Ok? {
        RunOrder(d, next.value, input[1..]);
        OperandsFirst(input);
        var r := Run(d, next.value, input[1..]);
        assert Run(d, y, input) == r;
        if r.Ok? {
          Chain(Operands(y.output), Operands([t]), Operands(input[1..]), Operands(next.value.output), Operands(r.value.output));
        }
      }
    }
  }

  lemma NonParensFirst<N>(s: seq<Operator<N>>)
    requires s != []
    ensures NonParens(s) == NonParens([s[0]]) + NonParens(s[1..])
  {
    assert s == [s[0]] + s[1..];
    NonParensAppend([s[0]], s[1..]);
  }

  lemma OperandsFirst<N>(s: seq<Operator<N>>)
    requires s != []
    ensures Operands(s) == Operands([s[0]]) + Operands(s[1..])
  {
    assert s == [s[0]] + s[1..];
    OperandsAppend([s[0]], s[1..]);
  }

  /** On success the output holds exactly the tokens of the input other than the
      parentheses, none of which survives, and the operands keep their order. */
  lemma PostfixKeeps<N>(d: Dialect, input: seq<Operator<N>>)
    ensures var r := Postfix(d, input);
      r.Ok? ==> (NoParens(r.value) && multiset(r.value) == multiset(NonParens(input)) &&
        Operands(r.value) == Operands(input))
  {
    var start: Yard<N> := Yard([], []);
    RunTokens(d, start, input);
    RunOrder(d, start, input);
    var r := Run(d, start, input);
    if r.Ok? {
      FlushAllKeeps(r.value.output, r.value.stack, Unclosed(d));
      assert Held(r.value) == multiset(NonParens(input));
    }
  }

  // The algorithm as written: a loop over the input with the stack in a vector.

  /** The `while let Some(stack_ope) = stack.pop()` loop of `=` (and of the revised `?`)
      and of the end of the input. */
  method PopAll<N>(output: seq<Operator<N>>, stack: seq<Operator<N>>, msg: string) returns (r: Outcome<seq<Operator<N>>>)
    ensures r == FlushAll(output, stack, msg)
  {
    var out, st := output, stack;
    while st != []
      invariant FlushAll(out, st, msg) == FlushAll(output, stack, msg)
      decreases |st|
    {
      var top := st[|st| - 1];
      st := st[..|st| - 1];
      if IsParenthesis(top) {
        return Err(msg);
      }
      out := out + [top];
    }
    return Ok(out);
  }

  /** The loop of `)`, which stops at the first `(`. */
  method PopGroup<N>(output: seq<Operator<N>>, stack: seq<Operator<N>>, d: Dialect) returns (r: Outcome<Yard<N>>)
    ensures r == CloseGroup(output, stack, d)
  {
    var out, st := output, stack;
    while st != []
      invariant CloseGroup(out, st, d) == CloseGroup(output, stack, d)
      decreases |st|
    {
      var top := st[|st| - 1];
      st := st[..|st| - 1];
      if top.OpenParenthesis? {
        return Ok(Yard(out, st));
      } else if top.CloseParenthesis? {
        return Err(ClosedOnStack(d));
      }
      out := out + [top];
    }
    return Err(Unopened(d));
  }

  /** The loop before pushing an operator: the top is popped, then pushed back if it
      does not bind more tightly than `op`. */
  method PopTighter<N>(output: seq<Operator<N>>, stack: seq<Operator<N>>, op: Operator<N>) returns (r: Outcome<Yard<N>>)
    ensures r == PopOperators(output, stack, op)
  {
    var out, st := output, stack;
    while st != []
      invariant PopOperators(out, st, op) == PopOperators(output, stack, op)
      decreases |st|
    {
      ghost var before := st;
      var top := st[|st| - 1];
      st := st[..|st| - 1];
      var above := Precedence(top);
      if !above.Ok? {
        return Panic(above.message);
      }
      var mine := Precedence(op);
      if !mine.Ok? {
        return Panic(mine.message);
      }
      if above.value > mine.value || (above.value == mine.value && !RightAssociative(op)) {
        out := out + [top];
      } else {
        st := st + [top];
        assert st == before;
        return Ok(Yard(out, st));
      }
    }
    return Ok(Yard(out, st));
  }

  /** The body of the main loop: the `match` on one token. */
  method Handle<N>(d: Dialect, output: seq<Operator<N>>, stack: seq<Operator<N>>, t: Operator<N>) returns (r: Outcome<Yard<N>>)
    ensures r == Step(d, Yard(output, stack), t)
  {
    match t {
      case Var(name) =>
        if d == Revised && name == "?" {
          var flushed := PopAll(output, stack, Unclosed(d));
          if !flushed.Ok? {
            return Fail(flushed);
          }
          return Ok(Yard(flushed.value + [t], []));
        }
        return Ok(Yard(output + [t], stack));
      case Number(_) =>
        return Ok(Yard(output + [t], stack));
      case Mat(_) =>
        return Ok(Yard(output + [t], stack));
      case Equal =>
        var flushed := PopAll(output, stack, Unclosed(d));
        if !flushed.Ok? {
          return Fail(flushed);
        }
        return Ok(Yard(flushed.value + [t], []));
      case OpenParenthesis =>
        return Ok(Yard(output, stack + [t]));
      case CloseParenthesis =>
        r := PopGroup(output, stack, d);
      case _ =>
        var popped := PopTighter(output, stack, t);
        if !popped.Ok? {
          return popped;
        }
        return Ok(Yard(popped.value.output, popped.value.stack + [t]));
    }
  }

  /** `shunting_yard`: the tokens in postfix order, or the first error met. */
  method ShuntingYard<N>(d: Dialect, input: seq<Operator<N>>) returns (r: Outcome<seq<Operator<N>>>)
    ensures r == Postfix(d, input)
  {
    var output: seq<Operator<N>> := [];
    var stack: seq<Operator<N>> := [];
    var i := 0;
    while i < |input|
      invariant 0 <= i <= |input|
      invariant Run(d, Yard([], []), input) == Run(d, Yard(output, stack), input[i..])
      decreases |input| - i
    {
      assert input[i..][1..] == input[i + 1..];
      var next := Handle(d, output, stack, input[i]);
      if !next.Ok? {
        return Fail(next);
      }
      output, stack := next.value.output, next.value.stack;
      i := i + 1;
    }
    r := PopAll(output, stack, Unclosed(d));
  }

  // One token of the loop, on any state and any remaining input.

  lemma RunNumber<N>(d: Dialect, y: Yard<N>, n: N, rest: seq<Operator<N>>)
    ensures Run(d, y, [Number(n)] + rest) == Run(d, Yard(y.output + [Number(n)], y.stack), rest)
  {
    Behead(Number(n), rest);
  }

  lemma RunOpen<N>(d: Dialect, y: Yard<N>, rest: seq<Operator<N>>)
    ensures Run(d, y, [OpenParenthesis] + rest) == Run(d, Yard(y.output, y.stack + [OpenParenthesis]), rest)
  {
    Behead(OpenParenthesis, rest);
  }

  lemma RunInfix<N>(d: Dialect, y: Yard<N>, t: Operator<N>, rest: seq<Operator<N>>)
    requires IsInfix(t) && PopOperators(y.output, y.stack, t).Ok?
    ensures var p := PopOperators(y.output, y.stack, t).value;
      Run(d, y, [t] + rest) == Run(d, Yard(p.output, p.stack + [t]), rest)
  {
    Behead(t, rest);
  }

  lemma RunClose<N>(d: Dialect, y: Yard<N>, rest: seq<Operator<N>>)
    requires CloseGroup(y.output, y.stack, d).Ok?
    ensures Run(d, y, [CloseParenthesis] + rest) == Run(d, CloseGroup(y.output, y.stack, d).value, rest)
  {
    Behead(CloseParenthesis, rest);
  }

  lemma RunStops<N>(d: Dialect, y: Yard<N>, t: Operator<N>, rest: seq<Operator<N>>)
    requires !Step(d, y, t).Ok?
    ensures Run(d, y, [t] + rest) == Step(d, y, t)
  {
    Behead(t, rest);
  }

  /** The loop over `a + b` is the loop over `a`, then over `b`. */
  lemma {:induction false} RunAppend<N>(d: Dialect, y: Yard<N>, a: seq<Operator<N>>, b: seq<Operator<N>>)
    ensures Run(d, y, a + b) == if Run(d, y, a).Ok? then Run(d, Run(d, y, a).value, b) else Run(d, y, a)
    decreases |a|
  {
    if a == [] {
      Units(b);
    } else {
      Unroll(a, b, []);
      var next := Step(d, y, a[0]);
      if next.Ok? {
        RunAppend(d, next.value, a[1..], b);
      }
    }
  }

  // The stack in the few shapes the cases below meet.

  lemma PopEmpty<N>(out: seq<Operator<N>>, op: Operator<N>)
    ensures PopOperators(out, [], op) == Ok(Yard(out, []))
  {
  }

  /** An operator that binds less tightly than `high`, or as tightly when `high` is
      right-associative, stays on the stack. */
  lemma PopWaits<N>(out: seq<Operator<N>>, low: Operator<N>, high: Operator<N>)
    requires Precedence(low).Ok? && Precedence(high).Ok?
    requires Precedence(low).value < Precedence(high).value
      || (Precedence(low).value == Precedence(high).value && RightAssociative(high))
    ensures PopOperators(out, [low], high) == Ok(Yard(out, [low]))
  {
  }

  lemma PopUnranked<N>(out: seq<Operator<N>>, top: Operator<N>, op: Operator<N>)
    requires Unranked(top)
    ensures PopOperators(out, [top], op) == Panic(Unreachable)
  {
  }

  lemma CloseOne<N>(out: seq<Operator<N>>, p: Operator<N>, d: Dialect)
    requires IsInfix(p)
    ensures CloseGroup(out, [OpenParenthesis, p], d) == Ok(Yard(out + [p], []))
  {
    Pair<Operator<N>>(OpenParenthesis, p);
  }

  lemma FlushOne<N>(out: seq<Operator<N>>, p: Operator<N>, msg: string)
    requires IsInfix(p)
    ensures FlushAll(out, [p], msg) == Ok(out + [p])
  {
    Pair(p, p);
  }

  lemma FlushTwo<N>(out: seq<Operator<N>>, p: Operator<N>, q: Operator<N>, msg: string)
    requires IsInfix(p) && IsInfix(q)
    ensures FlushAll(out, [p, q], msg) == Ok(out + [q, p])
  {
    Pair(p, q);
    FlushOne(out + [q], p, msg);
    Snoc(out, q, p);
  }

  lemma FlushHitsOpen<N>(out: seq<Operator<N>>, p: Operator<N>, msg: string)
    requires IsInfix(p)
    ensures FlushAll(out, [OpenParenthesis, p], msg) == Err(msg)
  {
    Pair<Operator<N>>(OpenParenthesis, p);
  }

  /** A number, an operator and a number, from the start. */
  lemma RunBinary<N>(d: Dialect, a: N, op: Operator<N>, b: N)
    requires IsInfix(op)
    ensures Run(d, Yard([], []), [Number(a), op, Number(b)]) == Ok(Yard([Number(a), Number(b)], [op]))
  {
    var x, y: Operator<N> := Number(a), Number(b);
    Triple(x, op, y);
    RunNumber(d, Yard([], []), a, [op] + ([y] + []));
    Units([x]);
    PopEmpty([x], op);
    RunInfix(d, Yard([x], []), op, [y] + []);
    Units([op]);
    RunNumber(d, Yard([x], [op]), b, []);
    Pair(x, y);
  }

  /** An operator that does not pop the one on the stack, then a number. */
  lemma RunWaits<N>(d: Dialect, out: seq<Operator<N>>, low: Operator<N>, high: Operator<N>, c: N)
    requires IsInfix(high) && PopOperators(out, [low], high) == Ok(Yard(out, [low]))
    ensures Run(d, Yard(out, [low]), [high, Number(c)]) == Ok(Yard(out + [Number(c)], [low, high]))
  {
    var z: Operator<N> := Number(c);
    Pair(high, z);
    RunInfix(d, Yard(out, [low]), high, [z] + []);
    Pair(low, high);
    RunNumber(d, Yard(out, [low, high]), c, []);
  }

  /** An open parenthesis, a number, an operator and a number, from the start. */
  lemma RunOpenBinary<N>(d: Dialect, a: N, op: Operator<N>, b: N)
    requires IsInfix(op) && !Unranked(op)
    ensures Run(d, Yard([], []), [OpenParenthesis, Number(a), op, Number(b)])
      == Ok(Yard([Number(a), Number(b)], [OpenParenthesis, op]))
  {
    var x, y: Operator<N> := Number(a), Number(b);
    var open: Operator<N> := OpenParenthesis;
    Quad(open, x, op, y);
    RunOpen(d, Yard([], []), [x] + ([op] + ([y] + [])));
    Units([open]);
    RunNumber(d, Yard([], [open]), a, [op] + ([y] + []));
    Units([x]);
    PopWaits([x], open, op);
    RunInfix(d, Yard([x], [open]), op, [y] + []);
    Pair(open, op);
    RunNumber(d, Yard([x], [open, op]), b, []);
    Pair(x, y);
  }

  // Cases of the source's own unit tests, for any numbers.

  lemma ProductBindsTighter<N>(d: Dialect, a: N, b: N, c: N)
    ensures Postfix(d, [Number(a), Add, Number(b), Mult, Number(c)])
      == Ok([Number(a), Number(b), Number(c), Mult, Add])
  {
    var x, y, z: Operator<N> := Number(a), Number(b), Number(c);
    var add: Operator<N> := Add;
    var mult: Operator<N> := Mult;
    Five(x, add, y, mult, z);
    RunAppend(d, Yard([], []), [x, add, y], [mult, z]);
    RunBinary(d, a, add, b);
    PopWaits([x, y], add, mult);
    RunWaits(d, [x, y], add, mult, c);
    Triple(x, y, z);
    FlushTwo([x, y, z], add, mult, Unclosed(d));
    Five(x, y, z, mult, add);
  }

  /** `^` is right-associative: in `2 ^ 3 ^ 4` the first power waits on the stack. */
  lemma PowerIsRightAssociative<N>(d: Dialect, a: N, b: N, c: N)
    ensures Postfix(d, [Number(a), Power, Number(b), Power, Number(c)])
      == Ok([Number(a), Number(b), Number(c), Power, Power])
  {
    var x, y, z: Operator<N> := Number(a), Number(b), Number(c);
    var pow: Operator<N> := Power;
    Five(x, pow, y, pow, z);
    RunAppend(d, Yard([], []), [x, pow, y], [pow, z]);
    RunBinary(d, a, pow, b);
    PopWaits([x, y], pow, pow);
    RunWaits(d, [x, y], pow, pow, c);
    Triple(x, y, z);
    FlushTwo([x, y, z], pow, pow, Unclosed(d));
    Five(x, y, z, pow, pow);
  }

  lemma GroupBindsTightest<N>(d: Dialect, a: N, b: N, c: N)
    ensures Postfix(d, [OpenParenthesis, Number(a), Add, Number(b), CloseParenthesis, Mult, Number(c)])
      == Ok([Number(a), Number(b), Add, Number(c), Mult])
  {
    var x, y, z: Operator<N> := Number(a), Number(b), Number(c);
    var open: Operator<N> := OpenParenthesis;
    var close: Operator<N> := CloseParenthesis;
    var add: Operator<N> := Add;
    var mult: Operator<N> := Mult;
    Seven(open, x, add, y, close, mult, z);
    RunAppend(d, Yard([], []), [open, x, add, y], [close] + [mult, z]);
    RunOpenBinary(d, a, add, b);
    CloseOne([x, y], add, d);
    Triple(x, y, add);
    RunClose(d, Yard([x, y], [open, add]), [mult, z]);
    Pair(mult, z);
    PopEmpty([x, y, add], mult);
    RunInfix(d, Yard([x, y, add], []), mult, [z] + []);
    Units([mult]);
    RunNumber(d, Yard([x, y, add], [mult]), c, []);
    Quad(x, y, add, z);
    FlushOne([x, y, add, z], mult, Unclosed(d));
    Five(x, y, add, z, mult);
  }

  lemma UnopenedGroupFails<N>(d: Dialect, a: N, b: N)
    ensures Postfix(d, [CloseParenthesis, Number(a), Add, Number(b)]) == Err(Unopened(d))
  {
    var close: Operator<N> := CloseParenthesis;
    var rest: seq<Operator<N>> := [Number(a), Add, Number(b)];
    Quad(close, Number(a), Add, Number(b));
    RunStops(d, Yard([], []), close, rest);
  }

  /** `=` empties the stack, so a group still open there is an error. */
  lemma EqualInsideGroupFails<N>(d: Dialect, a: N, b: N, c: N, e: N)
    ensures Postfix(d, [OpenParenthesis, Number(a), Add, Number(b), Equal, Number(c), Minus, Number(e)])
      == Err(Unclosed(d))
  {
    var w, x: Operator<N> := Number(a), Number(b);
    var open: Operator<N> := OpenParenthesis;
    var add: Operator<N> := Add;
    var eq: Operator<N> := Equal;
    var rest: seq<Operator<N>> := [Number(c), Minus, Number(e)];
    Eight(open, w, add, x, eq, Number(c), Minus, Number(e));
    RunAppend(d, Yard([], []), [open, w, add, x], [eq] + rest);
    RunOpenBinary(d, a, add, b);
    FlushHitsOpen([w, x], add, Unclosed(d));
    RunStops(d, Yard([w, x], [open, add]), eq, rest);
  }

  /** `%` has no precedence: comparing it with the next operator is unreachable. */
  lemma ModuloOnStackPanics<N>(d: Dialect, a: N, b: N, c: N)
    ensures Postfix(d, [Number(a), Modulo, Number(b), Add, Number(c)]) == Panic(Unreachable)
  {
    var x, y, z: Operator<N> := Number(a), Number(b), Number(c);
    var modulo: Operator<N> := Modulo;
    var add: Operator<N> := Add;
    Five(x, modulo, y, add, z);
    RunAppend(d, Yard([], []), [x, modulo, y], [add] + [z]);
    RunBinary(d, a, modulo, b);
    PopUnranked([x, y], modulo, add);
    RunStops(d, Yard([x, y], [modulo]), add, [z]);
  }
}
