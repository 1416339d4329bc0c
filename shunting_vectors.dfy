/** The longer expectations of the source's `shunting_yard` tests, for any operands
    and in both generations. Each is assembled from segments (a parenthesised pair, a
    run of operators inside a group) whose effect on the yard is proved once. */
module ShuntingVectors {
  import opened Outcomes
  import opened Tokens
  import opened Seqs
  import opened Shunting

  /** An operand that does not close the expression: it goes straight to the output. */
  predicate Passes<N>(d: Dialect, t: Operator<N>) {
    IsOperand(t) && !FlushPoint(d, t)
  }

  // Running the loop piece by piece.

  lemma Then<N>(d: Dialect, y: Yard<N>, a: seq<Operator<N>>, y1: Yard<N>, b: seq<Operator<N>>, y2: Yard<N>)
    requires Run(d, y, a) == Ok(y1) && Run(d, y1, b) == Ok(y2)
    ensures Run(d, y, a + b) == Ok(y2)
  {
    RunAppend(d, y, a, b);
  }

  lemma RunOne<N>(d: Dialect, y: Yard<N>, t: Operator<N>, y1: Yard<N>)
    requires Step(d, y, t) == Ok(y1)
    ensures Run(d, y, [t]) == Ok(y1)
  {
    assert [t][1..] == [];
  }

  lemma PassStep<N>(d: Dialect, y: Yard<N>, t: Operator<N>)
    requires Passes(d, t)
    ensures Run(d, y, [t]) == Ok(Yard(y.output + [t], y.stack))
  {
    RunOne(d, y, t, Yard(y.output + [t], y.stack));
  }

  lemma OpenStep<N>(d: Dialect, y: Yard<N>)
    ensures Run(d, y, [OpenParenthesis]) == Ok(Yard(y.output, y.stack + [OpenParenthesis]))
  {
    RunOne(d, y, OpenParenthesis, Yard(y.output, y.stack + [OpenParenthesis]));
  }

  lemma InfixStep<N>(d: Dialect, y: Yard<N>, op: Operator<N>, p: Yard<N>)
    requires IsInfix(op) && PopOperators(y.output, y.stack, op) == Ok(p)
    ensures Run(d, y, [op]) == Ok(Yard(p.output, p.stack + [op]))
  {
    RunOne(d, y, op, Yard(p.output, p.stack + [op]));
  }

  lemma CloseStep<N>(d: Dialect, y: Yard<N>, p: Yard<N>)
    requires CloseGroup(y.output, y.stack, d) == Ok(p)
    ensures Run(d, y, [CloseParenthesis]) == Ok(p)
  {
    RunOne(d, y, CloseParenthesis, p);
  }

  // The stack in the shapes the expectations meet.

  /** `op` stops at a top that binds less tightly (a `(` binds least of all). */
  lemma PopStops<N>(out: seq<Operator<N>>, below: seq<Operator<N>>, top: Operator<N>, op: Operator<N>)
    requires Precedence(top).Ok? && Precedence(op).Ok?
    requires Precedence(top).value < Precedence(op).value
    ensures PopOperators(out, below + [top], op) == Ok(Yard(out, below + [top]))
  {
  }

  /** A top that binds at least as tightly as the left-associative `op` goes to the output. */
  lemma PopMoves<N>(out: seq<Operator<N>>, below: seq<Operator<N>>, top: Operator<N>, op: Operator<N>)
    requires Precedence(top).Ok? && Precedence(op).Ok? && !RightAssociative(op)
    requires Precedence(top).value >= Precedence(op).value
    ensures PopOperators(out, below + [top], op) == PopOperators(out + [top], below, op)
  {
    assert (below + [top])[..|below + [top]| - 1] == below;
  }

  lemma CloseMoves<N>(out: seq<Operator<N>>, below: seq<Operator<N>>, top: Operator<N>, d: Dialect)
    requires IsInfix(top)
    ensures CloseGroup(out, below + [top], d) == CloseGroup(out + [top], below, d)
  {
    assert (below + [top])[..|below + [top]| - 1] == below;
  }

  lemma CloseStops<N>(out: seq<Operator<N>>, below: seq<Operator<N>>, d: Dialect)
    ensures CloseGroup(out, below + [OpenParenthesis], d) == Ok(Yard(out, below))
  {
    assert (below + [OpenParenthesis])[..|below + [OpenParenthesis]| - 1] == below;
  }

  // Segments.

  /** `(x op z)` leaves `x z op` on the output and the stack as it found it. */
  lemma Group<N>(d: Dialect, y: Yard<N>, x: Operator<N>, op: Operator<N>, z: Operator<N>)
    requires Passes(d, x) && Passes(d, z) && IsInfix(op) && IsRanked(op)
    ensures Run(d, y, [OpenParenthesis, x, op, z, CloseParenthesis]) == Ok(Yard(y.output + [x, z, op], y.stack))
  {
    var open: Operator<N> := OpenParenthesis;
    var close: Operator<N> := CloseParenthesis;
    var s1 := y.stack + [open];
    var o1 := y.output + [x];
    var o2 := o1 + [z];
    OpenStep(d, y);
    PassStep(d, Yard(y.output, s1), x);
    Then(d, y, [open], Yard(y.output, s1), [x], Yard(o1, s1));
    PopStops(o1, y.stack, open, op);
    InfixStep(d, Yard(o1, s1), op, Yard(o1, s1));
    Then(d, y, [open] + [x], Yard(o1, s1), [op], Yard(o1, s1 + [op]));
    PassStep(d, Yard(o1, s1 + [op]), z);
    Then(d, y, [open] + [x] + [op], Yard(o1, s1 + [op]), [z], Yard(o2, s1 + [op]));
    CloseMoves(o2, s1, op, d);
    CloseStops(o2 + [op], y.stack, d);
    CloseStep(d, Yard(o2, s1 + [op]), Yard(o2 + [op], y.stack));
    Then(d, y, [open] + [x] + [op] + [z], Yard(o2, s1 + [op]), [close], Yard(o2 + [op], y.stack));
    GroupText(open, x, op, z, close);
    GroupOutput(y.output, x, z, op);
  }

  lemma GroupText<T>(p: T, q: T, r: T, s: T, t: T)
    ensures [p] + [q] + [r] + [s] + [t] == [p, q, r, s, t]
  {
  }

  lemma GroupOutput<T>(out: seq<T>, x: T, z: T, op: T)
    ensures out + [x] + [z] + [op] == out + [x, z, op]
  {
  }

  /** `x op (`, from an empty stack. */
  lemma Lead<N>(d: Dialect, out: seq<Operator<N>>, x: Operator<N>, op: Operator<N>)
    requires Passes(d, x) && IsInfix(op)
    ensures Run(d, Yard(out, []), [x, op, OpenParenthesis]) == Ok(Yard(out + [x], [op, OpenParenthesis]))
  {
    var open: Operator<N> := OpenParenthesis;
    var none: seq<Operator<N>> := [];
    PassStep(d, Yard(out, none), x);
    PopEmpty(out + [x], op);
    InfixStep(d, Yard(out + [x], none), op, Yard(out + [x], none));
    Then(d, Yard(out, none), [x], Yard(out + [x], none), [op], Yard(out + [x], none + [op]));
    OpenStep(d, Yard(out + [x], none + [op]));
    Then(d, Yard(out, none), [x] + [op], Yard(out + [x], none + [op]), [open], Yard(out + [x], none + [op] + [open]));
    assert none + [op] + [open] == [op, open];
    assert [x] + [op] + [open] == [x, op, open];
  }

  /** Inside a group, after its first operand: `* x /` leaves `x *` on the output and
      `/` above the `(`. */
  lemma ProductThenQuotient<N>(d: Dialect, out: seq<Operator<N>>, m: Operator<N>, x: Operator<N>)
    requires Passes(d, x)
    ensures Run(d, Yard(out, [m, OpenParenthesis]), [Mult, x, Div])
      == Ok(Yard(out + [x, Mult], [m, OpenParenthesis, Div]))
  {
    var open: Operator<N> := OpenParenthesis;
    var mult: Operator<N> := Mult;
    var div: Operator<N> := Div;
    var s := [m, open];
    assert s == [m] + [open];
    PopStops(out, [m], open, mult);
    InfixStep(d, Yard(out, s), mult, Yard(out, s));
    PassStep(d, Yard(out, s + [mult]), x);
    Then(d, Yard(out, s), [mult], Yard(out, s + [mult]), [x], Yard(out + [x], s + [mult]));
    PopMoves(out + [x], s, mult, div);
    PopStops(out + [x] + [mult], [m], open, div);
    InfixStep(d, Yard(out + [x], s + [mult]), div, Yard(out + [x] + [mult], s));
    Then(d, Yard(out, s), [mult] + [x], Yard(out + [x], s + [mult]), [div], Yard(out + [x] + [mult], s + [div]));
    assert [mult] + [x] + [div] == [mult, x, div];
    assert out + [x] + [mult] == out + [x, mult];
    assert s + [div] == [m, open, div];
  }

  /** Inside a group, after its first operand: `* x ^ z /` leaves `x z ^ *` on the
      output and `/` above the `(`. */
  lemma ProductOfPowerThenQuotient<N>(d: Dialect, out: seq<Operator<N>>, m: Operator<N>, x: Operator<N>, z: Operator<N>)
    requires Passes(d, x) && Passes(d, z)
    ensures Run(d, Yard(out, [m, OpenParenthesis]), [Mult, x, Power, z, Div])
      == Ok(Yard(out + [x, z, Power, Mult], [m, OpenParenthesis, Div]))
  {
    var open: Operator<N> := OpenParenthesis;
    var mult: Operator<N> := Mult;
    var pow: Operator<N> := Power;
    var div: Operator<N> := Div;
    var s := [m, open];
    ProductOperand(d, out, m, x);
    PowerWaits(d, out + [x], s, z);
    Then(d, Yard(out, s), [mult, x], Yard(out + [x], s + [mult]), [pow, z], Yard(out + [x] + [z], s + [mult] + [pow]));
    QuotientPopsTwo(d, out + [x] + [z], m);
    Then(d, Yard(out, s), [mult, x] + [pow, z], Yard(out + [x] + [z], s + [mult] + [pow]),
      [div], Yard(out + [x] + [z] + [pow] + [mult], s + [div]));
    assert [mult, x] + [pow, z] + [div] == [mult, x, pow, z, div];
    assert out + [x] + [z] + [pow] + [mult] == out + [x, z, pow, mult];
    assert s + [div] == [m, open, div];
  }

  /** `* x` above a `(`: the product waits on the stack. */
  lemma ProductOperand<N>(d: Dialect, out: seq<Operator<N>>, m: Operator<N>, x: Operator<N>)
    requires Passes(d, x)
    ensures Run(d, Yard(out, [m, OpenParenthesis]), [Mult, x]) == Ok(Yard(out + [x], [m, OpenParenthesis] + [Mult]))
  {
    var open: Operator<N> := OpenParenthesis;
    var mult: Operator<N> := Mult;
    var s := [m, open];
    assert s == [m] + [open];
    PopStops(out, [m], open, mult);
    InfixStep(d, Yard(out, s), mult, Yard(out, s));
    PassStep(d, Yard(out, s + [mult]), x);
    Then(d, Yard(out, s), [mult], Yard(out, s + [mult]), [x], Yard(out + [x], s + [mult]));
    assert [mult] + [x] == [mult, x];
  }

  /** `/` above `( * ^`: both the power and the product leave the stack first. */
  lemma QuotientPopsTwo<N>(d: Dialect, out: seq<Operator<N>>, m: Operator<N>)
    ensures Run(d, Yard(out, [m, OpenParenthesis] + [Mult] + [Power]), [Div])
      == Ok(Yard(out + [Power] + [Mult], [m, OpenParenthesis] + [Div]))
  {
    var open: Operator<N> := OpenParenthesis;
    var mult: Operator<N> := Mult;
    var pow: Operator<N> := Power;
    var div: Operator<N> := Div;
    var s := [m, open];
    assert s == [m] + [open];
    PopMoves(out, s + [mult], pow, div);
    PopMoves(out + [pow], s, mult, div);
    PopStops(out + [pow] + [mult], [m], open, div);
    InfixStep(d, Yard(out, s + [mult] + [pow]), div, Yard(out + [pow] + [mult], s));
  }

  /** `^ z` above a `*`: the power waits on the stack. */
  lemma PowerWaits<N>(d: Dialect, out: seq<Operator<N>>, s: seq<Operator<N>>, z: Operator<N>)
    requires Passes(d, z)
    ensures Run(d, Yard(out, s + [Mult]), [Power, z]) == Ok(Yard(out + [z], s + [Mult] + [Power]))
  {
    var mult: Operator<N> := Mult;
    var pow: Operator<N> := Power;
    PopStops(out, s, mult, pow);
    InfixStep(d, Yard(out, s + [mult]), pow, Yard(out, s + [mult]));
    PassStep(d, Yard(out, s + [mult] + [pow]), z);
    Then(d, Yard(out, s + [mult]), [pow], Yard(out, s + [mult] + [pow]), [z], Yard(out + [z], s + [mult] + [pow]));
    assert [pow] + [z] == [pow, z];
  }

  /** The `)` that closes the outer group, with `/` above its `(`. */
  lemma CloseQuotient<N>(d: Dialect, out: seq<Operator<N>>, m: Operator<N>)
    ensures Run(d, Yard(out, [m, OpenParenthesis, Div]), [CloseParenthesis]) == Ok(Yard(out + [Div], [m]))
  {
    var open: Operator<N> := OpenParenthesis;
    var div: Operator<N> := Div;
    assert [m, open, div] == [m, open] + [div];
    assert [m, open] == [m] + [open];
    CloseMoves(out, [m, open], div, d);
    CloseStops(out + [div], [m], d);
    CloseStep(d, Yard(out, [m, open, div]), Yard(out + [div], [m]));
  }

  /** `p low q high r`, where `high` binds more tightly than `low`, from an empty stack. */
  lemma Tail<N>(d: Dialect, out: seq<Operator<N>>, p: Operator<N>, low: Operator<N>, q: Operator<N>, high: Operator<N>, r: Operator<N>)
    requires Passes(d, p) && Passes(d, q) && Passes(d, r) && IsInfix(low) && IsInfix(high)
    requires Precedence(low).Ok? && Precedence(high).Ok? && Precedence(low).value < Precedence(high).value
    ensures Run(d, Yard(out, []), [p, low, q, high, r]) == Ok(Yard(out + [p, q, r], [low, high]))
  {
    var none: seq<Operator<N>> := [];
    PassStep(d, Yard(out, none), p);
    PopEmpty(out + [p], low);
    InfixStep(d, Yard(out + [p], none), low, Yard(out + [p], none));
    Then(d, Yard(out, none), [p], Yard(out + [p], none), [low], Yard(out + [p], none + [low]));
    TailRest(d, out + [p], none + [low], low, q, high, r);
    Then(d, Yard(out, none), [p] + [low], Yard(out + [p], none + [low]),
      [q, high, r], Yard(out + [p] + [q] + [r], none + [low] + [high]));
    assert [p] + [low] + [q, high, r] == [p, low, q, high, r];
    assert out + [p] + [q] + [r] == out + [p, q, r];
    assert none + [low] + [high] == [low, high];
  }

  lemma TailRest<N>(d: Dialect, out: seq<Operator<N>>, s: seq<Operator<N>>, low: Operator<N>, q: Operator<N>, high: Operator<N>, r: Operator<N>)
    requires Passes(d, q) && Passes(d, r) && IsInfix(high) && s != [] && s[|s| - 1] == low
    requires Precedence(low).Ok? && Precedence(high).Ok? && Precedence(low).value < Precedence(high).value
    ensures Run(d, Yard(out, s), [q, high, r]) == Ok(Yard(out + [q] + [r], s + [high]))
  {
    PassStep(d, Yard(out, s), q);
    Split(s);
    PopStops(out + [q], s[..|s| - 1], low, high);
    InfixStep(d, Yard(out + [q], s), high, Yard(out + [q], s));
    Then(d, Yard(out, s), [q], Yard(out + [q], s), [high], Yard(out + [q], s + [high]));
    PassStep(d, Yard(out + [q], s + [high]), r);
    Then(d, Yard(out, s), [q] + [high], Yard(out + [q], s + [high]), [r], Yard(out + [q] + [r], s + [high]));
    assert [q] + [high] + [r] == [q, high, r];
  }

  // The expectations.

  /** The loop over `a * ((b + c) * d / (e - f))`, before the final flush. */
  lemma NestedGroupsRun<N>(d: Dialect, a: Operator<N>, b: Operator<N>, c: Operator<N>, e: Operator<N>, f: Operator<N>, g: Operator<N>)
    requires Passes(d, a) && Passes(d, b) && Passes(d, c) && Passes(d, e) && Passes(d, f) && Passes(d, g)
    ensures Run(d, Yard([], []), NestedGroups(a, b, c, e, f, g))
      == Ok(Yard([a] + [b, c, Add] + [e, Mult] + [f, g, Minus] + [Div], [Mult]))
  {
    var mult: Operator<N> := Mult;
    var open: Operator<N> := OpenParenthesis;
    var close: Operator<N> := CloseParenthesis;
    var none: seq<Operator<N>> := [];
    var s: seq<Operator<N>> := [mult, open];
    var y0 := Yard(none, none);
    var o1 := [a] + [b, c, Add];
    var o2 := o1 + [e, Mult];
    var o3 := o2 + [f, g, Minus];
    assert s + [Div] == [mult, open, Div];
    Lead(d, none, a, mult);
    assert none + [a] == [a];
    Group(d, Yard([a], s), b, Add, c);
    Then(d, y0, [a, mult, open], Yard([a], s), [open, b, Add, c, close], Yard(o1, s));
    ProductThenQuotient(d, o1, mult, e);
    Then(d, y0, [a, mult, open] + [open, b, Add, c, close], Yard(o1, s), [mult, e, Div], Yard(o2, s + [Div]));
    Group(d, Yard(o2, s + [Div]), f, Minus, g);
    Then(d, y0, [a, mult, open] + [open, b, Add, c, close] + [mult, e, Div], Yard(o2, s + [Div]),
      [open, f, Minus, g, close], Yard(o3, s + [Div]));
    CloseQuotient(d, o3, mult);
    Then(d, y0, [a, mult, open] + [open, b, Add, c, close] + [mult, e, Div] + [open, f, Minus, g, close],
      Yard(o3, s + [Div]), [close], Yard(o3 + [Div], [mult]));
    NestedGroupsText(a, b, c, e, f, g);
  }

  /** `a * ((b + c) * e / (f - g))` as tokens. */
  function NestedGroups<N>(a: Operator<N>, b: Operator<N>, c: Operator<N>, e: Operator<N>, f: Operator<N>, g: Operator<N>): seq<Operator<N>> {
    [a, Mult, OpenParenthesis, OpenParenthesis, b, Add, c, CloseParenthesis, Mult, e, Div,
     OpenParenthesis, f, Minus, g, CloseParenthesis, CloseParenthesis]
  }

  lemma NestedGroupsText<N>(a: Operator<N>, b: Operator<N>, c: Operator<N>, e: Operator<N>, f: Operator<N>, g: Operator<N>)
    ensures [a, Mult, OpenParenthesis] + [OpenParenthesis, b, Add, c, CloseParenthesis] + [Mult, e, Div]
      + [OpenParenthesis, f, Minus, g, CloseParenthesis] + [CloseParenthesis] == NestedGroups(a, b, c, e, f, g)
  {
  }

  /** `a * ((b + c) * d / (e - f))` becomes `a b c + d * e f - / *`, whatever the
      operands. */
  lemma NestedGroupsPostfix<N>(d: Dialect, a: Operator<N>, b: Operator<N>, c: Operator<N>, e: Operator<N>, f: Operator<N>, g: Operator<N>)
    requires Passes(d, a) && Passes(d, b) && Passes(d, c) && Passes(d, e) && Passes(d, f) && Passes(d, g)
    ensures Postfix(d, NestedGroups(a, b, c, e, f, g))
      == Ok([a, b, c, Add, e, Mult, f, g, Minus, Div, Mult])
  {
    var out := [a] + [b, c, Add] + [e, Mult] + [f, g, Minus] + [Div];
    NestedGroupsRun(d, a, b, c, e, f, g);
    FlushOne(out, Mult, Unclosed(d));
    NestedGroupsOutput(a, b, c, e, f, g, Add, Mult, Minus, Div);
    Flushed(d, NestedGroups(a, b, c, e, f, g), Yard(out, [Mult]), [a, b, c, Add, e, Mult, f, g, Minus, Div, Mult]);
  }

  lemma NestedGroupsOutput<T>(a: T, b: T, c: T, e: T, f: T, g: T, add: T, mult: T, minus: T, div: T)
    ensures [a] + [b, c, add] + [e, mult] + [f, g, minus] + [div] + [mult] == [a, b, c, add, e, mult, f, g, minus, div, mult]
  {
  }

  /** The algorithm's result from the state its loop ends in. */
  lemma Flushed<N>(d: Dialect, input: seq<Operator<N>>, y: Yard<N>, out: seq<Operator<N>>)
    requires Run(d, Yard([], []), input) == Ok(y) && FlushAll(y.output, y.stack, Unclosed(d)) == Ok(out)
    ensures Postfix(d, input) == Ok(out)
  {
  }

  /** `a * ((b + c) * e ^ h / (f - g))` as tokens. */
  function NestedPower<N>(a: Operator<N>, b: Operator<N>, c: Operator<N>, e: Operator<N>, h: Operator<N>, f: Operator<N>, g: Operator<N>): seq<Operator<N>> {
    [a, Mult, OpenParenthesis, OpenParenthesis, b, Add, c, CloseParenthesis, Mult, e, Power, h, Div,
     OpenParenthesis, f, Minus, g, CloseParenthesis, CloseParenthesis]
  }

  lemma NestedPowerText<N>(a: Operator<N>, b: Operator<N>, c: Operator<N>, e: Operator<N>, h: Operator<N>, f: Operator<N>, g: Operator<N>)
    ensures [a, Mult, OpenParenthesis] + [OpenParenthesis, b, Add, c, CloseParenthesis] + [Mult, e, Power, h, Div]
      + [OpenParenthesis, f, Minus, g, CloseParenthesis] + [CloseParenthesis] == NestedPower(a, b, c, e, h, f, g)
  {
  }

  /** The loop over `a * ((b + c) * e ^ h / (f - g))`, before the final flush. */
  lemma NestedPowerRun<N>(d: Dialect, a: Operator<N>, b: Operator<N>, c: Operator<N>, e: Operator<N>, h: Operator<N>, f: Operator<N>, g: Operator<N>)
    requires Passes(d, a) && Passes(d, b) && Passes(d, c) && Passes(d, e) && Passes(d, h) && Passes(d, f) && Passes(d, g)
    ensures Run(d, Yard([], []), NestedPower(a, b, c, e, h, f, g))
      == Ok(Yard([a] + [b, c, Add] + [e, h, Power, Mult] + [f, g, Minus] + [Div], [Mult]))
  {
    var mult: Operator<N> := Mult;
    var open: Operator<N> := OpenParenthesis;
    var close: Operator<N> := CloseParenthesis;
    var none: seq<Operator<N>> := [];
    var s: seq<Operator<N>> := [mult, open];
    var y0 := Yard(none, none);
    var o1 := [a] + [b, c, Add];
    var o2 := o1 + [e, h, Power, Mult];
    var o3 := o2 + [f, g, Minus];
    assert s + [Div] == [mult, open, Div];
    Lead(d, none, a, mult);
    assert none + [a] == [a];
    Group(d, Yard([a], s), b, Add, c);
    Then(d, y0, [a, mult, open], Yard([a], s), [open, b, Add, c, close], Yard(o1, s));
    ProductOfPowerThenQuotient(d, o1, mult, e, h);
    Then(d, y0, [a, mult, open] + [open, b, Add, c, close], Yard(o1, s), [mult, e, Power, h, Div], Yard(o2, s + [Div]));
    Group(d, Yard(o2, s + [Div]), f, Minus, g);
    Then(d, y0, [a, mult, open] + [open, b, Add, c, close] + [mult, e, Power, h, Div], Yard(o2, s + [Div]),
      [open, f, Minus, g, close], Yard(o3, s + [Div]));
    CloseQuotient(d, o3, mult);
    Then(d, y0, [a, mult, open] + [open, b, Add, c, close] + [mult, e, Power, h, Div] + [open, f, Minus, g, close],
      Yard(o3, s + [Div]), [close], Yard(o3 + [Div], [mult]));
    NestedPowerText(a, b, c, e, h, f, g);
  }

  /** `a * ((b + c) * e ^ h / (f - g))` becomes `a b c + e h ^ * f g - / *`, whatever
      the operands. */
  lemma NestedPowerPostfix<N>(d: Dialect, a: Operator<N>, b: Operator<N>, c: Operator<N>, e: Operator<N>, h: Operator<N>, f: Operator<N>, g: Operator<N>)
    requires Passes(d, a) && Passes(d, b) && Passes(d, c) && Passes(d, e) && Passes(d, h) && Passes(d, f) && Passes(d, g)
    ensures Postfix(d, NestedPower(a, b, c, e, h, f, g))
      == Ok([a, b, c, Add, e, h, Power, Mult, f, g, Minus, Div, Mult])
  {
    var out := [a] + [b, c, Add] + [e, h, Power, Mult] + [f, g, Minus] + [Div];
    NestedPowerRun(d, a, b, c, e, h, f, g);
    FlushOne(out, Mult, Unclosed(d));
    NestedPowerOutput(a, b, c, e, h, f, g, Add, Power, Mult, Minus, Div);
    Flushed(d, NestedPower(a, b, c, e, h, f, g), Yard(out, [Mult]), [a, b, c, Add, e, h, Power, Mult, f, g, Minus, Div, Mult]);
  }

  lemma NestedPowerOutput<T>(a: T, b: T, c: T, e: T, h: T, f: T, g: T, add: T, pow: T, mult: T, minus: T, div: T)
    ensures [a] + [b, c, add] + [e, h, pow, mult] + [f, g, minus] + [div] + [mult]
      == [a, b, c, add, e, h, pow, mult, f, g, minus, div, mult]
  {
  }

  /** `=` after the expression above, then `p - q * r`: the stack is emptied at `=`,
      which follows the left side, and the right side is converted on its own. */
  lemma EqualFlushesPostfix<N>(d: Dialect, a: Operator<N>, b: Operator<N>, c: Operator<N>, e: Operator<N>, h: Operator<N>, f: Operator<N>, g: Operator<N>,
      p: Operator<N>, q: Operator<N>, r: Operator<N>)
    requires Passes(d, a) && Passes(d, b) && Passes(d, c) && Passes(d, e) && Passes(d, h) && Passes(d, f) && Passes(d, g)
    requires Passes(d, p) && Passes(d, q) && Passes(d, r)
    ensures Postfix(d, NestedPower(a, b, c, e, h, f, g) + [Equal, p, Minus, q, Mult, r])
      == Ok([a, b, c, Add, e, h, Power, Mult, f, g, Minus, Div, Mult, Equal, p, q, r, Mult, Minus])
  {
    var left := [a] + [b, c, Add] + [e, h, Power, Mult] + [f, g, Minus] + [Div];
    var lhs := left + [Mult] + [Equal];
    var input := NestedPower(a, b, c, e, h, f, g) + [Equal, p, Minus, q, Mult, r];
    EqualFlushesRun(d, a, b, c, e, h, f, g, p, q, r);
    FlushTwo(lhs + [p, q, r], Minus, Mult, Unclosed(d));
    EqualFlushesOutput(left, a, b, c, e, h, f, g, p, q, r);
    Flushed(d, input, Yard(lhs + [p, q, r], [Minus, Mult]),
      [a, b, c, Add, e, h, Power, Mult, f, g, Minus, Div, Mult, Equal, p, q, r, Mult, Minus]);
  }

  /** The loop over the line with `=`: the stack is empty after `=`. */
  lemma EqualFlushesRun<N>(d: Dialect, a: Operator<N>, b: Operator<N>, c: Operator<N>, e: Operator<N>, h: Operator<N>, f: Operator<N>, g: Operator<N>,
      p: Operator<N>, q: Operator<N>, r: Operator<N>)
    requires Passes(d, a) && Passes(d, b) && Passes(d, c) && Passes(d, e) && Passes(d, h) && Passes(d, f) && Passes(d, g)
    requires Passes(d, p) && Passes(d, q) && Passes(d, r)
    ensures var lhs := [a] + [b, c, Add] + [e, h, Power, Mult] + [f, g, Minus] + [Div] + [Mult] + [Equal];
      Run(d, Yard([], []), NestedPower(a, b, c, e, h, f, g) + [Equal, p, Minus, q, Mult, r])
        == Ok(Yard(lhs + [p, q, r], [Minus, Mult]))
  {
    var left := [a] + [b, c, Add] + [e, h, Power, Mult] + [f, g, Minus] + [Div];
    var mult: Operator<N> := Mult;
    var minus: Operator<N> := Minus;
    var eq: Operator<N> := Equal;
    var none: seq<Operator<N>> := [];
    var y0 := Yard(none, none);
    var lhs := left + [Mult] + [Equal];
    NestedPowerRun(d, a, b, c, e, h, f, g);
    FlushOne(left, mult, Unclosed(d));
    RunOne(d, Yard(left, [mult]), eq, Yard(lhs, none));
    Then(d, y0, NestedPower(a, b, c, e, h, f, g), Yard(left, [mult]), [eq], Yard(lhs, none));
    Tail(d, lhs, p, minus, q, mult, r);
    Then(d, y0, NestedPower(a, b, c, e, h, f, g) + [eq], Yard(lhs, none), [p, minus, q, mult, r], Yard(lhs + [p, q, r], [minus, mult]));
    Append(NestedPower(a, b, c, e, h, f, g), eq, p, minus, q, mult, r);
  }

  lemma EqualFlushesOutput<N>(left: seq<Operator<N>>, a: Operator<N>, b: Operator<N>, c: Operator<N>, e: Operator<N>, h: Operator<N>, f: Operator<N>, g: Operator<N>,
      p: Operator<N>, q: Operator<N>, r: Operator<N>)
    requires left == [a] + [b, c, Add] + [e, h, Power, Mult] + [f, g, Minus] + [Div]
    ensures left + [Mult] + [Equal] + [p, q, r] + [Mult, Minus]
      == [a, b, c, Add, e, h, Power, Mult, f, g, Minus, Div, Mult, Equal, p, q, r, Mult, Minus]
  {
    var whole := [a, b, c, Add, e, h, Power, Mult, f, g, Minus, Div, Mult];
    assert left + [Mult] == whole;
    Glue(whole, Equal, p, q, r, Mult, Minus);
  }

  lemma Append<T>(s: seq<T>, t: T, p: T, q: T, r: T, u: T, v: T)
    ensures s + [t] + [p, q, r, u, v] == s + [t, p, q, r, u, v]
  {
  }

  lemma Glue<T>(s: seq<T>, t: T, p: T, q: T, r: T, u: T, v: T)
    ensures s + [t] + [p, q, r] + [u, v] == s + [t, p, q, r, u, v]
  {
  }

  /** `a + b ?`: the revised generation closes the expression at `?`, after the
      pending `+`; the compiled one outputs `?` as a variable before it. */
  lemma QuestionMarkPostfix<N>(a: N, b: N)
    ensures Postfix(Revised, [Number(a), Add, Number(b), Var("?")]) == Ok([Number(a), Number(b), Add, Var("?")])
    ensures Postfix(Compiled, [Number(a), Add, Number(b), Var("?")]) == Ok([Number(a), Number(b), Var("?"), Add])
  {
    var x, y: Operator<N> := Number(a), Number(b);
    var add: Operator<N> := Add;
    var ask: Operator<N> := Var("?");
    var none: seq<Operator<N>> := [];
    Quad(x, add, y, ask);
    RunBinary(Revised, a, add, b);
    FlushOne([x, y], add, Unclosed(Revised));
    RunOne(Revised, Yard([x, y], [add]), ask, Yard([x, y] + [add] + [ask], none));
    Then(Revised, Yard(none, none), [x, add, y], Yard([x, y], [add]), [ask], Yard([x, y] + [add] + [ask], none));
    assert [x, y] + [add] + [ask] == [x, y, add, ask];
    RunBinary(Compiled, a, add, b);
    PassStep(Compiled, Yard([x, y], [add]), ask);
    Then(Compiled, Yard(none, none), [x, add, y], Yard([x, y], [add]), [ask], Yard([x, y] + [ask], [add]));
    FlushOne([x, y] + [ask], add, Unclosed(Compiled));
    assert [x, y] + [ask] + [add] == [x, y, ask, add];
  }
}
