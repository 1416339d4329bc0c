/** `assignation::from_postfix` and `to_printable_string` of the revised generation:
    a postfix sequence is turned back into parenthesised infix with a stack of token
    groups, and the infix tokens are written out one after another. */
module Assignation {
  import opened Outcomes
  import opened Tokens
  import opened Shunting
  import opened BTrees
  import opened Seqs

  /** One token of `from_postfix`. An operand is pushed as a group of its own; any
      other token pops the top group `v1` and the one below it `v2` and pushes
      `( v2 op v1 )`. When fewer than two groups are there, the ones popped are lost. */
  function Shift(stack: seq<seq<Token>>, ope: Token): seq<seq<Token>> {
    if IsOperand(ope) then stack + [[ope]]
    else if |stack| >= 2 then
      stack[..|stack| - 2] + [[OpenParenthesis] + stack[|stack| - 2] + [ope] + stack[|stack| - 1] + [CloseParenthesis]]
    else []
  }

  /** The stack of groups after the whole of `value`. */
  function Stack(value: seq<Token>): seq<seq<Token>> {
    if value == [] then [] else Shift(Stack(value[..|value| - 1]), value[|value| - 1])
  }

  /** The groups, bottom to top, appended into one sequence. */
  function Flatten(groups: seq<seq<Token>>): seq<Token> {
    if groups == [] then [] else Flatten(groups[..|groups| - 1]) + groups[|groups| - 1]
  }

  /** What `from_postfix` returns: all groups together, without their first and last
      token when there are more than two tokens. */
  function Infixed(value: seq<Token>): (r: seq<Token>)
    ensures var all := Flatten(Stack(value));
      if |all| > 2 then |r| == |all| - 2 && all == [all[0]] + r + [all[|all| - 1]] else r == all
  {
    var all := Flatten(Stack(value));
    if |all| > 2 then all[1..|all| - 1] else all
  }

  // Parenthesis balance.

  /** The nesting depth at the end of `s`: its `(` minus its `)`. */
  function Net(s: seq<Token>): int {
    if s == [] then 0 else Net(s[..|s| - 1]) + Delta(s[|s| - 1])
  }

  lemma {:induction false} NetAppend(a: seq<Token>, b: seq<Token>)
    ensures Net(a + b) == Net(a) + Net(b)
    decreases |b|
  {
    if b == [] {
      assert a + b == a;
    } else {
      assert (a + b)[..|a + b| - 1] == a + b[..|b| - 1];
      NetAppend(a, b[..|b| - 1]);
    }
  }

  lemma NetSingle(t: Token)
    ensures Net([t]) == Delta(t)
  {
    assert [t][..0] == [];
  }

  /** Every prefix is at depth zero or more, and the whole is at depth zero. */
  predicate Balanced(s: seq<Token>) {
    Net(s) == 0 && forall k | 0 <= k <= |s| :: Net(s[..k]) >= 0
  }

  /** An opening parenthesis, matched by the closing parenthesis at the very end and by
      no earlier one. */
  predicate Enclosed(g: seq<Token>) {
    2 <= |g| && g[0] == OpenParenthesis && g[|g| - 1] == CloseParenthesis &&
    Net(g) == 0 && forall k | 1 <= k < |g| :: Net(g[..k]) >= 1
  }

  /** The groups `from_postfix` builds from a sequence without parentheses. */
  predicate WellGrouped(g: seq<Token>) {
    (|g| == 1 && IsOperand(g[0])) || Enclosed(g)
  }

  lemma WellGroupedBalanced(g: seq<Token>)
    requires WellGrouped(g)
    ensures Balanced(g)
  {
    if |g| == 1 {
      assert g[..0] == [] && g[..1] == g && g[..|g| - 1] == [];
    } else {
      assert g[..0] == [] && g[..|g|] == g;
    }
  }

  /** Depth of a prefix of `[OpenParenthesis] + m + rest` that ends inside `m`. */
  lemma NetInside(m: seq<Token>, rest: seq<Token>, k: nat)
    requires k <= |m|
    ensures ([OpenParenthesis] + m + rest)[..1 + k] == [OpenParenthesis] + m[..k]
    ensures Net([OpenParenthesis] + m[..k]) == 1 + Net(m[..k])
  {
    NetAppend([OpenParenthesis], m[..k]);
    NetSingle(OpenParenthesis);
  }

  /** `( v2 op` is at depth one. */
  lemma NetFront(v2: seq<Token>, op: Token)
    requires Balanced(v2) && !IsParenthesis(op)
    ensures Net([OpenParenthesis] + v2 + [op]) == 1
  {
    NetAppend([OpenParenthesis] + v2, [op]);
    NetAppend([OpenParenthesis], v2);
    NetSingle(op);
    NetSingle(OpenParenthesis);
  }

  /** A prefix of `( v2 op v1 )` that ends inside `v2`. */
  lemma EnclosedFront(v2: seq<Token>, op: Token, v1: seq<Token>, k: nat)
    requires Balanced(v2) && 1 <= k <= 1 + |v2|
    ensures Net(([OpenParenthesis] + v2 + [op] + v1 + [CloseParenthesis])[..k]) >= 1
  {
    var rest := [op] + v1 + [CloseParenthesis];
    assert [OpenParenthesis] + v2 + [op] + v1 + [CloseParenthesis] == [OpenParenthesis] + v2 + rest;
    NetInside(v2, rest, k - 1);
  }

  /** A prefix of `( v2 op v1 )` that ends inside `v1`. */
  lemma EnclosedBack(v2: seq<Token>, op: Token, v1: seq<Token>, k: nat)
    requires Balanced(v2) && Balanced(v1) && !IsParenthesis(op)
    requires 1 + |v2| < k < |v2| + |v1| + 3
    ensures Net(([OpenParenthesis] + v2 + [op] + v1 + [CloseParenthesis])[..k]) >= 1
  {
    var front := [OpenParenthesis] + v2 + [op];
    var j := k - |front|;
    assert ([OpenParenthesis] + v2 + [op] + v1 + [CloseParenthesis])[..k] == front + v1[..j];
    NetFront(v2, op);
    NetAppend(front, v1[..j]);
  }

  /** `( v2 op v1 )` is enclosed when `v2` and `v1` are balanced and `op` is not a
      parenthesis. */
  lemma MergeEnclosed(v2: seq<Token>, op: Token, v1: seq<Token>)
    requires Balanced(v2) && Balanced(v1) && !IsParenthesis(op)
    ensures Enclosed([OpenParenthesis] + v2 + [op] + v1 + [CloseParenthesis])
  {
    var front := [OpenParenthesis] + v2 + [op];
    var g := front + v1 + [CloseParenthesis];
    NetFront(v2, op);
    NetAppend(front, v1);
    NetAppend(front + v1, [CloseParenthesis]);
    NetSingle(CloseParenthesis);
    forall k | 1 <= k < |g|
      ensures Net(g[..k]) >= 1
    {
      if k <= 1 + |v2| {
        EnclosedFront(v2, op, v1, k);
      } else {
        EnclosedBack(v2, op, v1, k);
      }
    }
  }

  /** Without parentheses in the input, every group on the stack is a single operand or
      an enclosed `( v2 op v1 )`. */
  lemma {:induction false} GroupsWellFormed(value: seq<Token>)
    requires NoParens(value)
    ensures forall k | 0 <= k < |Stack(value)| :: WellGrouped(Stack(value)[k])
  {
    if value != [] {
      var init := value[..|value| - 1];
      var ope := value[|value| - 1];
      assert NoParens(init) by {
        assert forall k | 0 <= k < |init| :: init[k] == value[k];
      }
      GroupsWellFormed(init);
      var stack := Stack(init);
      if !IsOperand(ope) && |stack| >= 2 {
        WellGroupedBalanced(stack[|stack| - 2]);
        WellGroupedBalanced(stack[|stack| - 1]);
        MergeEnclosed(stack[|stack| - 2], ope, stack[|stack| - 1]);
      }
    }
  }

  /** The inside of an enclosed group is balanced. */
  lemma InsideEnclosed(g: seq<Token>)
    requires Enclosed(g)
    ensures Balanced(g[1..|g| - 1])
  {
    var m := g[1..|g| - 1];
    assert g == [OpenParenthesis] + m + [CloseParenthesis];
    forall k | 0 <= k <= |m|
      ensures Net(m[..k]) >= 0
    {
      NetInside(m, [CloseParenthesis], k);
    }
    NetInside(m, [CloseParenthesis], |m|);
    assert m[..|m|] == m;
    NetAppend([OpenParenthesis] + m, [CloseParenthesis]);
    NetSingle(CloseParenthesis);
  }

  /** When a postfix sequence without parentheses leaves a single group, what
      `from_postfix` returns is balanced: the outer pair it strips is a matching one. */
  lemma InfixedBalanced(value: seq<Token>)
    requires NoParens(value) && |Stack(value)| == 1
    ensures Balanced(Infixed(value))
  {
    GroupsWellFormed(value);
    var g := Stack(value)[0];
    assert Flatten(Stack(value)) == g by {
      assert Stack(value)[..0] == [];
    }
    if |g| > 2 {
      InsideEnclosed(g);
    } else {
      WellGroupedBalanced(g);
    }
  }

  // Round trip through the expression tree.

  /** The fully parenthesised infix form of a tree. */
  function Infix(t: Tree): seq<Token>
    requires Shaped(t)
  {
    if IsOperand(t.node) then [t.node]
    else [OpenParenthesis] + Infix(t.c1.value) + [t.node] + Infix(t.c2.value) + [CloseParenthesis]
  }

  lemma StackSnoc(value: seq<Token>, ope: Token)
    ensures Stack(value + [ope]) == Shift(Stack(value), ope)
  {
    assert (value + [ope])[..|value|] == value;
  }

  /** The postfix order of a shaped tree pushes exactly its infix form as one group. */
  lemma {:induction false} StackPostorder(prefix: seq<Token>, t: Tree)
    requires Shaped(t)
    ensures Stack(prefix + Postorder(t)) == Stack(prefix) + [Infix(t)]
    decreases t
  {
    if IsOperand(t.node) {
      assert Postorder(t) == [t.node];
      StackSnoc(prefix, t.node);
    } else {
      var a := t.c1.value;
      var b := t.c2.value;
      var middle := prefix + Postorder(a);
      var init := middle + Postorder(b);
      PostorderSplit(prefix, t);
      StackPostorder(prefix, a);
      StackPostorder(middle, b);
      StackSnoc(init, t.node);
      ShiftMerge(Stack(prefix), Infix(a), Infix(b), t.node);
      InfixNode(t);
    }
  }

  lemma PostorderSplit(prefix: seq<Token>, t: Tree)
    requires t.c1.Some? && t.c2.Some?
    ensures prefix + Postorder(t) == prefix + Postorder(t.c1.value) + Postorder(t.c2.value) + [t.node]
  {
    assert Postorder(t) == Postorder(t.c1.value) + Postorder(t.c2.value) + [t.node];
  }

  lemma ShiftMerge(below: seq<seq<Token>>, v2: seq<Token>, v1: seq<Token>, op: Token)
    requires !IsOperand(op)
    ensures Shift(below + [v2] + [v1], op) == below + [[OpenParenthesis] + v2 + [op] + v1 + [CloseParenthesis]]
  {
    var stack := below + [v2] + [v1];
    assert stack[..|stack| - 2] == below;
  }

  lemma InfixNode(t: Tree)
    requires Shaped(t) && !IsOperand(t.node)
    ensures Infix(t) == [OpenParenthesis] + Infix(t.c1.value) + [t.node] + Infix(t.c2.value) + [CloseParenthesis]
  {
  }

  /** `from_postfix` turns the postfix order of a shaped tree into its infix form: an
      operand alone, or `c1 op c2` with each child parenthesised unless it is an
      operand. */
  lemma InfixedPostorder(t: Tree)
    requires Shaped(t)
    ensures Infixed(Postorder(t)) ==
      if IsOperand(t.node) then [t.node] else Infix(t.c1.value) + [t.node] + Infix(t.c2.value)
  {
    FlattenPostorder(t);
    if !IsOperand(t.node) {
      StripInfix(t);
    }
  }

  lemma FlattenPostorder(t: Tree)
    requires Shaped(t)
    ensures Flatten(Stack(Postorder(t))) == Infix(t)
  {
    StackPostorder([], t);
    assert [] + Postorder(t) == Postorder(t);
    FlattenSingle(Infix(t));
  }

  lemma FlattenSingle(g: seq<Token>)
    ensures Flatten([] + [g]) == g && Stack([]) + [g] == [g]
  {
    assert ([] + [g])[..0] == [];
  }

  lemma StripInfix(t: Tree)
    requires Shaped(t) && !IsOperand(t.node)
    ensures var g := Infix(t); |g| > 2 && g[1..|g| - 1] == Infix(t.c1.value) + [t.node] + Infix(t.c2.value)
  {
    InfixNode(t);
    Strip(OpenParenthesis, Infix(t.c1.value), t.node, Infix(t.c2.value), CloseParenthesis);
  }

  /** `a b op` becomes `a op b`. */
  lemma BinaryInfixed(a: Token, b: Token, op: Token)
    requires IsOperand(a) && IsOperand(b) && !IsOperand(op) && !Refused(op)
    ensures Infixed([a, b, op]) == [a, op, b]
  {
    var t := Tree(Some(Leaf(a)), Some(Leaf(b)), op);
    PostorderBinary(a, b, op);
    InfixedPostorder(t);
    assert Infix(Leaf(a)) == [a] && Infix(Leaf(b)) == [b];
  }

  lemma PostorderBinary(a: Token, b: Token, op: Token)
    ensures Postorder(Tree(Some(Leaf(a)), Some(Leaf(b)), op)) == [a, b, op]
  {
    assert Postorder(Leaf(a)) == [a] && Postorder(Leaf(b)) == [b];
  }

  /** The operator arm of `from_postfix`: `match (stack.pop(), stack.pop())`. */
  method PopMerge(stack: seq<seq<Token>>, ope: Token) returns (next: seq<seq<Token>>)
    requires !IsOperand(ope)
    ensures next == Shift(stack, ope)
  {
    next := stack;
    var v1: Option<seq<Token>> := None;
    var v2: Option<seq<Token>> := None;
    if |next| > 0 {
      v1 := Some(next[|next| - 1]);
      next := next[..|next| - 1];
    }
    if |next| > 0 {
      v2 := Some(next[|next| - 1]);
      next := next[..|next| - 1];
    }
    if v1.Some? && v2.Some? {
      assert next == stack[..|stack| - 2];
      var merge := [OpenParenthesis] + v2.value + [ope] + v1.value + [CloseParenthesis];
      next := next + [merge];
    }
  }

  /** The fold of `from_postfix` that appends the groups, bottom to top. */
  method AppendAll(stack: seq<seq<Token>>) returns (all: seq<Token>)
    ensures all == Flatten(stack)
  {
    all := [];
    for j := 0 to |stack|
      invariant all == Flatten(stack[..j])
    {
      assert stack[..j + 1][..j] == stack[..j];
      all := all + stack[j];
    }
    assert stack[..|stack|] == stack;
  }

  /** `from_postfix`: a loop over the tokens with a stack of groups, then the groups
      appended together and, beyond two tokens, the first and last one dropped. */
  method FromPostfix(value: seq<Token>) returns (ret: seq<Token>)
    ensures ret == Infixed(value)
  {
    var stack: seq<seq<Token>> := [];
    for i := 0 to |value|
      invariant stack == Stack(value[..i])
    {
      var ope := value[i];
      assert value[..i + 1] == value[..i] + [ope];
      StackSnoc(value[..i], ope);
      if IsOperand(ope) {
        stack := stack + [[ope]];
      } else {
        stack := PopMerge(stack, ope);
      }
    }
    assert value[..|value|] == value;
    ret := AppendAll(stack);
    if |ret| > 2 {
      ret := ret[1..|ret| - 1];
    }
  }

  /** Each token, rendered by `show`, followed by one space. */
  function Trailing(s: seq<Token>, show: Token -> string): string {
    if s == [] then [] else show(s[0]) + " " + Trailing(s[1..], show)
  }

  lemma {:induction false} TrailingSnoc(s: seq<Token>, x: Token, show: Token -> string)
    ensures Trailing(s + [x], show) == Trailing(s, show) + (show(x) + " ")
    decreases |s|
  {
    if s == [] {
      assert [] + [x] == [x];
      assert [x][1..] == [];
    } else {
      var head := show(s[0]) + " ";
      assert (s + [x])[0] == s[0];
      assert (s + [x])[1..] == s[1..] + [x];
      TrailingSnoc(s[1..], x, show);
      calc {
        Trailing(s + [x], show);
        head + Trailing(s[1..] + [x], show);
        head + (Trailing(s[1..], show) + (show(x) + " "));
        (head + Trailing(s[1..], show)) + (show(x) + " ");
      }
    }
  }

  /** `to_printable_string`, for a given rendering `show` of a single token: every
      token of `from_postfix`, in order, each followed by one space. */
  method ToPrintableString(value: seq<Token>, show: Token -> string) returns (ret: string)
    ensures ret == Trailing(Infixed(value), show)
  {
    var newValue := FromPostfix(value);
    ret := [];
    for i := 0 to |newValue|
      invariant ret == Trailing(newValue[..i], show)
    {
      assert newValue[..i + 1] == newValue[..i] + [newValue[i]];
      TrailingSnoc(newValue[..i], newValue[i], show);
      ret := ret + (show(newValue[i]) + " ");
    }
    assert newValue[..|newValue|] == newValue;
  }
}
