/** The expression tree of the revised generation: `BTree::from_vec` builds it from a
    postfix token sequence by consuming tokens from the tail, `to_string` renders it
    back in postfix order and `find_depth_value` lists one level of it. */
module BTrees {
  import opened Outcomes
  import opened Tokens

  /** The value a `BTree` holds: its node and its two optional children. */
  datatype Tree = Tree(c1: Option<Tree>, c2: Option<Tree>, node: Token)

  function Leaf(t: Token): Tree {
    Tree(None, None, t)
  }

  /** Message of `from_vec` when the formula runs out. */
  const EmptyFormula := "Error while parsing formula"

  /** Message of `from_vec` for a parenthesis or `=`: the Rust source writes it as a
      plain string, not a `format!`, so the braces are part of the message. */
  const UnexpectedOperator := "unexpected operator {last_op} in btree"

  /** The tokens that cannot be a node of the tree. */
  predicate Refused(t: Token) {
    t.OpenParenthesis? || t.CloseParenthesis? || t.Equal?
  }

  /** The trees `from_vec` builds: operands are childless, every other node is an
      operator other than a parenthesis or `=` with both children. */
  predicate Shaped(t: Tree) {
    if IsOperand(t.node) then t.c1 == None && t.c2 == None
    else !Refused(t.node) && t.c1.Some? && t.c2.Some? && Shaped(t.c1.value) && Shaped(t.c2.value)
  }

  /** The nodes in the order `to_string` visits them: first child, second child, node. */
  function Postorder(t: Tree): seq<Token> {
    (if t.c1.Some? then Postorder(t.c1.value) else []) +
    (if t.c2.Some? then Postorder(t.c2.value) else []) + [t.node]
  }

  /** What `from_vec` returns, together with what is left of the formula it pops. */
  datatype Built = Built(tree: Outcome<Tree>, rest: seq<Token>)

  /** `BTree::from_vec`: pops the last token; an operand is a leaf, a parenthesis or
      `=` an error, any other operator a node whose second child is built first from
      what remains, and then its first child. Only a prefix of the formula is left. */
  function Build(formula: seq<Token>): (r: Built)
    ensures |r.rest| <= |formula| && r.rest == formula[..|r.rest|]
    ensures formula != [] ==> |r.rest| < |formula|
    ensures r.tree.Err? <==> !r.tree.Ok?
    ensures r.tree.Err? ==> r.tree.error == EmptyFormula || r.tree.error == UnexpectedOperator
    decreases |formula|
  {
    if formula == [] then Built(Err(EmptyFormula), [])
    else
      var last := formula[|formula| - 1];
      var init := formula[..|formula| - 1];
      if IsOperand(last) then Built(Ok(Leaf(last)), init)
      else if Refused(last) then Built(Err(UnexpectedOperator), init)
      else
        var second := Build(init);
        if !second.tree.Ok? then second
        else
          var first := Build(second.rest);
          assert first.rest == init[..|first.rest|];
          if !first.tree.Ok? then first
          else Built(Ok(Tree(Some(first.tree.value), Some(second.tree.value), last)), first.rest)
  }

  /** `from_vec` fails on an empty formula. */
  lemma BuildEmpty()
    ensures Build([]) == Built(Err(EmptyFormula), [])
  {
  }

  /** An operand at the tail becomes a childless node, consuming exactly one token;
      a parenthesis or `=` there is an error. */
  lemma BuildLast(init: seq<Token>, last: Token)
    ensures IsOperand(last) ==> Build(init + [last]) == Built(Ok(Leaf(last)), init)
    ensures Refused(last) ==> Build(init + [last]) == Built(Err(UnexpectedOperator), init)
  {
    assert (init + [last])[..|init|] == init;
  }

  /** A built tree is shaped, and flattening it in `to_string` order gives back exactly
      the suffix of the formula that was consumed. */
  lemma {:induction false} BuildConsumes(formula: seq<Token>)
    ensures var r := Build(formula);
      r.tree.Ok? ==> Shaped(r.tree.value) && formula == r.rest + Postorder(r.tree.value)
    decreases |formula|
  {
    if formula != [] {
      var last := formula[|formula| - 1];
      var init := formula[..|formula| - 1];
      if !IsOperand(last) && !Refused(last) {
        var second := Build(init);
        if second.tree.Ok? {
          BuildConsumes(init);
          var first := Build(second.rest);
          BuildConsumes(second.rest);
          if first.tree.Ok? {
            assert Shaped(Tree(Some(first.tree.value), Some(second.tree.value), last));
            BuildNode(formula, first.rest, first.tree.value, second.tree.value);
          }
        }
      } else {
        assert formula == init + [last];
      }
    }
  }

  /** The operator case of `BuildConsumes`, once both children are built. */
  lemma BuildNode(formula: seq<Token>, rest: seq<Token>, a: Tree, b: Tree)
    requires formula != [] && !IsOperand(formula[|formula| - 1]) && !Refused(formula[|formula| - 1])
    requires Build(formula[..|formula| - 1]) == Built(Ok(b), Build(formula[..|formula| - 1]).rest)
    requires Build(Build(formula[..|formula| - 1]).rest) == Built(Ok(a), rest)
    requires formula[..|formula| - 1] == Build(formula[..|formula| - 1]).rest + Postorder(b)
    requires Build(formula[..|formula| - 1]).rest == rest + Postorder(a)
    ensures Build(formula) == Built(Ok(Tree(Some(a), Some(b), formula[|formula| - 1])), rest)
    ensures formula == rest + Postorder(Tree(Some(a), Some(b), formula[|formula| - 1]))
  {
    var last := formula[|formula| - 1];
    var init := formula[..|formula| - 1];
    JoinPostorder(formula, init, Build(init).rest, rest, a, b);
  }

  lemma JoinPostorder(formula: seq<Token>, init: seq<Token>, middle: seq<Token>, rest: seq<Token>, a: Tree, b: Tree)
    requires formula != [] && init == formula[..|formula| - 1]
    requires init == middle + Postorder(b) && middle == rest + Postorder(a)
    ensures formula == rest + Postorder(Tree(Some(a), Some(b), formula[|formula| - 1]))
  {
    var last := formula[|formula| - 1];
    assert formula == init + [last];
    assert Postorder(Tree(Some(a), Some(b), last)) == Postorder(a) + Postorder(b) + [last];
  }

  /** Conversely, `from_vec` rebuilds every shaped tree from its postfix order, whatever
      precedes it, and leaves exactly what precedes it. */
  lemma {:induction false} BuildPostorder(prefix: seq<Token>, t: Tree)
    requires Shaped(t)
    ensures Build(prefix + Postorder(t)) == Built(Ok(t), prefix)
    decreases t
  {
    if IsOperand(t.node) {
      assert Postorder(t) == [t.node];
      BuildLast(prefix, t.node);
    } else {
      var a := t.c1.value;
      var b := t.c2.value;
      var middle := prefix + Postorder(a);
      var init := middle + Postorder(b);
      assert Postorder(t) == Postorder(a) + Postorder(b) + [t.node];
      assert prefix + Postorder(t) == init + [t.node];
      BuildPostorder(middle, b);
      BuildPostorder(prefix, a);
      BuildOperator(init, t.node);
    }
  }

  /** `from_vec` on a formula ending with an operator it accepts. */
  lemma BuildOperator(init: seq<Token>, op: Token)
    requires !IsOperand(op) && !Refused(op)
    ensures Build(init + [op]) ==
      var second := Build(init);
      if !second.tree.Ok? then second
      else
        var first := Build(second.rest);
        if !first.tree.Ok? then first
        else Built(Ok(Tree(Some(first.tree.value), Some(second.tree.value), op)), first.rest)
  {
    assert (init + [op])[..|init|] == init;
  }

  /** Each token rendered after a space. */
  function Spaced(s: seq<Token>, show: Token -> string): string {
    if s == [] then [] else " " + show(s[0]) + Spaced(s[1..], show)
  }

  lemma {:induction false} SpacedAppend(a: seq<Token>, b: seq<Token>, show: Token -> string)
    ensures Spaced(a + b, show) == Spaced(a, show) + Spaced(b, show)
  {
    if a != [] {
      var head := " " + show(a[0]);
      assert (a + b)[0] == a[0];
      assert (a + b)[1..] == a[1..] + b;
      SpacedAppend(a[1..], b, show);
      calc {
        Spaced(a + b, show);
        head + Spaced(a[1..] + b, show);
        head + (Spaced(a[1..], show) + Spaced(b, show));
        (head + Spaced(a[1..], show)) + Spaced(b, show);
        Spaced(a, show) + Spaced(b, show);
      }
    } else {
      assert a + b == b;
    }
  }

  /** The rendering of a node's postfix order, split at its children. */
  lemma SpacedPostorder(t: Tree, show: Token -> string)
    ensures Spaced(Postorder(t), show) ==
      Spaced(if t.c1.Some? then Postorder(t.c1.value) else [], show) +
      Spaced(if t.c2.Some? then Postorder(t.c2.value) else [], show) + (" " + show(t.node))
  {
    var left := if t.c1.Some? then Postorder(t.c1.value) else [];
    var right := if t.c2.Some? then Postorder(t.c2.value) else [];
    var last := " " + show(t.node);
    assert Postorder(t) == (left + right) + [t.node];
    SpacedAppend(left, right, show);
    SpacedAppend(left + right, [t.node], show);
    SpacedSingle(t.node, show);
  }

  lemma SpacedSingle(x: Token, show: Token -> string)
    ensures Spaced([x], show) == " " + show(x)
  {
    assert [x][1..] == [];
  }

  function Pow2(n: nat): (r: nat)
    ensures r >= 1
  {
    if n == 0 then 1 else 2 * Pow2(n - 1)
  }

  function Nones(n: nat): (r: seq<Option<Token>>)
    ensures |r| == n && forall k | 0 <= k < n :: r[k] == None
  {
    seq(n, _ => None)
  }

  /** `find_depth_value`: the nodes at `depth` below `t`, from left to right, with a
      run of `None` wherever a child is missing. */
  function Level(t: Tree, depth: nat): (r: seq<Option<Token>>)
    ensures |r| == Pow2(depth)
  {
    if depth == 0 then [Some(t.node)]
    else
      (if t.c1.Some? then Level(t.c1.value, depth - 1) else Nones(Pow2(depth - 1))) +
      (if t.c2.Some? then Level(t.c2.value, depth - 1) else Nones(Pow2(depth - 1)))
  }

  /** The node reached from `t` by following `path`, `false` meaning the first child. */
  function Reach(t: Option<Tree>, path: seq<bool>): Option<Token> {
    if t.None? then None
    else if path == [] then Some(t.value.node)
    else Reach(if path[0] then t.value.c2 else t.value.c1, path[1..])
  }

  /** The `depth` binary digits of `k`, most significant first. */
  function Bits(depth: nat, k: nat): (r: seq<bool>)
    ensures |r| == depth
  {
    if depth == 0 then [] else Bits(depth - 1, k / 2) + [k % 2 == 1]
  }

  /** The leading digit of `k < 2^depth` tells which half `k` lies in. */
  lemma {:induction false} BitsFront(depth: nat, k: nat)
    requires 0 < depth && k < Pow2(depth)
    ensures var h := Pow2(depth - 1);
      Bits(depth, k) == [k >= h] + Bits(depth - 1, if k >= h then k - h else k)
  {
    var h := Pow2(depth - 1);
    if depth > 1 {
      var g := Pow2(depth - 2);
      assert h == 2 * g;
      var m := if k >= h then k - h else k;
      BitsFront(depth - 1, k / 2);
      assert (k / 2 >= g) == (k >= h);
      assert (if k / 2 >= g then k / 2 - g else k / 2) == m / 2;
      assert k % 2 == m % 2;
      calc {
        Bits(depth, k);
        Bits(depth - 1, k / 2) + [k % 2 == 1];
        ([k >= h] + Bits(depth - 2, m / 2)) + [m % 2 == 1];
        [k >= h] + (Bits(depth - 2, m / 2) + [m % 2 == 1]);
        [k >= h] + Bits(depth - 1, m);
      }
    }
  }

  /** Entry `k` of `find_depth_value(depth)` is the node the binary digits of `k` lead
      to, and `None` where that path leaves the tree. */
  lemma {:induction false} LevelReach(t: Tree, depth: nat, k: nat)
    requires k < Pow2(depth)
    ensures Level(t, depth)[k] == Reach(Some(t), Bits(depth, k))
  {
    if depth > 0 {
      var h := Pow2(depth - 1);
      BitsFront(depth, k);
      var path := Bits(depth - 1, if k >= h then k - h else k);
      assert Reach(Some(t), Bits(depth, k)) == Reach(if k >= h then t.c2 else t.c1, path);
      if k < h {
        if t.c1.Some? {
          LevelReach(t.c1.value, depth - 1, k);
        }
      } else {
        if t.c2.Some? {
          LevelReach(t.c2.value, depth - 1, k - h);
        }
      }
    }
  }

  /** Rust's `BTree`: a node token and two optional boxed children, which the tree
      owns (their footprints are disjoint). */
  class BTree {
    var c1: BTree?
    var c2: BTree?
    var node: Token
    ghost var Value: Tree
    ghost var Repr: set<object>

    ghost predicate Valid()
      reads this, Repr
      decreases Repr
    {
      this in Repr &&
      (c1 != null ==> c1 in Repr && c1.Repr <= Repr && this !in c1.Repr && c1.Valid()) &&
      (c2 != null ==> c2 in Repr && c2.Repr <= Repr && this !in c2.Repr && c2.Valid()) &&
      (c1 != null && c2 != null ==> c1.Repr !! c2.Repr) &&
      Value == Tree(if c1 == null then None else Some(c1.Value),
                    if c2 == null then None else Some(c2.Value), node)
    }

    /** `BTree::new`: a node without children. */
    constructor (node: Token)
      ensures Valid() && fresh(Repr) && Repr == {this}
      ensures Value == Leaf(node)
    {
      c1 := null;
      c2 := null;
      this.node := node;
      Value := Leaf(node);
      Repr := {this};
    }

    /** `insert_a`: `sub` becomes the first child; the second child and the node stay. */
    method InsertA(sub: BTree)
      requires Valid() && sub.Valid() && Repr !! sub.Repr
      modifies this
      ensures Valid() && Repr <= old(Repr) + sub.Repr
      ensures c1 == sub && c2 == old(c2) && node == old(node)
      ensures Value == Tree(Some(sub.Value), old(Value).c2, old(Value).node)
    {
      c1 := sub;
      Repr := {this} + sub.Repr + (if c2 == null then {} else c2.Repr);
      Value := Tree(Some(sub.Value), Value.c2, node);
    }

    /** `insert_b`: `sub` becomes the second child; the first child and the node stay. */
    method InsertB(sub: BTree)
      requires Valid() && sub.Valid() && Repr !! sub.Repr
      modifies this
      ensures Valid() && Repr <= old(Repr) + sub.Repr
      ensures c2 == sub && c1 == old(c1) && node == old(node)
      ensures Value == Tree(old(Value).c1, Some(sub.Value), old(Value).node)
    {
      c2 := sub;
      Repr := {this} + sub.Repr + (if c1 == null then {} else c1.Repr);
      Value := Tree(Value.c1, Some(sub.Value), node);
    }

    /** `BTree::from_vec` on a formula it pops from the end: returns the tree (or the
      error) and what is left of the formula. */
    static method FromVec(formula: seq<Token>) returns (r: Outcome<BTree>, rest: seq<Token>)
      ensures rest == Build(formula).rest
      ensures r.Ok? <==> Build(formula).tree.Ok?
      ensures r.Ok? ==> r.value.Valid() && fresh(r.value.Repr) && r.value.Value == Build(formula).tree.value
      ensures !r.Ok? ==> r.Err? && r.error == Build(formula).tree.error
      decreases |formula|
    {
      if formula == [] {
        return Err(EmptyFormula), [];
      }
      var lastOp := formula[|formula| - 1];
      rest := formula[..|formula| - 1];
      if IsOperand(lastOp) {
        var leaf := new BTree(lastOp);
        return Ok(leaf), rest;
      }
      if Refused(lastOp) {
        return Err(UnexpectedOperator), rest;
      }
      var ret := new BTree(lastOp);
      var second;
      second, rest := FromVec(rest);
      if !second.Ok? {
        return Err(second.error), rest;
      }
      ret.InsertB(second.value);
      var first;
      first, rest := FromVec(rest);
      if !first.Ok? {
        return Err(first.error), rest;
      }
      ret.InsertA(first.value);
      return Ok(ret), rest;
    }

    /** `to_string`, for a given rendering `show` of a single token: the first child's
        text, the second child's text, a space and the node; that is, the tokens in
        postfix order, each after one space. */
    function ToString(show: Token -> string): (s: string)
      reads this, Repr
      requires Valid()
      ensures s == Spaced(Postorder(Value), show)
      decreases Repr
    {
      var left := if c1 != null then c1.ToString(show) else [];
      var right := if c2 != null then c2.ToString(show) else [];
      SpacedPostorder(Value, show);
      left + right + (" " + show(node))
    }

    /** `find_depth_value`: the level `depth` levels below this node. */
    function FindDepthValue(depth: nat): (r: seq<Option<Token>>)
      reads this, Repr
      requires Valid()
      ensures |r| == Pow2(depth) && r == Level(Value, depth)
      decreases Repr
    {
      if depth == 0 then [Some(node)]
      else
        (if c1 != null then c1.FindDepthValue(depth - 1) else Nones(Pow2(depth - 1))) +
        (if c2 != null then c2.FindDepthValue(depth - 1) else Nones(Pow2(depth - 1)))
    }
  }
}
