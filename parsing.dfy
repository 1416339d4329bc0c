/** `parse_line`: the line is cut into fragments at the delimiter characters, each
    fragment and each delimiter is read by `from_str`, the parentheses are counted,
    and the tokens go through `shunting_yard`. The compiled generation
    (`src/main.rs`) and the revised one (`src/parsing.rs`) differ in their delimiters,
    in when a fragment is flushed, and in the revised folding of `**`. */
module Parsing {
  import opened Outcomes
  import opened Text
  import opened Floats
  import opened Tokens
  import opened Lexer
  import opened Shunting
  import opened Seqs

  /** The characters that end a fragment; `/` and `?` only in the revised generation. */
  function Delimiters(d: Dialect): string {
    if d == Compiled then "+-()%^*=" else "+-()%^*=?/"
  }

  /** A character that joins the current fragment: not a delimiter, or a character
      that `parse::<u8>()` accepts on its own. */
  predicate Joins(d: Dialect, c: char) {
    c !in Delimiters(d) || IsDigit(c)
  }

  /** The two local variables of the loop: the fragment being read and the tokens. */
  datatype Lexed<N> = Lexed(saved: string, ops: seq<Operator<N>>)

  const Unbalanced := "missmatched parenthesis"

  /** The fragment read so far becomes a token: in the compiled generation whenever it
      is not empty, in the revised one only when it is not blank (a blank fragment is
      then kept, not cleared). */
  function Flush<N>(d: Dialect, acc: Lexed<N>, num: Float -> N): Outcome<Lexed<N>> {
    if (d == Compiled && acc.saved != []) || (d == Revised && !IsBlank(acc.saved)) then
      var t := FromStr(acc.saved, num);
      if t.Ok? then Ok(Lexed([], acc.ops + [t.value])) else Fail(t)
    else Ok(acc)
  }

  /** A second `*` right after a `*` turns the revised generation's `Mult` into
      `MatricialMult`. */
  predicate Folds<N>(d: Dialect, acc: Lexed<N>, c: char) {
    d == Revised && acc.saved == [] && c == '*' && acc.ops != [] && acc.ops[|acc.ops| - 1].Mult?
  }

  /** A delimiter: flush the fragment, then push the delimiter's own token. */
  function Delimit<N>(d: Dialect, acc: Lexed<N>, c: char, num: Float -> N): Outcome<Lexed<N>> {
    if Folds(d, acc, c) then Ok(Lexed(acc.saved, acc.ops[..|acc.ops| - 1] + [MatricialMult]))
    else
      var flushed := Flush(d, acc, num);
      if !flushed.Ok? then flushed
      else
        var t := FromStr([c], num);
        if t.Ok? then Ok(Lexed(flushed.value.saved, flushed.value.ops + [t.value])) else Fail(t)
  }

  /** The `for c in line.chars()` loop, first character first. */
  function LexFrom<N>(d: Dialect, line: string, acc: Lexed<N>, num: Float -> N): Outcome<Lexed<N>>
    decreases |line|
  {
    if line == [] then Ok(acc)
    else if Joins(d, line[0]) then LexFrom(d, line[1..], Lexed(acc.saved + [line[0]], acc.ops), num)
    else
      var next := Delimit(d, acc, line[0], num);
      if next.Ok? then LexFrom(d, line[1..], next.value, num) else next
  }

  /** The tokens of a line: the loop, then the last fragment unless it is blank. */
  function Tokenize<N>(d: Dialect, line: string, num: Float -> N): Outcome<seq<Operator<N>>> {
    var r := LexFrom(d, line, Lexed([], []), num);
    if !r.Ok? then Fail(r)
    else if IsBlank(r.value.saved) then Ok(r.value.ops)
    else
      var t := FromStr(r.value.saved, num);
      if t.Ok? then Ok(r.value.ops + [t.value]) else Fail(t)
  }

  /** The `fold` over the tokens: the running depth, `(` counting one and `)` minus one,
      must never drop below zero. */
  function ParenCheck<N>(ops: seq<Operator<N>>, depth: int): Outcome<int>
    decreases |ops|
  {
    if ops == [] then Ok(depth)
    else if depth + Delta(ops[0]) < 0 then Err(Unbalanced)
    else ParenCheck(ops[1..], depth + Delta(ops[0]))
  }

  /** The whole of `parse_line`. */
  function ParseLineSpec<N>(d: Dialect, line: string, num: Float -> N): Outcome<seq<Operator<N>>> {
    var ts := Tokenize(d, line, num);
    if !ts.Ok? then Fail(ts)
    else
      var depth := ParenCheck(ts.value, 0);
      if !depth.Ok? then Fail(depth) else Postfix(d, ts.value)
  }

  // What the parenthesis count accepts.

  /** The number of `)` in `s`. */
  function Closes<N>(s: seq<Operator<N>>): nat {
    if s == [] then 0 else Closes(s[..|s| - 1]) + (if s[|s| - 1].CloseParenthesis? then 1 else 0)
  }

  lemma {:induction false} CountsAppend<N>(a: seq<Operator<N>>, b: seq<Operator<N>>)
    ensures Opens(a + b) == Opens(a) + Opens(b) && Closes(a + b) == Closes(a) + Closes(b)
    decreases |b|
  {
    if b != [] {
      CountsAppend(a, b[..|b| - 1]);
      assert (a + b)[..|a + b| - 1] == a + b[..|b| - 1];
    } else {
      assert a + b == a;
    }
  }

  lemma CountsOfOne<N>(t: Operator<N>)
    ensures Opens([t]) == (if t.OpenParenthesis? then 1 else 0)
    ensures Closes([t]) == (if t.CloseParenthesis? then 1 else 0)
  {
    assert [t][..0] == [];
  }

  /** The count succeeds exactly when no non-empty prefix of the tokens holds more `)`
      than `(` beyond the starting depth; it then ends at the starting depth plus the
      difference, and its one failure is the unbalanced-parenthesis error. */
  lemma {:induction false} ParenCheckMeaning<N>(ops: seq<Operator<N>>, depth: int)
    ensures ParenCheck(ops, depth).Ok? <==> NeverBelow(ops, depth)
    ensures ParenCheck(ops, depth).Ok? ==> ParenCheck(ops, depth).value == depth + Opens(ops) - Closes(ops)
    ensures !ParenCheck(ops, depth).Ok? ==> ParenCheck(ops, depth) == Err(Unbalanced)
    decreases |ops|
  {
    if ops != [] {
      ParenCheckMeaning(ops[1..], depth + Delta(ops[0]));
      NeverBelowCons(ops, depth);
      PrefixShift(ops, depth, |ops|);
      assert ops[..|ops|] == ops && ops[1..][..|ops| - 1] == ops[1..];
    }
  }

  /** From depth `depth`, no non-empty prefix of `ops` holds more `)` than `(`
      beyond the starting depth. */
  predicate NeverBelow<N>(ops: seq<Operator<N>>, depth: int) {
    forall i | 1 <= i <= |ops| :: depth + Opens(ops[..i]) - Closes(ops[..i]) >= 0
  }

  /** A prefix's count is that of the first token, then of the rest's prefix. */
  lemma PrefixShift<N>(ops: seq<Operator<N>>, depth: int, i: nat)
    requires 1 <= i <= |ops|
    ensures depth + Opens(ops[..i]) - Closes(ops[..i]) ==
      depth + Delta(ops[0]) + Opens(ops[1..][..i - 1]) - Closes(ops[1..][..i - 1])
  {
    assert ops[..i] == [ops[0]] + ops[1..][..i - 1];
    CountsAppend([ops[0]], ops[1..][..i - 1]);
    CountsOfOne(ops[0]);
  }

  lemma NeverBelowCons<N>(ops: seq<Operator<N>>, depth: int)
    requires ops != []
    ensures NeverBelow(ops, depth) <==>
      depth + Delta(ops[0]) >= 0 && NeverBelow(ops[1..], depth + Delta(ops[0]))
  {
    var k := depth + Delta(ops[0]);
    var rest := ops[1..];
    PrefixShift(ops, depth, 1);
    assert rest[..0] == [];
    if NeverBelow(ops, depth) {
      forall j | 1 <= j <= |rest|
        ensures k + Opens(rest[..j]) - Closes(rest[..j]) >= 0
      {
        PrefixShift(ops, depth, j + 1);
      }
    }
    if k >= 0 && NeverBelow(rest, k) {
      forall i | 1 <= i <= |ops|
        ensures depth + Opens(ops[..i]) - Closes(ops[..i]) >= 0
      {
        PrefixShift(ops, depth, i);
      }
    }
  }

  lemma {:induction false} NestOkChecks<N>(d: Dialect, depth: int, ops: seq<Operator<N>>)
    requires NestOk(d, depth, ops)
    ensures ParenCheck(ops, depth).Ok?
    decreases |ops|
  {
    if ops != [] {
      NestOkChecks(d, depth + Delta(ops[0]), ops[1..]);
    }
  }

  /** The parenthesis count never rejects what `shunting_yard` accepts: once the line
      is read, `parse_line` succeeds exactly when `shunting_yard` does, with its result. */
  lemma ParseLineAgrees<N>(d: Dialect, line: string, num: Float -> N)
    ensures var ts, r := Tokenize(d, line, num), ParseLineSpec(d, line, num);
      ts.Ok? ==> (r.Ok? <==> Postfix(d, ts.value).Ok?) && (r.Ok? ==> r == Postfix(d, ts.value))
  {
    var ts := Tokenize(d, line, num);
    if ts.Ok? && Postfix(d, ts.value).Ok? {
      PostfixWellNested(d, ts.value);
      NestOkChecks(d, 0, ts.value);
    }
  }

  /** Reading a line never panics: `from_str` has no panic. Once the tokens are read
      and hold neither `%` nor `**`, `parse_line` does not panic either, and succeeds
      exactly on the well-nested token lists. */
  lemma ParseLineSucceeds<N>(d: Dialect, line: string, num: Float -> N)
    ensures var ts, r := Tokenize(d, line, num), ParseLineSpec(d, line, num);
      (!ts.Ok? ==> r.Err?) &&
      (ts.Ok? && RankedOnly(ts.value) ==> !r.Panic? && (r.Ok? <==> WellNested(d, ts.value)))
  {
    TokenizeNoPanic(d, line, num);
    ParseLineAgrees(d, line, num);
    var ts := Tokenize(d, line, num);
    if ts.Ok? && RankedOnly(ts.value) {
      PostfixSucceeds(d, ts.value);
      ParenCheckMeaning(ts.value, 0);
    }
  }

  lemma TokenizeNoPanic<N>(d: Dialect, line: string, num: Float -> N)
    ensures !Tokenize(d, line, num).Panic?
  {
    LexFromNoPanic(d, line, Lexed([], []), num);
    var r := LexFrom(d, line, Lexed([], []), num);
    if r.Ok? {
      FromStrError(r.value.saved, num);
    }
  }

  lemma DelimitNoPanic<N>(d: Dialect, acc: Lexed<N>, c: char, num: Float -> N)
    ensures !Delimit(d, acc, c, num).Panic?
  {
    FromStrError(acc.saved, num);
    FromStrError([c], num);
  }

  lemma {:induction false} LexFromNoPanic<N>(d: Dialect, line: string, acc: Lexed<N>, num: Float -> N)
    ensures !LexFrom(d, line, acc, num).Panic?
    decreases |line|
  {
    if line != [] {
      if Joins(d, line[0]) {
        LexFromNoPanic(d, line[1..], Lexed(acc.saved + [line[0]], acc.ops), num);
      } else {
        DelimitNoPanic(d, acc, line[0], num);
        var next := Delimit(d, acc, line[0], num);
        if next.Ok? {
          LexFromNoPanic(d, line[1..], next.value, num);
        }
      }
    }
  }

  // The parentheses of the tokens are those of the line.

  predicate NoParenChars(s: string) {
    '(' !in s && ')' !in s
  }

  /** A text without parentheses is never read as one. */
  lemma FromStrNoParen<N>(value: string, num: Float -> N)
    requires NoParenChars(value)
    ensures FromStr(value, num).Ok? ==> !IsParenthesis(FromStr(value, num).value)
  {
    FromStrOperator(value, num);
    TrimFacts(value);
    var t := Trim(value);
    SpellingParen<N>(t);
    if t != [] {
      assert t[0] in value;
    }
  }

  lemma SpellingParen<N>(t: string)
    ensures Spelling<N>(t).Some? && IsParenthesis(Spelling<N>(t).value) ==> t == "(" || t == ")"
  {
  }

  lemma DelimiterToken<N>(d: Dialect, c: char, num: Float -> N)
    requires !Joins(d, c)
    ensures var t := FromStr([c], num);
      t.Ok? ==> (t.value.OpenParenthesis? <==> c == '(') && (t.value.CloseParenthesis? <==> c == ')')
  {
    if c == '(' {
      assert Spelling<N>([c]) == Some(OpenParenthesis);
      FromStrOfSymbol<N>(c, num);
    } else if c == ')' {
      assert Spelling<N>([c]) == Some(CloseParenthesis);
      FromStrOfSymbol<N>(c, num);
    } else {
      FromStrNoParen<N>([c], num);
    }
  }

  /** Pushing one token onto the list. */
  lemma PushCounts<N>(ops: seq<Operator<N>>, t: Operator<N>)
    ensures Opens(ops + [t]) == Opens(ops) + (if t.OpenParenthesis? then 1 else 0)
    ensures Closes(ops + [t]) == Closes(ops) + (if t.CloseParenthesis? then 1 else 0)
  {
    CountsAppend(ops, [t]);
    CountsOfOne(t);
  }

  lemma FlushBalance<N>(d: Dialect, acc: Lexed<N>, num: Float -> N)
    requires NoParenChars(acc.saved)
    ensures var f := Flush(d, acc, num);
      f.Ok? ==> NoParenChars(f.value.saved) && Opens(f.value.ops) == Opens(acc.ops) && Closes(f.value.ops) == Closes(acc.ops)
  {
    var t := FromStr(acc.saved, num);
    if t.Ok? {
      FromStrNoParen(acc.saved, num);
      PushCounts(acc.ops, t.value);
    }
  }

  lemma DelimitBalance<N>(d: Dialect, acc: Lexed<N>, c: char, num: Float -> N)
    requires NoParenChars(acc.saved) && !Joins(d, c)
    ensures var r := Delimit(d, acc, c, num);
      r.Ok? ==> (NoParenChars(r.value.saved) &&
        Opens(r.value.ops) == Opens(acc.ops) + (if c == '(' then 1 else 0) &&
        Closes(r.value.ops) == Closes(acc.ops) + (if c == ')' then 1 else 0))
  {
    DelimitCases(d, acc, c, num);
    if Folds(d, acc, c) {
      var front := acc.ops[..|acc.ops| - 1];
      Split(acc.ops);
      PushCounts(front, MatricialMult);
      PushCounts(front, acc.ops[|acc.ops| - 1]);
    } else {
      FlushBalance(d, acc, num);
      var f := Flush(d, acc, num);
      var t := FromStr([c], num);
      if f.Ok? && t.Ok? {
        DelimitFlushed(d, acc, c, f.value, t.value, num);
        DelimiterToken(d, c, num);
        PushCounts(f.value.ops, t.value);
      }
    }
  }

  lemma DelimitCases<N>(d: Dialect, acc: Lexed<N>, c: char, num: Float -> N)
    ensures Folds(d, acc, c) ==>
      Delimit(d, acc, c, num) == Ok(Lexed(acc.saved, acc.ops[..|acc.ops| - 1] + [MatricialMult]))
    ensures !Folds(d, acc, c) ==>
      (Delimit(d, acc, c, num).Ok? <==> Flush(d, acc, num).Ok? && FromStr([c], num).Ok?)
  {
  }

  lemma {:induction false} LexFromBalance<N>(d: Dialect, line: string, acc: Lexed<N>, num: Float -> N)
    requires NoParenChars(acc.saved)
    ensures var r := LexFrom(d, line, acc, num);
      r.Ok? ==> (NoParenChars(r.value.saved) &&
        Opens(r.value.ops) == Opens(acc.ops) + multiset(line)['('] &&
        Closes(r.value.ops) == Closes(acc.ops) + multiset(line)[')'])
    decreases |line|
  {
    if line != [] {
      var c := line[0];
      assert line == [c] + line[1..];
      assert multiset(line) == multiset{c} + multiset(line[1..]);
      if Joins(d, c) {
        LexFromBalance(d, line[1..], Lexed(acc.saved + [c], acc.ops), num);
      } else {
        DelimitBalance(d, acc, c, num);
        var next := Delimit(d, acc, c, num);
        if next.Ok? {
          LexFromBalance(d, line[1..], next.value, num);
        }
      }
    }
  }

  /** The tokens of a line hold as many `(` and as many `)` as the line itself. */
  lemma TokenizeBalance<N>(d: Dialect, line: string, num: Float -> N)
    ensures var ts := Tokenize(d, line, num);
      ts.Ok? ==> Opens(ts.value) == multiset(line)['('] && Closes(ts.value) == multiset(line)[')']
  {
    LexFromBalance(d, line, Lexed([], []), num);
    TokenizeCases(d, line, num);
    var r := LexFrom(d, line, Lexed([], []), num);
    if r.Ok? && !IsBlank(r.value.saved) {
      LastTokenBalance(r.value.ops, r.value.saved, num);
      TokenizeFails(d, line, num);
    }
  }

  lemma TokenizeCases<N>(d: Dialect, line: string, num: Float -> N)
    ensures var r := LexFrom(d, line, Lexed([], []), num);
      r.Ok? && IsBlank(r.value.saved) ==> Tokenize(d, line, num) == Ok(r.value.ops)
    ensures var r := LexFrom(d, line, Lexed([], []), num);
      r.Ok? && !IsBlank(r.value.saved) && FromStr(r.value.saved, num).Ok? ==>
        Tokenize(d, line, num) == Ok(r.value.ops + [FromStr(r.value.saved, num).value])
  {
  }

  lemma TokenizeFails<N>(d: Dialect, line: string, num: Float -> N)
    ensures var r := LexFrom(d, line, Lexed([], []), num);
      !r.Ok? || (!IsBlank(r.value.saved) && !FromStr(r.value.saved, num).Ok?) ==> !Tokenize(d, line, num).Ok?
  {
  }

  lemma LastTokenBalance<N>(ops: seq<Operator<N>>, saved: string, num: Float -> N)
    requires NoParenChars(saved)
    ensures var t := FromStr(saved, num);
      t.Ok? ==> Opens(ops + [t.value]) == Opens(ops) && Closes(ops + [t.value]) == Closes(ops)
  {
    var t := FromStr(saved, num);
    if t.Ok? {
      FromStrNoParen(saved, num);
      PushCounts(ops, t.value);
    }
  }

  // How the two generations read `**` and `* *`.

  predicate AllJoin(d: Dialect, s: string) {
    forall k | 0 <= k < |s| :: Joins(d, s[k])
  }

  /** Characters that join the fragment are simply appended to it. */
  lemma {:induction false} JoinAll<N>(d: Dialect, s: string, rest: string, acc: Lexed<N>, num: Float -> N)
    requires AllJoin(d, s)
    ensures LexFrom(d, s + rest, acc, num) == LexFrom(d, rest, Lexed(acc.saved + s, acc.ops), num)
    decreases |s|
  {
    if s == [] {
      Units(rest);
      Units(acc.saved);
    } else {
      Unroll(s, rest, acc.saved);
      assert Joins(d, s[0]);
      JoinAll(d, s[1..], rest, Lexed(acc.saved + [s[0]], acc.ops), num);
    }
  }

  lemma StarToken<N>(num: Float -> N)
    ensures FromStr("*", num) == Ok(Mult)
  {
    assert Spelling<N>("*") == Some(Mult);
    FromStrOfSymbol<N>('*', num);
  }

  lemma Stars(a: string, b: string)
    ensures "**" + b == ['*'] + (['*'] + b)
    ensures a + "**" + b == a + ("**" + b)
  {
  }

  /** A fragment that starts with a non-blank character is flushed in both generations. */
  lemma FlushOperand<N>(d: Dialect, a: string, x: Operator<N>, num: Float -> N)
    requires a != [] && !IsWhitespace(a[0]) && FromStr(a, num) == Ok(x)
    ensures Flush(d, Lexed(a, []), num) == Ok(Lexed([], [x]))
  {
    assert !IsBlank(a);
    Units([x]);
  }

  /** A delimiter that does not fold pushes its token after the flushed fragment. */
  lemma DelimitFlushed<N>(d: Dialect, acc: Lexed<N>, c: char, f: Lexed<N>, t: Operator<N>, num: Float -> N)
    requires !Folds(d, acc, c) && Flush(d, acc, num) == Ok(f) && FromStr([c], num) == Ok(t)
    ensures Delimit(d, acc, c, num) == Ok(Lexed(f.saved, f.ops + [t]))
  {
  }

  lemma StarDelimits(d: Dialect)
    ensures !Joins(d, '*')
  {
    assert Delimiters(d)[6] == '*';
  }

  /** A delimiter character moves the loop on by one step. */
  lemma LexDelimiter<N>(d: Dialect, c: char, b: string, acc: Lexed<N>, next: Lexed<N>, num: Float -> N)
    requires !Joins(d, c) && Delimit(d, acc, c, num) == Ok(next)
    ensures LexFrom(d, [c] + b, acc, num) == LexFrom(d, b, next, num)
  {
    Behead(c, b);
  }

  /** The first `*` after an operand flushes it. */
  lemma FirstStar<N>(d: Dialect, a: string, x: Operator<N>, num: Float -> N)
    requires a != [] && !IsWhitespace(a[0]) && FromStr(a, num) == Ok(x)
    ensures Delimit(d, Lexed(a, []), '*', num) == Ok(Lexed([], [x, Mult]))
  {
    StarToken(num);
    FlushOperand(d, a, x, num);
    DelimitFlushed(d, Lexed(a, []), '*', Lexed([], [x]), Mult, num);
    Pair(x, Mult);
  }

  /** A second `*` folds in the revised generation and is another product in the
      compiled one. */
  lemma SecondStar<N>(d: Dialect, x: Operator<N>, num: Float -> N)
    ensures Delimit(d, Lexed([], [x, Mult]), '*', num) ==
      Ok(Lexed([], if d == Revised then [x, MatricialMult] else [x, Mult, Mult]))
  {
    Triple(x, Mult, MatricialMult);
    Triple(x, Mult, Mult);
    if d == Compiled {
      StarToken(num);
      DelimitFlushed(d, Lexed([], [x, Mult]), '*', Lexed([], [x, Mult]), Mult, num);
    }
  }

  lemma LexFirstStar<N>(d: Dialect, a: string, b: string, x: Operator<N>, num: Float -> N)
    requires a != [] && !IsWhitespace(a[0]) && FromStr(a, num) == Ok(x)
    ensures LexFrom(d, ['*'] + (['*'] + b), Lexed(a, []), num) == LexFrom(d, ['*'] + b, Lexed([], [x, Mult]), num)
  {
    StarDelimits(d);
    FirstStar(d, a, x, num);
    LexDelimiter(d, '*', ['*'] + b, Lexed(a, []), Lexed([], [x, Mult]), num);
  }

  lemma LexSecondStar<N>(d: Dialect, b: string, x: Operator<N>, num: Float -> N)
    ensures LexFrom(d, ['*'] + b, Lexed([], [x, Mult]), num) ==
      LexFrom(d, b, Lexed([], if d == Revised then [x, MatricialMult] else [x, Mult, Mult]), num)
  {
    StarDelimits(d);
    SecondStar(d, x, num);
    LexDelimiter(d, '*', b, Lexed([], [x, Mult]), Lexed([], if d == Revised then [x, MatricialMult] else [x, Mult, Mult]), num);
  }

  /** The line with an operand, two stars and another operand, read up to the last
      fragment. */
  lemma LexDoubleStar<N>(d: Dialect, a: string, b: string, x: Operator<N>, num: Float -> N)
    requires AllJoin(d, a) && AllJoin(d, b)
    requires a != [] && !IsWhitespace(a[0]) && FromStr(a, num) == Ok(x)
    ensures LexFrom(d, a + "**" + b, Lexed([], []), num) ==
      Ok(Lexed(b, if d == Revised then [x, MatricialMult] else [x, Mult, Mult]))
  {
    var ops: seq<Operator<N>> := if d == Revised then [x, MatricialMult] else [x, Mult, Mult];
    Stars(a, b);
    Units(a);
    Units(b);
    JoinAll(d, a, "**" + b, Lexed([], []), num);
    LexFirstStar(d, a, b, x, num);
    LexSecondStar(d, b, x, num);
    JoinAll(d, b, [], Lexed([], ops), num);
  }

  /** A last fragment that starts with a non-blank character is read as the last token. */
  lemma LastOperand<N>(d: Dialect, line: string, b: string, ops: seq<Operator<N>>, y: Operator<N>, num: Float -> N)
    requires LexFrom(d, line, Lexed([], []), num) == Ok(Lexed(b, ops))
    requires b != [] && !IsWhitespace(b[0]) && FromStr(b, num) == Ok(y)
    ensures Tokenize(d, line, num) == Ok(ops + [y])
  {
    assert !IsBlank(b);
  }

  /** Two operands joined by `**`: the revised generation reads the matrix product,
      the compiled one two products. */
  lemma DoubleStar<N>(d: Dialect, a: string, b: string, x: Operator<N>, y: Operator<N>, num: Float -> N)
    requires AllJoin(d, a) && AllJoin(d, b)
    requires a != [] && !IsWhitespace(a[0]) && b != [] && !IsWhitespace(b[0])
    requires FromStr(a, num) == Ok(x) && FromStr(b, num) == Ok(y)
    ensures Tokenize(d, a + "**" + b, num) == Ok(if d == Revised then [x, MatricialMult, y] else [x, Mult, Mult, y])
  {
    var ops: seq<Operator<N>> := if d == Revised then [x, MatricialMult] else [x, Mult, Mult];
    LexDoubleStar(d, a, b, x, num);
    LastOperand(d, a + "**" + b, b, ops, y, num);
    Triple(x, MatricialMult, y);
    Quad(x, Mult, Mult, y);
  }

  // The function as written.

  /** The body of the loop for a delimiter `c`. */
  method Delimiter<N>(d: Dialect, saved: string, ops: seq<Operator<N>>, c: char, num: Float -> N) returns (r: Outcome<Lexed<N>>)
    ensures r == Delimit(d, Lexed(saved, ops), c, num)
  {
    var ops := ops;
    if d == Revised && saved == [] && c == '*' && ops != [] {
      ghost var before := ops;
      var last := ops[|ops| - 1];
      ops := ops[..|ops| - 1];
      if last.Mult? {
        ops := ops + [MatricialMult];
        return Ok(Lexed(saved, ops));
      }
      ops := ops + [last];
      assert ops == before;
    }
    var saved := saved;
    if (d == Compiled && saved != []) || (d == Revised && !IsBlank(saved)) {
      var t := ReadToken(saved, num);
      if !t.Ok? {
        return Fail(t);
      }
      ops := ops + [t.value];
      saved := [];
    }
    var t := ReadToken([c], num);
    if !t.Ok? {
      return Fail(t);
    }
    return Ok(Lexed(saved, ops + [t.value]));
  }

  /** The loop over the characters and the flush of the last fragment. */
  method LexLine<N>(d: Dialect, line: string, num: Float -> N) returns (r: Outcome<seq<Operator<N>>>)
    ensures r == Tokenize(d, line, num)
  {
    var saved: string := [];
    var ops: seq<Operator<N>> := [];
    for i := 0 to |line|
      invariant LexFrom(d, line, Lexed([], []), num) == LexFrom(d, line[i..], Lexed(saved, ops), num)
    {
      assert line[i..][0] == line[i] && line[i..][1..] == line[i + 1..];
      var c := line[i];
      if Joins(d, c) {
        saved := saved + [c];
      } else {
        var next := Delimiter(d, saved, ops, c, num);
        if !next.Ok? {
          return Fail(next);
        }
        saved, ops := next.value.saved, next.value.ops;
      }
    }
    assert line[|line|..] == [];
    if !IsBlank(saved) {
      var t := ReadToken(saved, num);
      if !t.Ok? {
        return Fail(t);
      }
      ops := ops + [t.value];
    }
    return Ok(ops);
  }

  /** `parse_line`. */
  method ParseLine<N>(d: Dialect, line: string, num: Float -> N) returns (r: Outcome<seq<Operator<N>>>)
    ensures r == ParseLineSpec(d, line, num)
  {
    var ops := LexLine(d, line, num);
    if !ops.Ok? {
      return Fail(ops);
    }
    var depth := ParenCheck(ops.value, 0);
    if !depth.Ok? {
      return Fail(depth);
    }
    r := ShuntingYard(d, ops.value);
  }
}
