# computer-v2 calculator core, modelled in Dafny

This project models the expression front end of the `computer-v2` calculator (a
Rust REPL that reads lines like `a = 2 * (x + 3)` or `[[1,2];[3,4]] ** m`):

- **Tokens.** The `Operator` token type: variables, numbers, the operators
  `+ - * ** % ^ / =`, parentheses and matrices.
- **Precedence.** `get_precedence` and `get_associativity` on tokens.
- **Lexer.** `Operator::from_str`, which reads one token, and `parse_mat`, which
  reads a matrix literal `[[a,b];[c,d]]`.
- **`parse_line`.** Cuts a line into fragments at the delimiter characters, reads
  each one with `from_str`, checks that parentheses never close below zero, and
  hands the tokens to `shunting_yard`.
- **`shunting_yard`.** Turns infix tokens into postfix order.
- **`BTree`.** Built from a postfix sequence (`from_vec`), rendered back
  (`to_string`), and listed level by level (`find_depth_value`).
- **`calculation::calc`.** Folds binary operations repeatedly until nothing
  changes; its one implemented operation is `Operator::calc` adding two monomials
  `number · x^x · i^i`.
- **`assignation`.** `from_postfix` rebuilds parenthesised infix from postfix
  order, and `to_printable_string` writes it out.

The repository holds two generations of this code, and both are modelled:

- **Compiled generation** (`src/main.rs`). Its numbers are plain `f64`.
- **Revised generation** (the modules `operator.rs`, `parsing.rs`, `btree.rs`,
  `calculation.rs` and `assignation.rs`). Its numbers are monomials.

Their `from_str`, `parse_mat` and precedence code are the same apart from the number
payload. They are modelled once: the token type `Operator<N>` is generic in the
payload, and `from_str` takes the embedding `num: Float -> N` of a parsed `f64`.
`parse_line` and `shunting_yard` differ between the two generations in the following
ways:

- the delimiter set;
- when a fragment is flushed;
- the `**` folding;
- the `?` flush;
- the error messages.

A `Dialect` parameter (`Compiled` or `Revised`) covers these differences.

Every Rust outcome is explicit. A result is an `Outcome`: `Ok(value)`, `Err(message)`
for a Rust `Err`, or `Panic(message)` for `unreachable!()` / `unimplemented!()`.
`Option` stands for Rust `Option`.

The imperative functions are modelled as Dafny methods with the source's loops:

- `parse_mat`;
- `parse_line`;
- `shunting_yard`;
- `calc`;
- `from_postfix`;
- `to_printable_string`;
- `BTree::from_vec` and the `BTree` mutators.

Each method is proved equal to a specification function. The properties are proved
as lemmas about those functions. `BTree` is a class with the fields `c1`, `c2` and
`node`, and a ghost `Value` that mirrors it as a `Tree` datatype.

Modules, one file each:

| module | file |
|---|---|
| `Outcomes` | `outcomes.dfy` |
| `Seqs` | `seqs.dfy` (sequence identities used by the proofs) |
| `Text` | `text.dfy` (`trim`, `split_inclusive`) |
| `Floats` | `floats.dfy` (`f64` values and `parse::<f64>`) |
| `Tokens` | `tokens.dfy` |
| `Lexer` | `lexer.dfy` |
| `Matrices` | `matrices.dfy` |
| `MatrixVectors` | `matrix_vectors.dfy` (accepted and refused `parse_mat` literals) |
| `Shunting` | `shunting.dfy` |
| `ShuntingVectors` | `shunting_vectors.dfy` (expected outputs of the source's tests) |
| `Parsing` | `parsing.dfy` |
| `Arithmetic` | `arithmetic.dfy` |
| `BTrees` | `btree.dfy` |
| `Calculation` | `calculation.dfy` |
| `Assignation` | `assignation.dfy` |

## Model

| member | source | states |
|---|---|---|
| Tokens.Precedence | src/operator.rs:19-27 | parentheses rank 1, `+ -` rank 2, `* /` rank 3, `^` rank 4; every other token is the `unreachable!()` panic, and only those panic; the compiled generation's ranking at src/main.rs:64-72 is the same |
| Tokens.RightAssociative | src/operator.rs:29-34 | a token is right-associative exactly when it is `^` |
| Text.TrimFacts | src/operator.rs:37 | `trim` gives the empty string exactly on blank input, otherwise a string that starts and ends with non-whitespace and uses only characters of the input |
| Text.TrimCharAt | src/operator.rs:37 | each character of the trimmed string is the input character at the same offset past the leading blanks |
| Text.SplitInclusiveConcat | src/operator.rs:71 | the pieces of `split_inclusive` put back together give the input |
| Text.SplitInclusivePieces | src/operator.rs:71 | every piece but the last ends with a delimiter and holds no other delimiter; no piece is empty |
| Text.SplitInclusiveAppend | src/operator.rs:71 | when `a` ends with a delimiter, the pieces of `a + b` are the pieces of `a` followed by the pieces of `b` |
| Text.TrimNothing | src/operator.rs:37 | `trim` leaves unchanged a text that starts and ends with non-whitespace |
| Floats.Add | src/operator.rs:156 | finite sums are exact, NaN absorbs, adding zero gives the other operand, an infinity plus a finite value is that infinity, and infinities of opposite signs give NaN |
| Floats.AddCommutes | src/operator.rs:156 | the sum does not depend on the order of its operands |
| Floats.Mul | src/operator.rs:146-156 | multiplying by `1.` gives the operand back, and multiplying by `-1.` negates it (for NaN, infinities and finite values alike), which is what the sign fold relies on |
| Floats.ParseF64 | src/operator.rs:52 | `parse::<f64>` accepts only non-empty text |
| Floats.ParseF64Alphabet | src/operator.rs:52 | every text `parse::<f64>` accepts is made of digits, sign, `.`, exponent letters and the letters of `inf`, `infinity`, `nan` |
| Lexer.Spelling | src/operator.rs:38-47 | a fixed spelling never names an operand |
| Lexer.SpellingIsNotFloat | src/operator.rs:38-53 | no operator spelling parses as a number, so the order of the arms does not matter |
| Lexer.SpellingIsNotMatrix | src/operator.rs:38-51 | no operator spelling parses as a matrix |
| Lexer.FromStrOperator | src/operator.rs:36-47 | `from_str` gives an operator token exactly when the trimmed text is one of the fixed spellings, and then that token |
| Lexer.FromStrMatrix | src/operator.rs:48-51 | `from_str` gives a matrix exactly when `parse_mat` accepts the trimmed text, and then that matrix |
| Lexer.FromStrNumber | src/operator.rs:52-53 | `from_str` gives a number exactly when `parse::<f64>` accepts the trimmed text, and then its value |
| Lexer.FromStrVariable | src/operator.rs:54-58 | `from_str` gives a variable exactly when the trimmed text is a valid name that is neither a spelling nor a float word, and the variable is named by that text |
| Lexer.FromStrError | src/operator.rs:54-57 | `from_str` never panics, and its only error is `"<text> is invalid name for a variable"` for a text that is not a valid name |
| Lexer.NameParse | src/operator.rs:52-58 | a valid variable name parses as a number only when it is `inf`, `infinity` or `nan` in some letter case |
| Lexer.ReadToken | src/main.rs:81-109 | `from_str`, with its `parse_mat` arm run as the `ParseMat` loop, returns `FromStr` of its text |
| Lexer.Step | src/operator.rs:72-127 | one piece of `parse_mat`: after it the depth is in 0..2 and the counters never decrease; `;` needs depth 1 and counts one row; a cell is added only at depth 2 with `mat_id == comma_id`, and only a cell the piece spells |
| Lexer.Place | src/operator.rs:89-118 | a cell is placed only at depth 2 with `mat_id == comma_id`, into row `mat_id` |
| Lexer.PlaceLegal | src/operator.rs:109-118 | a cell ended by `]` closes the row; a cell ended by `,` or by nothing stays at depth 2 |
| Lexer.PushCellInRow | src/operator.rs:92-118 | the imperative placement succeeds exactly when `Place` does, with the same new state |
| Lexer.ReadCell | src/operator.rs:87-108 | a cell is legal exactly when its text reads as a token and the position is inside a row |
| Lexer.ParsePiece | src/operator.rs:72-127 | the loop body of `parse_mat` computes `Step`, failing exactly when `Step` fails |
| Lexer.ParseMat | src/operator.rs:66-136 | the `parse_mat` method returns `MatrixOf` of its text; the compiled `parse_mat` at src/main.rs:111-181 is the same method |
| Lexer.MatrixOf | src/operator.rs:66-136 | what `parse_mat` accepts is always a matrix token |
| Lexer.Finish | src/operator.rs:129-135 | after the loop a matrix is returned exactly when the brackets are closed and there is at least one row, all rows of one length; it is the matrix built |
| Lexer.RaggedFoldMeaning | src/operator.rs:132 | the `(bool, i32)` fold flags a matrix exactly when two rows differ in length |
| Lexer.ScanKeepsRowsNonEmpty | src/operator.rs:92-105 | rows are only ever created holding a cell |
| Lexer.MatrixIsRectangular | src/operator.rs:129-135 | an accepted matrix has at least one row, no empty row, and all rows the same length |
| Lexer.MatrixNeedsBrackets | src/operator.rs:66-136 | a text without `[` is never a matrix |
| Matrices.ScanAppend | src/operator.rs:72-127 | the piece loop over two lists of pieces is the loop over the first, then over the second from where it stopped |
| Matrices.ScanMatrixText | src/operator.rs:72-127 | the loop over a literal written from readable cell texts ends at depth 0 having collected exactly the values of those cells, row by row |
| Matrices.MatrixOfText | src/operator.rs:66-136 | every literal `[[c,…];[c,…]…]` written from readable cell texts is read back as the matrix of their values exactly when its rows are equally wide, and is refused otherwise |
| MatrixVectors.TwoRowsChecked | src/operator.rs:66-136 | two bracketed rows of cells that read as tokens give a matrix exactly when the rows have the same length, and then the matrix of those tokens |
| MatrixVectors.ColumnMatrix | src/operator.rs:66-136 | a column of one-digit rows `[[d];[d];…]` gives the matrix of those digits |
| MatrixVectors.GoodMatrix | src/operator.rs:194-204 | `[[1 ,2  ,3   ];[ 1, 2,3 ]]` is the 2×3 matrix of 1, 2, 3 twice, whatever the number embedding (also src/main.rs:278-290) |
| MatrixVectors.GoodColumn | src/operator.rs:223-229 | `[[1];[2];[3];[4];[5]]` is the 5×1 matrix of 1 to 5 |
| MatrixVectors.BadSize | src/operator.rs:234 | `[[1,2,3];[1,2]]` is refused: its rows differ in length |
| MatrixVectors.DoubleSemicolon | src/operator.rs:244 | `[;[1,2,3][1,2, 3]]` is refused: `;` outside a closed row |
| MatrixVectors.NoSemicolon | src/operator.rs:252 | `[[1,2,3][1,2, 3]]` is refused: a row opened without `;` |
| MatrixVectors.BadDepth | src/operator.rs:259 | `[1,2,3]` is refused: cells at depth one |
| MatrixVectors.OperatorInside | src/operator.rs:264 | `[[1,2,3];[2,3 + 2, 4];[1,2, 3]]` is refused: the cell `3 + 2` is not one token |
| MatrixVectors.BadSeparator | src/operator.rs:273 | `[[1,2,3],[2,3, 4],[1,2, 3]]` is refused: rows separated by `,` |
| MatrixVectors.EmptyText | src/operator.rs:283 | the empty text is refused |
| MatrixVectors.EmptyRow | src/operator.rs:285 | `[[]]` is refused: a row with no cell |
| MatrixVectors.Refused | src/operator.rs:72-127 | a text the piece loop stops on is never a matrix |
| Shunting.FlushAllOk | src/parsing.rs:108-113 | emptying the stack succeeds exactly when no `(` is on it, and fails with the unclosed-parenthesis message |
| Shunting.CloseGroupOk | src/parsing.rs:82-93 | `)` succeeds exactly when a `(` is on the stack, removes one `(`, and otherwise fails with the dialect's message |
| Shunting.PopOperatorsOk | src/parsing.rs:94-104 | pushing an infix operator never errs, succeeds when neither it nor the stack holds `%` or `**`, and keeps the parenthesis count |
| Shunting.StepOk | src/parsing.rs:55-105 | each token moves the open-parenthesis count by its own delta, `=` (and the revised `?`) need depth zero, and without `%` or `**` a step succeeds exactly then |
| Shunting.RunOk | src/parsing.rs:55-106 | the main loop succeeds only on input that never closes below depth zero and reaches `=` only at depth zero; on input without `%` or `**` it succeeds exactly then |
| Shunting.PostfixWellNested | src/parsing.rs:51-116 | `shunting_yard` succeeds only on well-nested input |
| Shunting.PostfixSucceeds | src/parsing.rs:51-116 | on input without `%` or `**`, `shunting_yard` never panics and succeeds exactly on well-nested input |
| Shunting.RunTokens | src/parsing.rs:55-106 | the output and the stack together hold every non-parenthesis token read so far |
| Shunting.RunOrder | src/parsing.rs:55-106 | operands reach the output in input order and no parenthesis reaches it |
| Shunting.PostfixKeeps | src/parsing.rs:51-116 | the result is a permutation of the input's non-parenthesis tokens, without parentheses, with operands in their original order |
| Shunting.PopAll | src/parsing.rs:108-113 | the final flush loop computes `FlushAll` |
| Shunting.PopGroup | src/parsing.rs:82-93 | the `)` loop computes `CloseGroup` |
| Shunting.PopTighter | src/parsing.rs:94-104 | the infix loop computes `PopOperators` |
| Shunting.Handle | src/parsing.rs:56-105 | the match on one token computes `Step` |
| Shunting.ShuntingYard | src/parsing.rs:51-116 | the revised `shunting_yard` returns `Postfix` of its input; run with the compiled dialect it is the `shunting_yard` of src/main.rs:221-272, numbered messages included |
| Shunting.ProductBindsTighter | src/parsing.rs:207-220 | `a + b * c` becomes `a b c * +` for any numbers |
| Shunting.GroupBindsTightest | src/parsing.rs:222-237 | `(a + b) * c` becomes `a b + c *` |
| Shunting.PowerIsRightAssociative | src/parsing.rs:96 | `a ^ b ^ c` becomes `a b c ^ ^` |
| Shunting.UnopenedGroupFails | src/parsing.rs:148-153 | `)a + b` fails with the unopened-parenthesis message |
| Shunting.EqualInsideGroupFails | src/parsing.rs:155-164 | `(a + b = c - e` fails with the unclosed-parenthesis message |
| Shunting.ModuloOnStackPanics | src/operator.rs:25 | `a % b + c` reaches the `unreachable!()` of `get_precedence` |
| Shunting.FlushAllReverses | src/parsing.rs:108-113 | with no parenthesis on the stack, emptying it appends the stack to the output top first |
| Shunting.StepAtFlushPoint | src/parsing.rs:59-80 | `=` (and the revised `?`) succeed exactly when no `(` is open; they then move the whole stack to the output, top first, follow it and leave the stack empty, and otherwise fail with the unclosed-parenthesis message |
| ShuntingVectors.Group | src/parsing.rs:82-104 | a parenthesised `x op z` appends `x z op` to the output and leaves the stack as it found it |
| ShuntingVectors.NestedGroupsPostfix | src/parsing.rs:240-272 | `a * ((b + c) * d / (e - f))` becomes `a b c + d * e f - / *` for any operands, in both generations (also src/main.rs:500-532) |
| ShuntingVectors.NestedPowerPostfix | src/parsing.rs:274-310 | `6 * ((1 + 2) * 3 ^ 7 / (4 - 5))` becomes `6 1 2 + 3 7 ^ * 4 5 - / *`, for any operands in those places (also src/main.rs:534-570) |
| ShuntingVectors.EqualFlushesPostfix | src/parsing.rs:312-362 | the same line followed by `= 8 - 9 * 10` gives the left side's postfix form, then `=`, then `8 9 10 * -` (also src/main.rs:572-620) |
| ShuntingVectors.QuestionMarkPostfix | src/parsing.rs:59-69 | `a + b ?` becomes `a b + ?` in the revised generation, which flushes the stack at `?`, and `a b ? +` in the compiled one |
| Parsing.ParenCheckMeaning | src/parsing.rs:33-45 | the fold succeeds exactly when no prefix closes more than it opened, returns the final depth, and otherwise fails with `missmatched parenthesis` |
| Parsing.NestOkChecks | src/parsing.rs:33-47 | input the shunting yard accepts always passes the parenthesis fold |
| Parsing.ParseLineAgrees | src/parsing.rs:33-47 | once the line is read, `parse_line` succeeds exactly when `shunting_yard` does, with its result |
| Parsing.ParseLineSucceeds | src/parsing.rs:4-48 | a read error is an `Err`; on tokens without `%` or `**`, `parse_line` never panics and succeeds exactly when they are well nested |
| Parsing.TokenizeNoPanic | src/parsing.rs:7-32 | reading the tokens of a line never panics |
| Parsing.TokenizeBalance | src/parsing.rs:7-32 | the tokens hold as many `(` and `)` as the line holds those characters |
| Parsing.DoubleStar | src/parsing.rs:11-20 | `a**b` reads as `a`, `**`, `b` in the revised generation and as `a`, `*`, `*`, `b` in the compiled one |
| Parsing.Delimiter | src/parsing.rs:10-27 | the delimiter arm of the loop computes `Delimit` |
| Parsing.LexLine | src/parsing.rs:5-32 | the character loop and the last flush compute `Tokenize`; with the compiled dialect they model the loop of src/main.rs:184-201, which flushes every non-empty fragment |
| Parsing.ParseLine | src/parsing.rs:4-48 | the revised `parse_line` returns `ParseLineSpec`; with the compiled dialect it is the `parse_line` of src/main.rs:184-218 |
| Arithmetic.Rem | src/operator.rs:145 | Rust's `%` keeps the sign of the dividend, stays below the divisor in size, and differs from the dividend by a multiple of the divisor |
| Arithmetic.Parity | src/operator.rs:145 | `i % 2` lies in -1..1, has the sign of `i`, and has the parity of `i` |
| Arithmetic.Calc | src/operator.rs:138-184 | only `Add` on two numbers avoids `unimplemented!()`, and a sum is a number whose `i` lies in -1..1 |
| Arithmetic.CalcNone | src/operator.rs:145-173 | the sum is refused exactly when the terms are unlike (different `x` or parity of `i`) and both are non-zero |
| Arithmetic.TurnFold | src/operator.rs:146-156 | `v · i^n` equals `(±v) · i^(n % 2)`, with `+` when `n % 4 < 2` |
| Arithmetic.FoldKeepsValue | src/operator.rs:157-170 | folding a term's power of `i` keeps its complex value |
| Arithmetic.AddMonomialsSound | src/operator.rs:145-173 | whenever a sum is produced, its value at every power of `x` is the sum of the terms' values |
| Arithmetic.CalcSound | src/operator.rs:138-184 | `Add` on two finite numbers never panics, and any sum it gives is the true complex sum with `i` in 0..1 |
| Arithmetic.CalcAddsLikeTerms | src/operator.rs:298-305 | `3 + -2` is `1` |
| Arithmetic.CalcKeepsUnlikeTerms | src/operator.rs:313 | `3x^99 + -4x^98` is refused |
| Arithmetic.CalcFoldsPowersOfI | src/operator.rs:324 | `3 + 4i^98` is `-1` |
| Arithmetic.CalcDropsZeroTerm | src/operator.rs:327 | `0 + 4i^3` is `-4i` |
| Arithmetic.CalcNegativeEvenPower | src/operator.rs:145-156 | as written, `0 + 4i^-2` gives `4`, whereas `4i^-2` equals `4i^2`, whose value is `-4` |
| Arithmetic.CalcMultiplicationUnimplemented | src/operator.rs:181 | `*` on numbers is `unimplemented!()` |
| BTrees.Build | src/btree.rs:112-124 | `from_vec` consumes a non-empty suffix of its input and fails only with the empty-formula or unexpected-operator error |
| BTrees.BuildEmpty | src/btree.rs:123 | an empty formula is an error |
| BTrees.BuildLast | src/btree.rs:113-116 | a trailing operand is a leaf; a trailing parenthesis or `=` is an error |
| BTrees.BuildOperator | src/btree.rs:117-121 | a trailing operator takes its right child from the tokens before it, then its left child from what remains |
| BTrees.BuildConsumes | src/btree.rs:112-124 | a built tree is well-shaped and the input is the leftover prefix followed by the tree's postfix order |
| BTrees.BuildPostorder | src/btree.rs:112-124 | building from any prefix followed by a tree's postfix order gives that tree back, leaving the prefix |
| BTrees.SpacedPostorder | src/btree.rs:101-110 | the rendering of a node is its children's renderings followed by a space and the node |
| BTrees.Level | src/btree.rs:27-42 | level `depth` always has `2^depth` slots |
| BTrees.LevelReach | src/btree.rs:27-42 | slot `k` of level `depth` is the node reached by the binary digits of `k` (left for 0, right for 1), or `None` |
| BTrees.BTree.constructor | src/btree.rs:19-25 | a new tree is a leaf holding the node |
| BTrees.BTree.InsertA | src/btree.rs:93-95 | the left child is replaced and nothing else changes |
| BTrees.BTree.InsertB | src/btree.rs:97-99 | the right child is replaced and nothing else changes |
| BTrees.BTree.FromVec | src/btree.rs:112-124 | the recursive method builds a fresh tree equal to `Build`, leaving the same rest and failing with the same error |
| BTrees.BTree.ToString | src/btree.rs:101-110 | the rendering is every node in postfix order, each preceded by a space |
| BTrees.BTree.FindDepthValue | src/btree.rs:27-42 | the result is the tree's level `depth`, `2^depth` slots long |
| Calculation.Push | src/calculation.rs:8-32 | a variable panics; an operand is pushed; a parenthesis or `=` is `unexpected token`; a binary operator on fewer than two values is `wrong input`; without a fold the stack only grows by the token |
| Calculation.Pass | src/calculation.rs:7-33 | a pass that folds leaves at least two tokens fewer than it read; a pass that does not fold copies its input unchanged; errors and panics are only the ones `Push` names |
| Calculation.Reduce | src/calculation.rs:3-41 | the result is never longer than the input, and a further pass over it changes nothing |
| Calculation.ReduceIdempotent | src/calculation.rs:37-40 | reducing a reduced sequence gives it back |
| Calculation.OperandsAreReduced | src/calculation.rs:10 | operands alone are returned unchanged |
| Calculation.LikeTermsFold | src/calculation.rs:16-18 | `a b +` on like terms becomes their single sum |
| Calculation.UnlikeTermsStay | src/calculation.rs:19-23 | `a b +` on unlike non-zero terms is returned unchanged |
| Calculation.ThirdTermPanics | src/calculation.rs:19-23 | after an unlike sum, `+ c` pops the `+` back as an operand and panics |
| Calculation.LoneOperatorFails | src/calculation.rs:25 | a binary operator after one operand is `wrong input` |
| Calculation.PopAndCalc | src/calculation.rs:12-29 | the binary arm computes `Push` |
| Calculation.Calculate | src/calculation.rs:3-41 | `calc` returns `Reduce` of its input |
| Assignation.Infixed | src/assignation.rs:31-38 | the result is all groups appended, without their first and last token when there are more than two |
| Assignation.GroupsWellFormed | src/assignation.rs:15-30 | on parenthesis-free input every group on the stack is an operand or a balanced `( … )` |
| Assignation.InfixedBalanced | src/assignation.rs:13-39 | when one group remains, the result is balanced |
| Assignation.StackPostorder | src/assignation.rs:15-30 | the postfix order of a tree pushes exactly its fully parenthesised infix form |
| Assignation.InfixedPostorder | src/assignation.rs:13-39 | on a tree's postfix order, `from_postfix` gives its infix form without the outer parentheses |
| Assignation.BinaryInfixed | src/assignation.rs:13-39 | `a b op` becomes `a op b` |
| Assignation.PopMerge | src/assignation.rs:18-28 | the operator arm computes `Shift`, losing what it popped when fewer than two groups are there |
| Assignation.AppendAll | src/assignation.rs:31-34 | the fold appends the groups bottom to top |
| Assignation.FromPostfix | src/assignation.rs:13-39 | the method returns `Infixed` of its input |
| Assignation.ToPrintableString | src/assignation.rs:4-11 | each token of `from_postfix`, rendered and followed by one space |

## Left out

- The REPL in `main` (line editing, history, the highlighter, the hinter, commands and global state) is not part of this model.
- `BTree::print` and the `Display` implementations are not modelled. Rendering a token is a parameter `show` of `ToString` and `ToPrintableString`.
- Floating point: `f64` is modelled as exact reals plus infinities and NaN, with no rounding, no overflow to infinity and no signed zero. `parse::<f64>` follows Rust's documented grammar, and its value is exact.
- The `println!` in `parse_mat` (src/operator.rs:119-121) prints nothing visible to callers and is not modelled; its branch is unreachable anyway, because it parses a blank string.
- `i32` and `usize` widths: the parenthesis fold, the matrix counters and the ragged-width fold are unbounded integers. `x` and `i` of a monomial are unbounded, so `i % 2` and `i % 4` follow Rust's sign rule without overflow. `2_usize.pow(depth - 1)` in `find_depth_value` is an unbounded power of two, with no overflow panic for very deep levels.
- Arithmetic.CalcSound: stated only for finite coefficients and non-negative powers of `i`. For a negative even power the source's fold is wrong, not just unproved: Rust's `-2 % 4` is `-2`, below 2, so `4·i^-2` keeps the sign `+` and `0 + 4i^-2` gives `4` instead of `-4` (`Arithmetic.CalcNegativeEvenPower`). The model keeps the source's behaviour. No token the lexer produces has a non-zero `i`, so only a hand-built monomial meets this case.
- Calculation.Reduce: states that the result is a fixed point of one pass and no longer than the input, not that it has the same value as the input; that would need a value semantics for postfix sequences with unimplemented operators.
- BTrees.BTree.FromVec: Rust consumes the caller's `Vec` in place; the model returns the unconsumed prefix as `rest` instead.
- The `&mut Vec` taken by `shunting_yard` is reversed and drained in place; the model reads it as a sequence and does not model the caller's emptied vector.
- Not every unit test is restated. Shunting-yard tests are stated for arbitrary operands where the outcome does not depend on them (the `(1 + 2)` case of src/parsing.rs:194-205 and the mismatched-parenthesis cases of src/parsing.rs:124-190 other than `)2 + 2` and `(2 + 2 = 2 - 2` are not restated; `PostfixSucceeds` covers their success or failure). `calc` tests are stated for a sample of the listed constants. For `parse_mat`, two accepted literals and one rejected literal per test group are restated; the other literals of each group are not.
- The error message of `from_vec` for an unexpected operator is kept as the literal template the source writes, with `{last_op}` not interpolated.
