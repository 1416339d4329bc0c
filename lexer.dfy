/** `Operator::from_str` and `Operator::parse_mat`, identical in both generations but for
    what a parsed `f64` becomes: `num` is `AsMonomial` in the revised generation and the
    identity in the compiled one. The two are mutually recursive (a matrix cell is
    classified by `from_str`), and every cell is strictly shorter than the literal it
    comes from. */
module Lexer {
  import opened Outcomes
  import opened Text
  import opened Floats
  import opened Tokens

  /** The ten spellings `from_str` recognises before anything else. */
  function Spelling<N>(t: string): (r: Option<Operator<N>>)
    ensures r.Some? ==> !IsOperand(r.value)
  {
    if t == "+" then Some(Add)
    else if t == "-" then Some(Minus)
    else if t == "*" then Some(Mult)
    else if t == "**" then Some(MatricialMult)
    else if t == "%" then Some(Modulo)
    else if t == "^" then Some(Power)
    else if t == "(" then Some(OpenParenthesis)
    else if t == ")" then Some(CloseParenthesis)
    else if t == "/" then Some(Div)
    else if t == "=" then Some(Equal)
    else None
  }

  /** A character `from_str` refuses in a variable name: one of `+-*%^,; .[]/`, or one
      that parses as an `i32` on its own, which is an ASCII digit. */
  predicate Forbidden(c: char) {
    c in "+-*%^,; .[]/" || IsDigit(c)
  }

  predicate IsName(t: string) {
    forall k | 0 <= k < |t| :: !Forbidden(t[k])
  }

  function InvalidName(t: string): string {
    t + " is invalid name for a variable"
  }

  /** The characters `parse_mat` splits on, each kept at the end of its piece. */
  const MatrixDelimiters := ";[],"

  /** The local variables of `parse_mat`: the bracket depth, the number of closed
      brackets (`mat_id`), the number of semicolons (`comma_id`) and the rows so far. */
  datatype MatState<N> = MatState(depth: int, matId: nat, commaId: nat, mat: seq<seq<Operator<N>>>)

  function Start<N>(): MatState<N> {
    MatState(0, 0, 0, [])
  }

  /** `from_str`: an operator spelling, else a matrix literal, else a float, else a
      variable name, else an error; always on the trimmed text. */
  function FromStr<N>(value: string, num: Float -> N): (r: Outcome<Operator<N>>)
    decreases |value|, 3, 0
  {
    var t := Trim(value);
    match Spelling<N>(t)
    case Some(op) => Ok(op)
    case None =>
      match MatrixOf(t, num)
      case Some(m) => Ok(m)
      case None =>
        match ParseF64(t)
        case Some(f) => Ok(Number(num(f)))
        case None => if IsName(t) then Ok(Var(t)) else Err(InvalidName(t))
  }

  /** `parse_mat`: scan the pieces, then demand depth 0 and a non-empty, non-ragged
      list of rows. */
  function MatrixOf<N>(value: string, num: Float -> N): (r: Option<Operator<N>>)
    ensures r.Some? ==> r.value.Mat?
    decreases |value|, 2, 0
  {
    var pieces := SplitInclusive(value, MatrixDelimiters);
    SplitInclusiveConcat(value, MatrixDelimiters);
    match Scan(pieces, Start(), num)
    case None => None
    case Some(st) => Finish(st)
  }

  /** The checks after the loop: a literal is accepted exactly when its brackets are
      balanced and it holds at least one row, all rows of one length. */
  function Finish<N>(st: MatState<N>): (r: Option<Operator<N>>)
    ensures r.Some? <==> st.depth == 0 && st.mat != [] && !Ragged(st.mat)
    ensures r.Some? ==> r.value == Mat(st.mat)
  {
    if st.depth != 0 then None
    else if st.mat == [] || Ragged(st.mat) then None
    else Some(Mat(st.mat))
  }

  /** The `for` loop of `parse_mat`, piece by piece; `None` is an early `return None`. */
  function Scan<N>(pieces: seq<string>, st: MatState<N>, num: Float -> N): (r: Option<MatState<N>>)
    decreases |Concat(pieces)|, 1, |pieces|
  {
    if pieces == [] then Some(st)
    else
      assert |Concat(pieces)| == |pieces[0]| + |Concat(pieces[1..])|;
      var next := Step(pieces[0], st, num);
      if next.None? then None else Scan(pieces[1..], next.value, num)
  }

  /** The check that ends every iteration: depth must stay within 0..2. */
  function Bounded<N>(st: MatState<N>): (r: Option<MatState<N>>)
    ensures r.Some? <==> 0 <= st.depth <= 2
    ensures r.Some? ==> r.value == st
  {
    if st.depth < 0 || st.depth > 2 then None else Some(st)
  }

  /** `mat.get_mut(mat_id)`: push onto row `mat_id` if it exists, else start a new row
      at the end. */
  function PushCell<N>(mat: seq<seq<Operator<N>>>, id: nat, cell: Operator<N>): (r: seq<seq<Operator<N>>>)
  {
    if id < |mat| then mat[id := mat[id] + [cell]] else mat + [[cell]]
  }

  /** One iteration of the loop. A piece that trims to `[`, `]` or `;` moves the
      counters; any other piece loses its last character, and what is left, unless
      blank, is a cell (a float, or whatever `from_str` makes of it). */
  function Step<N>(piece: string, st: MatState<N>, num: Float -> N): (r: Option<MatState<N>>)
    ensures r.Some? ==> 0 <= r.value.depth <= 2
    ensures r.Some? ==> st.matId <= r.value.matId && st.commaId <= r.value.commaId
    ensures r.Some? && Trim(piece) == ";" ==> st.depth == 1 && r.value.commaId == st.commaId + 1
    ensures r.Some? && r.value.mat != st.mat ==>
      st.depth == 2 && st.matId == st.commaId && piece != [] && Cell(piece[..|piece| - 1], num).Ok? &&
      r.value.mat == PushCell(st.mat, st.matId, Cell(piece[..|piece| - 1], num).value)
    decreases |piece|, 0, 0
  {
    var t := Trim(piece);
    if t == ['['] then Bounded(st.(depth := st.depth + 1))
    else if t == [']'] then Bounded(st.(matId := st.matId + 1, depth := st.depth - 1))
    else if t == [';'] then
      if st.depth != 1 then None else Bounded(st.(commaId := st.commaId + 1))
    else if piece == [] then Bounded(st)
    else
      var text := piece[..|piece| - 1];
      var last := piece[|piece| - 1];
      if IsBlank(text) then Bounded(st)
      else
        var cell := Cell(text, num);
        if cell.Ok? then Place(st, cell.value, last) else None
  }

  /** A cell is legal only at depth 2 and only while as many brackets have closed as
      semicolons have been seen; it is pushed, and the character that ended its piece
      then either closes the row (`]`), is an error (`;` or `[`), or is a comma. */
  function Place<N>(st: MatState<N>, cell: Operator<N>, last: char): (r: Option<MatState<N>>)
    ensures r.Some? ==> st.depth == 2 && st.matId == st.commaId && 0 <= r.value.depth <= 2
    ensures r.Some? ==> st.matId <= r.value.matId && r.value.commaId == st.commaId
    ensures r.Some? ==> r.value.mat == PushCell(st.mat, st.matId, cell)
  {
    if st.depth != 2 || st.matId != st.commaId then None
    else
      var pushed := st.(mat := PushCell(st.mat, st.matId, cell));
      if last == ']' then Bounded(pushed.(matId := pushed.matId + 1, depth := pushed.depth - 1))
      else if last == ';' || last == '[' then None
      else Bounded(pushed)
  }

  /** What a cell's text becomes: a float if it parses as one, else whatever `from_str`
      makes of it. */
  function Cell<N>(text: string, num: Float -> N): (r: Outcome<Operator<N>>)
    decreases |text|, 3, 1
  {
    var parsed := ParseF64(Trim(text));
    if parsed.Some? then Ok(Number(num(parsed.value))) else FromStr(text, num)
  }

  /** The `fold` over row lengths that starts from `(false, -1)`. */
  function RaggedFold<N>(rows: seq<seq<Operator<N>>>, acc: (bool, int)): (bool, int) {
    if rows == [] then acc
    else RaggedFold(rows[1..], (acc.0 || (|rows[0]| != acc.1 && acc.1 != -1), |rows[0]|))
  }

  predicate Ragged<N>(rows: seq<seq<Operator<N>>>) {
    RaggedFold(rows, (false, -1)).0
  }

  lemma ScanFirst<N>(pieces: seq<string>, st: MatState<N>, num: Float -> N)
    requires pieces != []
    ensures Step(pieces[0], st, num).None? ==> Scan(pieces, st, num).None?
    ensures Step(pieces[0], st, num).Some? ==>
      Scan(pieces, st, num) == Scan(pieces[1..], Step(pieces[0], st, num).value, num)
  {
  }

  lemma PlaceLegal<N>(st: MatState<N>, cell: Operator<N>, last: char)
    requires st.depth == 2 && st.matId == st.commaId
    ensures last == ']' ==>
      Place(st, cell, last) == Some(MatState(1, st.matId + 1, st.commaId, PushCell(st.mat, st.matId, cell)))
    ensures last != ']' && last != ';' && last != '[' ==>
      Place(st, cell, last) == Some(MatState(2, st.matId, st.commaId, PushCell(st.mat, st.matId, cell)))
  {
  }

  /** The end of the loop body once a cell is legal: push it onto row `mat_id` (or a
      new row), then act on the character that ended its piece. */
  method PushCellInRow<N>(st: MatState<N>, cell: Operator<N>, last: char)
    returns (ok: bool, depth': int, matId': nat, mat': seq<seq<Operator<N>>>)
    requires st.depth == 2 && st.matId == st.commaId
    ensures ok <==> Place(st, cell, last).Some?
    ensures ok ==> Place(st, cell, last) == Some(MatState(depth', matId', st.commaId, mat'))
  {
    depth', matId', mat' := st.depth, st.matId, st.mat;
    if matId' < |mat'| {
      mat' := mat'[matId' := mat'[matId'] + [cell]];
    } else {
      mat' := mat' + [[cell]];
    }
    PlaceLegal(st, cell, last);
    ok := true;
    if last == ']' {
      matId' := matId' + 1;
      depth' := depth' - 1;
    } else if last == ';' || last == '[' {
      ok := false;
    }
  }

  /** The text of a cell, read as a float or else by `from_str`; `legal` is false when
      that fails or when a cell is not allowed where the counters stand. */
  method ReadCell<N>(text: string, st: MatState<N>, num: Float -> N) returns (legal: bool, cell: Operator<N>)
    ensures legal <==> Cell(text, num).Ok? && st.depth == 2 && st.matId == st.commaId
    ensures legal ==> Cell(text, num) == Ok(cell)
  {
    var parsed := ParseF64(Trim(text));
    if parsed.Some? {
      cell := Number(num(parsed.value));
      legal := st.depth == 2 && st.matId == st.commaId;
      return;
    }
    var ope := FromStr(text, num);
    if !ope.Ok? {
      return false, Add;
    }
    cell := ope.value;
    legal := st.depth == 2 && st.matId == st.commaId;
  }

  /** A piece that is not a bracket or a semicolon and does not end a blank text is a
      cell. */
  lemma StepOfCell<N>(c: string, st: MatState<N>, num: Float -> N)
    requires Trim(c) != "[" && Trim(c) != "]" && Trim(c) != ";" && c != []
    requires !IsBlank(c[..|c| - 1])
    ensures Step(c, st, num) ==
      (var cell := Cell(c[..|c| - 1], num); if cell.Ok? then Place(st, cell.value, c[|c| - 1]) else None)
  {
  }

  /** A piece that is a bracket, a semicolon, or ends a blank text moves only the
      counters. */
  lemma StepOfMarker<N>(c: string, st: MatState<N>, num: Float -> N)
    ensures Trim(c) == "[" ==> Step(c, st, num) == Bounded(st.(depth := st.depth + 1))
    ensures Trim(c) == "]" ==> Step(c, st, num) == Bounded(st.(matId := st.matId + 1, depth := st.depth - 1))
    ensures Trim(c) == ";" ==>
      Step(c, st, num) == if st.depth != 1 then None else Bounded(st.(commaId := st.commaId + 1))
    ensures Trim(c) != "[" && Trim(c) != "]" && Trim(c) != ";" && (c == [] || IsBlank(c[..|c| - 1])) ==>
      Step(c, st, num) == Bounded(st)
  {
  }

  /** One pass of the loop body of `parse_mat` over the piece `c`, on its counters and
      rows; `ok` is false where the source returns `None`. */
  method ParsePiece<N>(c: string, depth: int, matId: nat, commaId: nat, mat: seq<seq<Operator<N>>>, num: Float -> N)
    returns (ok: bool, depth': int, matId': nat, commaId': nat, mat': seq<seq<Operator<N>>>)
    ensures ok ==> Step(c, MatState(depth, matId, commaId, mat), num) == Some(MatState(depth', matId', commaId', mat'))
    ensures !ok ==> Step(c, MatState(depth, matId, commaId, mat), num) == None
  {
    var st := MatState(depth, matId, commaId, mat);
    StepOfMarker(c, st, num);
    depth', matId', commaId', mat' := depth, matId, commaId, mat;
    ok := false;
    var t := Trim(c);
    if t == "[" {
      depth' := depth' + 1;
    } else if t == "]" {
      matId' := matId' + 1;
      depth' := depth' - 1;
    } else if t == ";" {
      if depth' != 1 {
        return;
      }
      commaId' := commaId' + 1;
    } else if c != [] {
      var text := c[..|c| - 1];
      var last := c[|c| - 1];
      if !IsBlank(text) {
        var legal, cell := ReadCell(text, st, num);
        if !legal {
          StepOfCell(c, st, num);
          return;
        }
        StepOfCell(c, st, num);
        ok, depth', matId', mat' := PushCellInRow(st, cell, last);
        if !ok {
          return;
        }
      }
    }
    if depth' < 0 || depth' > 2 {
      return;
    }
    ok := true;
  }

  /** The loop of `parse_mat` as written, over the same pieces and counters. */
  method ParseMat<N>(value: string, num: Float -> N) returns (r: Option<Operator<N>>)
    ensures r == MatrixOf(value, num)
  {
    var pieces := SplitInclusive(value, MatrixDelimiters);
    var mat: seq<seq<Operator<N>>> := [];
    var depth := 0;
    var matId := 0;
    var commaId := 0;
    var i := 0;
    assert pieces[i..] == pieces;
    while i < |pieces|
      invariant 0 <= i <= |pieces|
      invariant Scan(pieces, Start(), num) == Scan(pieces[i..], MatState(depth, matId, commaId, mat), num)
    {
      ScanFirst(pieces[i..], MatState(depth, matId, commaId, mat), num);
      assert pieces[i..][0] == pieces[i] && pieces[i..][1..] == pieces[i + 1..];
      var ok;
      ok, depth, matId, commaId, mat := ParsePiece(pieces[i], depth, matId, commaId, mat, num);
      if !ok {
        return None;
      }
      i := i + 1;
    }
    if depth != 0 {
      return None;
    }
    if mat == [] || Ragged(mat) {
      return None;
    }
    return Some(Mat(mat));
  }

  /** Every row has the width of the first. */
  predicate SameWidth<N>(rows: seq<seq<Operator<N>>>) {
    forall k | 0 < k < |rows| :: |rows[k]| == |rows[0]|
  }

  lemma {:induction false} RaggedFoldMeaning<N>(rows: seq<seq<Operator<N>>>, seen: bool, width: int)
    ensures RaggedFold(rows, (seen, width)).0 <==>
      seen || (rows != [] && ((width != -1 && |rows[0]| != width) || !SameWidth(rows)))
    decreases |rows|
  {
    if rows != [] {
      var next := (seen || (|rows[0]| != width && width != -1), |rows[0]|);
      RaggedFoldMeaning(rows[1..], next.0, next.1);
      if SameWidth(rows) {
        assert SameWidth(rows[1..]) by {
          forall k | 0 < k < |rows[1..]|
            ensures |rows[1..][k]| == |rows[1..][0]|
          {
            assert rows[1..][k] == rows[k + 1] && rows[1..][0] == rows[1];
          }
        }
      } else {
        var k :| 0 < k < |rows| && |rows[k]| != |rows[0]|;
        if k > 1 && |rows[1]| == |rows[0]| {
          assert rows[1..][k - 1] == rows[k];
        }
      }
    }
  }

  /** The fold in `parse_mat` flags exactly the row lists in which some row is not as
      wide as the first. */
  lemma RaggedMeansUnequalWidths<N>(rows: seq<seq<Operator<N>>>)
    ensures Ragged(rows) <==> !SameWidth(rows)
  {
    RaggedFoldMeaning(rows, false, -1);
  }

  predicate RowsNonEmpty<N>(mat: seq<seq<Operator<N>>>) {
    forall k | 0 <= k < |mat| :: mat[k] != []
  }

  lemma PushCellKeepsRowsNonEmpty<N>(mat: seq<seq<Operator<N>>>, id: nat, cell: Operator<N>)
    requires RowsNonEmpty(mat)
    ensures RowsNonEmpty(PushCell(mat, id, cell))
  {
  }

  lemma StepKeepsRowsNonEmpty<N>(piece: string, st: MatState<N>, num: Float -> N)
    requires RowsNonEmpty(st.mat)
    requires Step(piece, st, num).Some?
    ensures RowsNonEmpty(Step(piece, st, num).value.mat)
  {
    var next := Step(piece, st, num).value;
    if next.mat != st.mat {
      PushCellKeepsRowsNonEmpty(st.mat, st.matId, Cell(piece[..|piece| - 1], num).value);
    }
  }

  lemma {:induction false} ScanKeepsRowsNonEmpty<N>(pieces: seq<string>, st: MatState<N>, num: Float -> N)
    requires RowsNonEmpty(st.mat)
    ensures Scan(pieces, st, num).Some? ==> RowsNonEmpty(Scan(pieces, st, num).value.mat)
    decreases |pieces|
  {
    if pieces != [] {
      ScanFirst(pieces, st, num);
      var next := Step(pieces[0], st, num);
      if next.Some? {
        StepKeepsRowsNonEmpty(pieces[0], st, num);
        ScanKeepsRowsNonEmpty(pieces[1..], next.value, num);
      }
    }
  }

  /** A matrix literal that `parse_mat` accepts has at least one row, no empty row, and
      rows of one width. */
  lemma MatrixIsRectangular<N>(value: string, num: Float -> N)
    requires MatrixOf(value, num).Some?
    ensures var rows := MatrixOf(value, num).value.rows;
      |rows| >= 1 && RowsNonEmpty(rows) && SameWidth(rows)
  {
    var pieces := SplitInclusive(value, MatrixDelimiters);
    ScanKeepsRowsNonEmpty(pieces, Start(), num);
    RaggedMeansUnequalWidths(Scan(pieces, Start(), num).value.mat);
  }

  lemma {:induction false} ScanWithoutOpening<N>(pieces: seq<string>, st: MatState<N>, num: Float -> N)
    requires '[' !in Concat(pieces)
    requires st.depth == 0 && st.mat == []
    ensures Scan(pieces, st, num).Some? ==> Scan(pieces, st, num).value.mat == []
    decreases |pieces|
  {
    if pieces != [] {
      assert Concat(pieces) == pieces[0] + Concat(pieces[1..]);
      var piece := pieces[0];
      assert '[' !in piece;
      StepWithoutOpening(piece, st, num);
      var next := Step(piece, st, num);
      if next.Some? {
        ScanWithoutOpening(pieces[1..], next.value, num);
      }
    }
  }

  lemma StepWithoutOpening<N>(piece: string, st: MatState<N>, num: Float -> N)
    requires '[' !in piece
    requires st.depth == 0 && st.mat == []
    ensures Step(piece, st, num).Some? ==> Step(piece, st, num).value.depth == 0 && Step(piece, st, num).value.mat == []
  {
    var t := Trim(piece);
    TrimFacts(piece);
    if t != [] {
      assert t[0] in piece;
    }
  }

  /** Rows are only ever filled at bracket depth 2, so a literal without `[` is never
      a matrix. */
  lemma MatrixNeedsBrackets<N>(value: string, num: Float -> N)
    ensures MatrixOf(value, num).Some? ==> '[' in value
  {
    if '[' !in value {
      SplitInclusiveConcat(value, MatrixDelimiters);
      ScanWithoutOpening(SplitInclusive(value, MatrixDelimiters), Start(), num);
    }
  }

  /** The words `parse::<f64>()` reads as an infinity or as NaN, in any case. */
  predicate IsFloatWord(t: string) {
    var w := LowerAscii(t);
    w == "inf" || w == "infinity" || w == "nan"
  }

  /** A decimal number has a digit somewhere. */
  lemma ParseUnsignedHasDigit(s: string)
    requires ParseUnsigned(s).Some?
    ensures exists k | 0 <= k < |s| :: IsDigit(s[k])
  {
    var e := IndexOfAny(s, "eE");
    var mantissa := s[..e];
    var dot := IndexOfAny(mantissa, ".");
    var whole := mantissa[..dot];
    var fraction := if dot < |mantissa| then mantissa[dot + 1..] else "";
    if |whole| > 0 {
      assert IsDigit(s[0]) by { assert s[0] == whole[0]; }
    } else {
      assert IsDigit(s[dot + 1]) by { assert s[dot + 1] == fraction[0]; }
    }
  }

  /** A variable name parses as a float only when it is one of the float words. */
  lemma NameParse(t: string)
    requires IsName(t)
    ensures ParseF64(t).Some? <==> IsFloatWord(t)
  {
    if t != [] {
      assert !Forbidden(t[0]);
    }
    if ParseUnsigned(t).Some? {
      ParseUnsignedHasDigit(t);
    }
  }

  /** The operator spellings are made of `+-*%^()/=` alone. */
  lemma SpellingAlphabet<N>(t: string)
    ensures Spelling<N>(t).Some? ==> forall k | 0 <= k < |t| :: t[k] in "+-*%^()/="
  {
  }

  /** Every float literal holds a digit or an ASCII letter. */
  lemma FloatHasDigitOrLetter(s: string)
    ensures ParseF64(s).Some? ==> exists k | 0 <= k < |s| :: IsDigit(s[k]) || 'a' <= s[k] <= 'z' || 'A' <= s[k] <= 'Z'
  {
    if ParseF64(s).Some? {
      var body := if s[0] == '+' || s[0] == '-' then s[1..] else s;
      var off := |s| - |body|;
      var word := LowerAscii(body);
      if word == "inf" || word == "infinity" || word == "nan" {
        assert word[0] == 'i' || word[0] == 'n';
        assert s[off] == body[0];
      } else {
        ParseUnsignedHasDigit(body);
        var k :| 0 <= k < |body| && IsDigit(body[k]);
        assert s[off + k] == body[k];
      }
    }
  }

  /** No operator spelling is a float. */
  lemma SpellingIsNotFloat<N>(t: string)
    requires Spelling<N>(t).Some?
    ensures ParseF64(t).None?
  {
    SpellingAlphabet<N>(t);
    FloatHasDigitOrLetter(t);
  }

  lemma FromStrOfSpelling<N>(value: string, num: Float -> N)
    requires Spelling<N>(Trim(value)).Some?
    ensures FromStr(value, num) == Ok(Spelling<N>(Trim(value)).value)
  {
  }

  /** A one-character operator spelling is read as that operator. */
  lemma FromStrOfSymbol<N>(c: char, num: Float -> N)
    requires !IsWhitespace(c) && Spelling<N>([c]).Some?
    ensures FromStr([c], num) == Ok(Spelling<N>([c]).value)
  {
    TrimSolid(c);
    FromStrOfSpelling<N>([c], num);
  }

  /** An operator spelling is read as that operator, and every other text as an
      operand or an error. */
  lemma FromStrOperator<N>(value: string, num: Float -> N)
    ensures var t, r := Trim(value), FromStr(value, num);
      (r.Ok? && !IsOperand(r.value) <==> Spelling<N>(t).Some?) &&
      (Spelling<N>(t).Some? ==> r == Ok(Spelling<N>(t).value))
  {
    var t := Trim(value);
    if Spelling<N>(t).Some? {
      FromStrOfSpelling(value, num);
    } else {
      FromStrOfOther(value, num);
    }
  }

  lemma FromStrOfOther<N>(value: string, num: Float -> N)
    requires Spelling<N>(Trim(value)).None?
    ensures FromStr(value, num).Ok? ==> IsOperand(FromStr(value, num).value)
  {
  }

  /** A text is read as a matrix exactly when `parse_mat` accepts it. */
  lemma FromStrMatrix<N>(value: string, num: Float -> N)
    ensures var t, r := Trim(value), FromStr(value, num);
      (r.Ok? && r.value.Mat? <==> MatrixOf(t, num).Some?) &&
      (MatrixOf(t, num).Some? ==> r == Ok(MatrixOf(t, num).value))
  {
    var t := Trim(value);
    if Spelling<N>(t).Some? {
      FromStrOfSpelling(value, num);
      SpellingIsNotMatrix(t, num);
    } else {
      FromStrOfNonSpelling(value, num);
    }
  }

  lemma FromStrOfNonSpelling<N>(value: string, num: Float -> N)
    requires Spelling<N>(Trim(value)).None?
    ensures MatrixOf(Trim(value), num).Some? ==> FromStr(value, num) == Ok(MatrixOf(Trim(value), num).value)
    ensures MatrixOf(Trim(value), num).None? ==> FromStr(value, num).Ok? ==> !FromStr(value, num).value.Mat?
  {
  }

  lemma SpellingIsNotMatrix<N>(t: string, num: Float -> N)
    requires Spelling<N>(t).Some?
    ensures MatrixOf(t, num).None?
  {
    MatrixNeedsBrackets(t, num);
    SpellingAlphabet<N>(t);
    assert '[' !in t;
  }

  /** A text is read as a number exactly when it parses as a float. */
  lemma FromStrNumber<N>(value: string, num: Float -> N)
    ensures var t, r := Trim(value), FromStr(value, num);
      (r.Ok? && r.value.Number? <==> ParseF64(t).Some?) &&
      (ParseF64(t).Some? ==> r == Ok(Number(num(ParseF64(t).value))))
  {
    var t := Trim(value);
    if Spelling<N>(t).Some? {
      FromStrOfSpelling(value, num);
      SpellingIsNotFloat<N>(t);
    } else if ParseF64(t).Some? {
      FloatIsNotMatrix(t, num);
    }
  }

  lemma FloatIsNotMatrix<N>(t: string, num: Float -> N)
    requires ParseF64(t).Some?
    ensures MatrixOf(t, num).None?
  {
    ParseF64Alphabet(t);
    MatrixNeedsBrackets(t, num);
  }

  /** A text is read as a variable exactly when it is a legal name that is neither an
      operator spelling nor a float word; the variable is the trimmed text. */
  lemma FromStrVariable<N>(value: string, num: Float -> N)
    ensures var t, r := Trim(value), FromStr(value, num);
      (r.Ok? && r.value.Var? <==> IsName(t) && Spelling<N>(t).None? && !IsFloatWord(t)) &&
      (r.Ok? && r.value.Var? ==> r.value.name == t)
  {
    var t := Trim(value);
    if Spelling<N>(t).Some? {
      FromStrOfSpelling(value, num);
    } else if IsName(t) {
      NameParse(t);
      assert '[' !in t by {
        assert Forbidden('[');
      }
      MatrixNeedsBrackets(t, num);
    }
  }

  /** `from_str` never panics, and its one error names the trimmed text, which is not a
      legal variable name. */
  lemma FromStrError<N>(value: string, num: Float -> N)
    ensures var t, r := Trim(value), FromStr(value, num);
      !r.Panic? && (r.Err? ==> !IsName(t) && r.error == InvalidName(t))
  {
    var t := Trim(value);
    if Spelling<N>(t).Some? {
      FromStrOfSpelling(value, num);
    }
  }

  /** `from_str` as written: the spellings, then `parse_mat`, then the float parser,
      then the name check. `from_str` itself is a plain `match`, specified by `FromStr`;
      this method exists because its `parse_mat` arm runs the imperative `ParseMat`
      loop, and it shows that running that loop gives the token `FromStr` describes. */
  method ReadToken<N>(value: string, num: Float -> N) returns (r: Outcome<Operator<N>>)
    ensures r == FromStr(value, num)
  {
    var t := Trim(value);
    var op := Spelling<N>(t);
    if op.Some? {
      return Ok(op.value);
    }
    var m := ParseMat(t, num);
    if m.Some? {
      return Ok(m.value);
    }
    var f := ParseF64(t);
    if f.Some? {
      return Ok(Number(num(f.value)));
    }
    if IsName(t) {
      return Ok(Var(t));
    }
    return Err(InvalidName(t));
  }
}
