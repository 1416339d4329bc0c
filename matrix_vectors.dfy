/** The literals of the `parse_mat` tests (src/operator.rs), each taken to the answer
    the tests expect: the accepted ones to the matrix of their cells, and one literal
    of every rejected group to `None`. */
module MatrixVectors {
  import opened Outcomes
  import opened Text
  import opened Floats
  import opened Tokens
  import opened Lexer
  import opened Matrices

  /** The operand a one-digit cell becomes. */
  function Digit<N>(k: real, num: Float -> N): Operator<N> {
    Number(num(Finite(k)))
  }

  /** The value of a digit character. */
  function DigitValue(d: char): real {
    (d as int - '0' as int) as real
  }

  /** A digit between blanks is a legal cell, read as that digit. */
  lemma DigitCell<N>(pre: string, d: char, post: string, num: Float -> N)
    requires IsBlank(pre) && IsBlank(post) && IsDigit(d)
    ensures Plain(pre + [d] + post)
    ensures Cell(pre + [d] + post, num) == Ok(Digit(DigitValue(d), num))
  {
    TrimAround(pre, d, post);
    ParseDigit(d);
    ParsedCell(pre + [d] + post, Finite(DigitValue(d)), num);
    DigitPlain(pre, d, post);
  }

  /** A cell whose trimmed text parses as a float is that float. */
  lemma ParsedCell<N>(text: string, f: Float, num: Float -> N)
    requires ParseF64(Trim(text)) == Some(f)
    ensures Cell(text, num) == Ok(Number(num(f)))
  {
  }

  lemma DigitPlain(pre: string, d: char, post: string)
    requires IsBlank(pre) && IsBlank(post) && IsDigit(d)
    ensures Plain(pre + [d] + post)
  {
    var c := pre + [d] + post;
    assert c[|pre|] == d;
    forall k | 0 <= k < |c| ensures c[k] !in MatrixDelimiters {
      if k < |pre| {
        assert c[k] == pre[k];
      } else if k > |pre| {
        assert c[k] == post[k - |pre| - 1];
      }
    }
  }

  /** A row of three blank-padded digits. */
  lemma ReadsThree<N>(a: string, b: string, c: string, x: real, y: real, z: real, num: Float -> N)
    requires Plain(a) && Cell(a, num) == Ok(Digit(x, num))
    requires Plain(b) && Cell(b, num) == Ok(Digit(y, num))
    requires Plain(c) && Cell(c, num) == Ok(Digit(z, num))
    ensures Reads([a, b, c], [Digit(x, num), Digit(y, num), Digit(z, num)], num)
  {
    ReadsTwo(b, c, Digit(y, num), Digit(z, num), num);
    assert [a, b, c][1..] == [b, c];
    assert [Digit(x, num), Digit(y, num), Digit(z, num)][1..] == [Digit(y, num), Digit(z, num)];
  }

  /** A row of one digit. */
  lemma ReadsOne<N>(d: char, num: Float -> N)
    requires IsDigit(d)
    ensures Reads([[d]], [Digit(DigitValue(d), num)], num)
  {
    LoneDigit(d, num);
    ReadsSingle([d], Digit(DigitValue(d), num), num);
  }

  /** A digit alone is a legal cell, read as that digit. */
  lemma LoneDigit<N>(d: char, num: Float -> N)
    requires IsDigit(d)
    ensures Plain([d]) && Cell([d], num) == Ok(Digit(DigitValue(d), num))
  {
    TrimSolid(d);
    ParseDigit(d);
    ParsedCell([d], Finite(DigitValue(d)), num);
    assert !IsWhitespace([d][0]) && [d][0] !in MatrixDelimiters;
  }

  /** Rows read one by one are read as a matrix. */
  lemma {:induction false} ReadsRowsEach<N>(rows: seq<seq<string>>, vals: seq<seq<Operator<N>>>, num: Float -> N)
    requires |rows| == |vals|
    requires forall k | 0 <= k < |rows| :: rows[k] != [] && Reads(rows[k], vals[k], num)
    ensures ReadsRows(rows, vals, num)
    decreases |rows|
  {
    if rows != [] {
      var tail, vtail := rows[1..], vals[1..];
      forall k | 0 <= k < |tail| ensures tail[k] != [] && Reads(tail[k], vtail[k], num) {
        assert tail[k] == rows[k + 1] && vtail[k] == vals[k + 1];
      }
      ReadsRowsEach(tail, vtail, num);
    }
  }

  /** A row of three digits, each between blanks. */
  lemma DigitRow<N>(p0: string, d0: char, q0: string, p1: string, d1: char, q1: string,
                    p2: string, d2: char, q2: string, num: Float -> N)
    requires IsBlank(p0) && IsBlank(q0) && IsDigit(d0)
    requires IsBlank(p1) && IsBlank(q1) && IsDigit(d1)
    requires IsBlank(p2) && IsBlank(q2) && IsDigit(d2)
    ensures Reads([p0 + [d0] + q0, p1 + [d1] + q1, p2 + [d2] + q2],
      [Digit(DigitValue(d0), num), Digit(DigitValue(d1), num),
       Digit(DigitValue(d2), num)], num)
  {
    DigitCell(p0, d0, q0, num);
    DigitCell(p1, d1, q1, num);
    DigitCell(p2, d2, q2, num);
    ReadsThree(p0 + [d0] + q0, p1 + [d1] + q1, p2 + [d2] + q2, DigitValue(d0),
      DigitValue(d1), DigitValue(d2), num);
  }

  /** The first row of `[[1 ,2  ,3   ];[ 1, 2,3 ]]`. */
  lemma GoodRowPadded<N>(num: Float -> N)
    ensures Reads(["1 ", "2  ", "3   "], [Digit(1.0, num), Digit(2.0, num), Digit(3.0, num)], num)
  {
    PaddedTexts();
    DigitRow("", '1', " ", "", '2', "  ", "", '3', "   ", num);
  }

  lemma PaddedTexts()
    ensures "" + ['1'] + " " == "1 " && "" + ['2'] + "  " == "2  " && "" + ['3'] + "   " == "3   "
  {
  }

  lemma LeadingTexts()
    ensures " " + ['1'] + "" == " 1" && " " + ['2'] + "" == " 2" && "" + ['3'] + " " == "3 "
  {
  }

  /** The second row of `[[1 ,2  ,3   ];[ 1, 2,3 ]]`. */
  lemma GoodRowLeading<N>(num: Float -> N)
    ensures Reads([" 1", " 2", "3 "], [Digit(1.0, num), Digit(2.0, num), Digit(3.0, num)], num)
  {
    LeadingTexts();
    DigitRow(" ", '1', "", " ", '2', "", "", '3', " ", num);
  }

  /** The literal of two rows, written out. */
  lemma TwoRowText(r0: seq<string>, r1: seq<string>)
    requires r0 != [] && r1 != []
    ensures NoEmptyRow([r0, r1])
    ensures MatrixText([r0, r1]) == ['['] + RowText(r0) + [';'] + RowText(r1) + [']']
  {
    var rows := [r0, r1];
    assert rows[1..] == [r1];
    assert RowsText(rows) == RowText(r0) + [';'] + RowText(r1);
  }

  lemma GoodText()
    ensures RowText(["1 ", "2  ", "3   "]) == "[1 ,2  ,3   ]"
    ensures RowText([" 1", " 2", "3 "]) == "[ 1, 2,3 ]"
    ensures "[" + "[1 ,2  ,3   ]" + ";" + "[ 1, 2,3 ]" + "]" == "[[1 ,2  ,3   ];[ 1, 2,3 ]]"
  {
    GoodTextA();
    GoodTextB();
    GoodTextC();
  }

  lemma GoodTextA()
    ensures RowText(["1 ", "2  ", "3   "]) == "[1 ,2  ,3   ]"
  {
    assert RowTail(["3   "]) == "3   ]";
    assert RowTail(["2  ", "3   "]) == "2  ,3   ]";
    assert RowTail(["1 ", "2  ", "3   "]) == "1 ,2  ,3   ]";
  }

  lemma GoodTextB()
    ensures RowText([" 1", " 2", "3 "]) == "[ 1, 2,3 ]"
  {
  }

  lemma GoodTextC()
    ensures "[" + "[1 ,2  ,3   ]" + ";" + "[ 1, 2,3 ]" + "]" == "[[1 ,2  ,3   ];[ 1, 2,3 ]]"
  {
  }

  /** `good_mat`: blanks around the cells are ignored, and the two rows are read. */
  lemma GoodMatrix<N>(num: Float -> N)
    ensures var row := [Digit(1.0, num), Digit(2.0, num), Digit(3.0, num)];
      MatrixOf("[[1 ,2  ,3   ];[ 1, 2,3 ]]", num) == Some(Mat([row, row]))
  {
    GoodRowPadded(num);
    GoodRowLeading(num);
    GoodText();
    var row := [Digit(1.0, num), Digit(2.0, num), Digit(3.0, num)];
    TwoRowsChecked(["1 ", "2  ", "3   "], [" 1", " 2", "3 "], row, row, num);
  }

  /** The rows of a column literal: one single-digit cell per row. */
  function Column(ds: string): (r: seq<seq<string>>)
    ensures |r| == |ds|
    ensures forall k | 0 <= k < |r| :: r[k] == [[ds[k]]]
  {
    if ds == [] then [] else [[[ds[0]]]] + Column(ds[1..])
  }

  /** The values of those rows. */
  function ColumnValues<N>(ds: string, num: Float -> N): (r: seq<seq<Operator<N>>>)
    ensures |r| == |ds|
    ensures forall k | 0 <= k < |r| :: r[k] == [Digit(DigitValue(ds[k]), num)]
  {
    if ds == [] then [] else [[Digit(DigitValue(ds[0]), num)]] + ColumnValues(ds[1..], num)
  }

  /** Every row of a column of digits is read as its digit. */
  lemma ColumnReads<N>(ds: string, num: Float -> N)
    requires forall k | 0 <= k < |ds| :: IsDigit(ds[k])
    ensures ReadsRows(Column(ds), ColumnValues(ds, num), num)
  {
    var rows, vals := Column(ds), ColumnValues(ds, num);
    forall k | 0 <= k < |rows| ensures rows[k] != [] && Reads(rows[k], vals[k], num) {
      ReadsOne(ds[k], num);
    }
    ReadsRowsEach(rows, vals, num);
  }

  /** Rows that are each one cell wide are equally wide. */
  lemma NarrowRows<N>(vals: seq<seq<Operator<N>>>)
    requires forall k | 0 <= k < |vals| :: |vals[k]| == 1
    ensures SameWidth(vals)
  {
  }

  lemma ColumnText()
    ensures NoEmptyRow(Column("12345"))
    ensures MatrixText(Column("12345")) == "[[1];[2];[3];[4];[5]]"
  {
    ColumnBodyText();
    ColumnFrom("12345", "[1];[2];[3];[4];[5]");
    ColumnWrap();
  }

  lemma ColumnBodyText()
    ensures ColumnBody("12345") == "[1];[2];[3];[4];[5]"
  {
  }

  lemma ColumnWrap()
    ensures ['['] + "[1];[2];[3];[4];[5]" + [']'] == "[[1];[2];[3];[4];[5]]"
  {
  }

  /** A row in front of other rows, in the text. */
  lemma RowsTextCons(row: seq<string>, rest: seq<seq<string>>)
    requires row != [] && rest != [] && NoEmptyRow(rest)
    ensures NoEmptyRow([row] + rest)
    ensures RowsText([row] + rest) == RowText(row) + [';'] + RowsText(rest)
  {
    assert ([row] + rest)[1..] == rest;
  }

  /** The rows text of a column of digits: each digit in brackets, separated by
      semicolons. */
  function ColumnBody(ds: string): string
    requires ds != []
  {
    if |ds| == 1 then ['[', ds[0], ']'] else ['[', ds[0], ']', ';'] + ColumnBody(ds[1..])
  }

  lemma {:induction false} ColumnFrom(ds: string, body: string)
    requires ds != [] && body == ColumnBody(ds)
    ensures NoEmptyRow(Column(ds))
    ensures RowsText(Column(ds)) == body
    decreases |ds|
  {
    OneRowText(ds[0]);
    if |ds| == 1 {
      assert Column(ds) == [[[ds[0]]]];
    } else {
      var rest := ColumnBody(ds[1..]);
      ColumnFrom(ds[1..], rest);
      ColumnCons(ds);
      RowsTextCons([[ds[0]]], Column(ds[1..]));
    }
  }

  lemma ColumnCons(ds: string)
    requires |ds| > 1
    ensures Column(ds) == [[[ds[0]]]] + Column(ds[1..])
  {
  }

  lemma OneRowText(c: char)
    ensures RowText([[c]]) == ['[', c, ']']
  {
  }

  lemma ColumnDigits<N>(num: Float -> N)
    ensures ColumnValues("12345", num) ==
      [[Digit(1.0, num)], [Digit(2.0, num)], [Digit(3.0, num)], [Digit(4.0, num)], [Digit(5.0, num)]]
  {
    var r := ColumnValues("12345", num);
    assert DigitValue('1') == 1.0 && DigitValue('2') == 2.0 && DigitValue('3') == 3.0;
    assert DigitValue('4') == 4.0 && DigitValue('5') == 5.0;
  }

  /** A column of digits is read as the matrix of those digits, one per row. */
  lemma ColumnMatrix<N>(ds: string, num: Float -> N)
    requires ds != [] && forall k | 0 <= k < |ds| :: IsDigit(ds[k])
    ensures NoEmptyRow(Column(ds))
    ensures MatrixOf(MatrixText(Column(ds)), num) == Some(Mat(ColumnValues(ds, num)))
  {
    ColumnShape(ds, num);
    ColumnReads(ds, num);
    MatrixOfText(Column(ds), ColumnValues(ds, num), num);
  }

  lemma ColumnShape<N>(ds: string, num: Float -> N)
    requires ds != []
    ensures Column(ds) != [] && SameWidth(ColumnValues(ds, num))
  {
    NarrowRows(ColumnValues(ds, num));
  }

  /** `good_mat`: a column of five one-cell rows. */
  lemma GoodColumn<N>(num: Float -> N)
    ensures MatrixOf("[[1];[2];[3];[4];[5]]", num) == Some(Mat([[Digit(1.0, num)], [Digit(2.0, num)],
      [Digit(3.0, num)], [Digit(4.0, num)], [Digit(5.0, num)]]))
  {
    ColumnMatrix("12345", num);
    ColumnText();
    ColumnDigits(num);
  }

  /** Two rows make a matrix exactly when they are equally wide. */
  lemma TwoRowsChecked<N>(r0: seq<string>, r1: seq<string>, v0: seq<Operator<N>>, v1: seq<Operator<N>>, num: Float -> N)
    requires r0 != [] && r1 != [] && Reads(r0, v0, num) && Reads(r1, v1, num)
    ensures MatrixOf(['['] + RowText(r0) + [';'] + RowText(r1) + [']'], num) ==
      if |v0| == |v1| then Some(Mat([v0, v1])) else None
  {
    TwoRowText(r0, r1);
    TwoReads(r0, r1, v0, v1, num);
    MatrixOfText([r0, r1], [v0, v1], num);
    TwoWidths(v0, v1);
  }

  lemma TwoReads<N>(r0: seq<string>, r1: seq<string>, v0: seq<Operator<N>>, v1: seq<Operator<N>>, num: Float -> N)
    requires r0 != [] && r1 != [] && Reads(r0, v0, num) && Reads(r1, v1, num)
    ensures ReadsRows([r0, r1], [v0, v1], num)
  {
    var rows, vals := [r0, r1], [v0, v1];
    forall k | 0 <= k < 2 ensures rows[k] != [] && Reads(rows[k], vals[k], num) {
      if k == 0 {
        assert rows[k] == r0 && vals[k] == v0;
      } else {
        assert rows[k] == r1 && vals[k] == v1;
      }
    }
    ReadsRowsEach(rows, vals, num);
  }

  lemma TwoWidths<N>(v0: seq<Operator<N>>, v1: seq<Operator<N>>)
    ensures SameWidth([v0, v1]) <==> |v0| == |v1|
  {
    var vals := [v0, v1];
    assert vals[0] == v0 && vals[1] == v1;
  }

  /** The three digits `1`, `2`, `3` as a row. */
  lemma Row123<N>(num: Float -> N)
    ensures Reads(["1", "2", "3"], [Digit(1.0, num), Digit(2.0, num), Digit(3.0, num)], num)
  {
    LoneDigit('1', num);
    LoneDigit('2', num);
    LoneDigit('3', num);
    assert DigitValue('1') == 1.0 && DigitValue('2') == 2.0 && DigitValue('3') == 3.0;
    ReadsThree("1", "2", "3", 1.0, 2.0, 3.0, num);
  }

  /** The two digits `1`, `2` as a row. */
  lemma Row12<N>(num: Float -> N)
    ensures Reads(["1", "2"], [Digit(1.0, num), Digit(2.0, num)], num)
  {
    LoneDigit('1', num);
    LoneDigit('2', num);
    assert DigitValue('1') == 1.0 && DigitValue('2') == 2.0;
    ReadsTwo("1", "2", Digit(1.0, num), Digit(2.0, num), num);
  }

  lemma ReadsTwo<N>(a: string, b: string, x: Operator<N>, y: Operator<N>, num: Float -> N)
    requires Plain(a) && Cell(a, num) == Ok(x) && Plain(b) && Cell(b, num) == Ok(y)
    ensures Reads([a, b], [x, y], num)
  {
    ReadsSingle(b, y, num);
    assert [a, b][1..] == [b] && [x, y][1..] == [y];
  }

  lemma ReadsSingle<N>(a: string, x: Operator<N>, num: Float -> N)
    requires Plain(a) && Cell(a, num) == Ok(x)
    ensures Reads([a], [x], num)
  {
    var none: seq<Operator<N>> := [];
    assert [a][1..] == [] && [x][1..] == none;
    assert Reads([], none, num);
  }

  lemma Row123Text()
    ensures RowText(["1", "2", "3"]) == "[1,2,3]"
  {
    assert RowTail(["3"]) == "3]";
    assert RowTail(["2", "3"]) == "2,3]";
  }

  lemma Row12Text()
    ensures RowText(["1", "2"]) == "[1,2]"
  {
    assert RowTail(["2"]) == "2]";
  }

  lemma BadSizeText()
    ensures ['['] + "[1,2,3]" + [';'] + "[1,2]" + [']'] == "[[1,2,3];[1,2]]"
  {
  }

  /** `bad_size`: rows of different widths are refused. */
  lemma BadSize<N>(num: Float -> N)
    ensures MatrixOf("[[1,2,3];[1,2]]", num) == None
  {
    Row123(num);
    Row12(num);
    Row123Text();
    Row12Text();
    BadSizeText();
    TwoRowsChecked(["1", "2", "3"], ["1", "2"], [Digit(1.0, num), Digit(2.0, num), Digit(3.0, num)],
      [Digit(1.0, num), Digit(2.0, num)], num);
  }

  /** `parse_mat` refuses a literal on which its loop returns early. */
  lemma Refused<N>(value: string, num: Float -> N)
    requires ScanText(value, Start(), num) == None
    ensures MatrixOf(value, num) == None
  {
  }

  /** Once the loop has returned early, the rest of the text is never read. */
  lemma ScanStops<N>(a: string, b: string, st: MatState<N>, num: Float -> N)
    requires a != [] && a[|a| - 1] in MatrixDelimiters && ScanText(a, st, num) == None
    ensures ScanText(a + b, st, num) == None
  {
    ScanJoin(a, b, st, num);
  }

  /** A cell is refused outside a row, or in a row that no semicolon opened. */
  lemma MisplacedCell<N>(c: string, st: MatState<N>, num: Float -> N)
    requires Plain(c) && (st.depth != 2 || st.matId != st.commaId)
    ensures ScanText(c + [','], st, num) == None
  {
    ScanCell(c, ',', st, num);
  }

  /** A cell that `from_str` refuses makes the literal refused. */
  lemma RefusedCell<N>(c: string, st: MatState<N>, num: Float -> N)
    requires Plain(c) && Cell(c, num).Err?
    ensures ScanText(c + [','], st, num) == None
  {
    ScanCell(c, ',', st, num);
  }

  /** The opening bracket enters depth 1. */
  lemma Opened<N>(rest: string, num: Float -> N)
    ensures ScanText(['['] + rest, Start(), num) == ScanText(rest, MatState(1, 0, 0, []), num)
  {
    var start: MatState<N> := Start();
    OpenOne(start, num);
    ScanThen(['['], rest, start, MatState(1, 0, 0, []), num);
  }

  /** A cell straight after the opening bracket is outside any row. */
  lemma CellAtDepthOne<N>(c: string, rest: string, num: Float -> N)
    requires Plain(c)
    ensures ScanText(['['] + ((c + [',']) + rest), Start(), num) == None
  {
    var st: MatState<N> := MatState(1, 0, 0, []);
    Opened((c + [',']) + rest, num);
    MisplacedCell(c, st, num);
    ScanStops(c + [','], rest, st, num);
  }

  lemma BadDepthText()
    ensures ['['] + (("1" + [',']) + "2,3]") == "[1,2,3]"
  {
  }

  /** `bad_depth`: cells directly inside the outer brackets are refused. */
  lemma BadDepth<N>(num: Float -> N)
    ensures MatrixOf("[1,2,3]", num) == None
  {
    LoneDigit('1', num);
    BadDepthText();
    CellAtDepthOne("1", "2,3]", num);
    Refused("[1,2,3]", num);
  }

  /** A semicolon before any row, then a row: its first cell is in a row whose
      `mat_id` lags behind `comma_id`. */
  lemma SemicolonBeforeRow<N>(c: string, rest: string, num: Float -> N)
    requires Plain(c)
    ensures ScanText(['['] + ([';'] + (['['] + ((c + [',']) + rest))), Start(), num) == None
  {
    var s1: MatState<N> := MatState(1, 0, 0, []);
    var s2 := MatState(1, 0, 1, s1.mat);
    var s3 := MatState(2, 0, 1, s1.mat);
    Opened([';'] + (['['] + ((c + [',']) + rest)), num);
    SemiOne(s1, num);
    ScanThen([';'], ['['] + ((c + [',']) + rest), s1, s2, num);
    OpenOne(s2, num);
    ScanThen(['['], (c + [',']) + rest, s2, s3, num);
    MisplacedCell(c, s3, num);
    ScanStops(c + [','], rest, s3, num);
  }

  lemma DoubleSemicolonText()
    ensures ['['] + ([';'] + (['['] + (("1" + [',']) + "2,3][1,2, 3]]"))) == "[;[1,2,3][1,2, 3]]"
  {
  }

  /** `double_point_virgule`: a semicolon where no row has ended is refused. */
  lemma DoubleSemicolon<N>(num: Float -> N)
    ensures MatrixOf("[;[1,2,3][1,2, 3]]", num) == None
  {
    LoneDigit('1', num);
    DoubleSemicolonText();
    SemicolonBeforeRow("1", "2,3][1,2, 3]]", num);
    Refused("[;[1,2,3][1,2, 3]]", num);
  }

  /** After a first row, the loop is at depth 1 with that row done. */
  lemma FirstRow<N>(r0: seq<string>, v0: seq<Operator<N>>, rest: string, num: Float -> N)
    requires r0 != [] && Reads(r0, v0, num)
    ensures ScanText(['['] + (RowText(r0) + rest), Start(), num) == ScanText(rest, MatState(1, 1, 0, [v0]), num)
  {
    Opened(RowText(r0) + rest, num);
    RowFromStart(r0, v0, num);
    ScanThen(RowText(r0), rest, MatState(1, 0, 0, []), MatState(1, 1, 0, [v0]), num);
  }

  lemma RowFromStart<N>(r0: seq<string>, v0: seq<Operator<N>>, num: Float -> N)
    requires r0 != [] && Reads(r0, v0, num)
    ensures ScanText(RowText(r0), MatState(1, 0, 0, []), num) == Some(MatState(1, 1, 0, [v0]))
  {
    var none: seq<seq<Operator<N>>> := [];
    RowScan(r0, v0, none, num);
    FirstRowState(v0, none);
  }

  lemma FirstRowState<N>(v0: seq<Operator<N>>, none: seq<seq<Operator<N>>>)
    requires none == []
    ensures MatState(1, |none|, |none|, none) == MatState(1, 0, 0, [])
    ensures MatState(1, |none| + 1, |none|, none + [v0]) == MatState(1, 1, 0, [v0])
  {
  }

  /** A second row opened without a semicolon: its first cell is refused. */
  lemma RowAfterRow<N>(r0: seq<string>, v0: seq<Operator<N>>, sep: string, c: string, rest: string, num: Float -> N)
    requires r0 != [] && Reads(r0, v0, num) && Plain(c) && (sep == [] || sep == [','])
    ensures ScanText(['['] + (RowText(r0) + (sep + (['['] + ((c + [',']) + rest)))), Start(), num) == None
  {
    var s2: MatState<N> := MatState(1, 1, 0, [v0]);
    var s3 := MatState(2, 1, 0, [v0]);
    FirstRow(r0, v0, sep + (['['] + ((c + [',']) + rest)), num);
    if sep == [','] {
      ScanMarker(',', s2, num);
      ScanThen(sep, ['['] + ((c + [',']) + rest), s2, s2, num);
    } else {
      assert sep + (['['] + ((c + [',']) + rest)) == ['['] + ((c + [',']) + rest);
    }
    OpenOne(s2, num);
    ScanThen(['['], (c + [',']) + rest, s2, s3, num);
    MisplacedCell(c, s3, num);
    ScanStops(c + [','], rest, s3, num);
  }

  lemma NoSemicolonText()
    ensures ['['] + ("[1,2,3]" + ([] + (['['] + (("1" + [',']) + "2, 3]]")))) == "[[1,2,3][1,2, 3]]"
  {
  }

  /** `no_point_virgule`: two rows with no semicolon between them are refused. */
  lemma NoSemicolon<N>(num: Float -> N)
    ensures MatrixOf("[[1,2,3][1,2, 3]]", num) == None
  {
    Row123(num);
    Row123Text();
    LoneDigit('1', num);
    NoSemicolonText();
    RowAfterRow(["1", "2", "3"], [Digit(1.0, num), Digit(2.0, num), Digit(3.0, num)], [], "1", "2, 3]]", num);
    Refused("[[1,2,3][1,2, 3]]", num);
  }

  lemma BadSeparatorText()
    ensures ['['] + ("[1,2,3]" + ([','] + (['['] + (("2" + [',']) + "3, 4],[1,2, 3]]")))) ==
      "[[1,2,3],[2,3, 4],[1,2, 3]]"
  {
  }

  /** `bad_separator`: rows separated by commas are refused. */
  lemma BadSeparator<N>(num: Float -> N)
    ensures MatrixOf("[[1,2,3],[2,3, 4],[1,2, 3]]", num) == None
  {
    Row123(num);
    Row123Text();
    LoneDigit('2', num);
    BadSeparatorText();
    RowAfterRow(["1", "2", "3"], [Digit(1.0, num), Digit(2.0, num), Digit(3.0, num)], [','], "2", "3, 4],[1,2, 3]]", num);
    Refused("[[1,2,3],[2,3, 4],[1,2, 3]]", num);
  }

  /** A text that is one piece leaves no row behind, so it is no literal. */
  lemma OnePieceRefused<N>(t: string, num: Float -> N)
    requires Pieces(t) == [t]
    ensures MatrixOf(t, num) == None
  {
    ScanOne(t, Start(), num);
  }

  /** A text without `;[],` is one piece. */
  lemma Undelimited(t: string)
    requires t != [] && forall k | 0 <= k < |t| :: t[k] !in MatrixDelimiters
    ensures Pieces(t) == [t]
  {
    assert IndexOfAny(t, MatrixDelimiters) == |t|;
  }

  /** What `from_str` makes of a cell text that is nothing it knows. */
  lemma UnknownCell<N>(t: string, num: Float -> N)
    requires Trim(t) == t && Spelling<N>(t).None? && MatrixOf(t, num).None? && ParseF64(t).None? && !IsName(t)
    ensures Cell(t, num) == Err(InvalidName(t))
  {
  }

  lemma SumText()
    ensures Trim("3 + 2") == "3 + 2" && Spelling<int>("3 + 2").None?
    ensures forall k | 0 <= k < |"3 + 2"| :: "3 + 2"[k] !in MatrixDelimiters
    ensures !IsBlank("3 + 2") && !IsName("3 + 2") && !IsFloatChar("3 + 2"[1])
  {
    SumTrim();
    assert Forbidden("3 + 2"[1]);
  }

  lemma SumTrim()
    ensures Trim("3 + 2") == "3 + 2"
  {
    var s := "3 + 2";
    assert !IsWhitespace(s[0]) && !IsWhitespace(s[4]);
    TrimNothing(s);
  }

  /** `3 + 2` is not a float: it holds a blank. */
  lemma SumNotFloat()
    ensures ParseF64("3 + 2").None?
  {
    SumText();
    if ParseF64("3 + 2").Some? {
      ParseF64Alphabet("3 + 2");
      assert false;
    }
  }

  /** The cell `3 + 2` of `operator_inside` is refused by `from_str`. */
  lemma SumCell<N>(num: Float -> N)
    ensures Plain("3 + 2") && Cell("3 + 2", num).Err?
  {
    SumText();
    assert Spelling<N>("3 + 2").None?;
    SumNotFloat();
    Undelimited("3 + 2");
    OnePieceRefused("3 + 2", num);
    UnknownCell("3 + 2", num);
  }

  /** A refused cell inside the second row stops the loop. */
  lemma RefusedInSecondRow<N>(r0: seq<string>, v0: seq<Operator<N>>, c0: string, v: Operator<N>,
                              c: string, rest: string, num: Float -> N)
    requires r0 != [] && Reads(r0, v0, num)
    requires Plain(c0) && Cell(c0, num) == Ok(v) && Plain(c) && Cell(c, num).Err?
    ensures ScanText(['['] + (RowText(r0) + ([';'] + (['['] + ((c0 + [',']) + ((c + [',']) + rest))))), Start(), num) == None
  {
    var s2: MatState<N> := MatState(1, 1, 0, [v0]);
    var s3 := MatState(1, 1, 1, [v0]);
    var s4 := MatState(2, 1, 1, [v0]);
    var s5 := MatState(2, 1, 1, PushCell([v0], 1, v));
    FirstRow(r0, v0, [';'] + (['['] + ((c0 + [',']) + ((c + [',']) + rest))), num);
    SemiOne(s2, num);
    ScanThen([';'], ['['] + ((c0 + [',']) + ((c + [',']) + rest)), s2, s3, num);
    OpenOne(s3, num);
    ScanThen(['['], (c0 + [',']) + ((c + [',']) + rest), s3, s4, num);
    ScanCellComma(c0, s4, num);
    ScanThen(c0 + [','], (c + [',']) + rest, s4, s5, num);
    RefusedCell(c, s5, num);
    ScanStops(c + [','], rest, s5, num);
  }

  lemma OperatorInsideText()
    ensures ['['] + ("[1,2,3]" + ([';'] + (['['] + (("2" + [',']) + (("3 + 2" + [',']) + " 4];[1,2, 3]]"))))) ==
      "[[1,2,3];[2,3 + 2, 4];[1,2, 3]]"
  {
  }

  /** `operator_inside`: a cell holding an expression is refused. */
  lemma OperatorInside<N>(num: Float -> N)
    ensures MatrixOf("[[1,2,3];[2,3 + 2, 4];[1,2, 3]]", num) == None
  {
    Row123(num);
    Row123Text();
    LoneDigit('2', num);
    SumCell(num);
    OperatorInsideText();
    RefusedInSecondRow(["1", "2", "3"], [Digit(1.0, num), Digit(2.0, num), Digit(3.0, num)],
      "2", Digit(DigitValue('2'), num), "3 + 2", " 4];[1,2, 3]]", num);
    Refused("[[1,2,3];[2,3 + 2, 4];[1,2, 3]]", num);
  }

  /** `empty`: the empty text is no literal. */
  lemma EmptyText<N>(num: Float -> N)
    ensures MatrixOf("", num) == None
  {
  }

  /** `empty`: brackets with no cell hold no row. */
  lemma EmptyRow<N>(num: Float -> N)
    ensures MatrixOf("[[]]", num) == None
  {
    var none: seq<seq<Operator<N>>> := [];
    EmptyRowScan(num);
    EmptyRowText();
    MatrixOfScan("[[]]", MatState(0, 2, 0, none), num);
  }

  /** The loop over `[[]]` ends balanced, with two brackets closed and no row. */
  lemma EmptyRowScan<N>(num: Float -> N)
    ensures ScanText(['['] + (['['] + ([']'] + [']'])), Start(), num) == Some(MatState(0, 2, 0, []))
  {
    var s1: MatState<N> := MatState(1, 0, 0, []);
    var s2 := MatState(2, 0, 0, s1.mat);
    var s3 := MatState(1, 1, 0, s1.mat);
    Opened(['['] + ([']'] + [']']), num);
    OpenOne(s1, num);
    ScanThen(['['], [']'] + [']'], s1, s2, num);
    CloseRow(s2, num);
    ScanThen([']'], [']'], s2, s3, num);
    CloseOne(s3, num);
  }

  /** A `]` at depth 2 closes row `mat_id`. */
  lemma CloseRow<N>(st: MatState<N>, num: Float -> N)
    requires st.depth == 2
    ensures ScanText([']'], st, num) == Some(st.(matId := st.matId + 1, depth := 1))
  {
    ScanMarker(']', st, num);
  }

  lemma EmptyRowText()
    ensures ['['] + (['['] + ([']'] + [']'])) == "[[]]"
  {
  }
}
