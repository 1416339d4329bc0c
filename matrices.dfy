/** Matrix literals as the calculator's users write them — `[` then rows `[a,b,c]`
    separated by `;`, then `]` — and what `parse_mat` makes of them: every such
    literal is read back cell by cell, and accepted exactly when its rows are equally
    wide. The tests of src/operator.rs:188-288 (repeated in src/main.rs:274-374) follow
    as instances. */
module Matrices {
  import opened Outcomes
  import opened Text
  import opened Floats
  import opened Tokens
  import opened Lexer
  import opened Seqs

  /** The pieces `parse_mat` iterates over. */
  function Pieces(s: string): seq<string> {
    SplitInclusive(s, MatrixDelimiters)
  }

  /** The loop of `parse_mat` run over the text `s` from the state `st`. */
  function ScanText<N>(s: string, st: MatState<N>, num: Float -> N): Option<MatState<N>> {
    Scan(Pieces(s), st, num)
  }

  /** A cell's text as it can stand in a literal: not blank, and free of `;[],`. */
  predicate Plain(c: string) {
    !IsBlank(c) && forall k | 0 <= k < |c| :: c[k] !in MatrixDelimiters
  }

  /** The texts `cells` are read as the values `vals`, cell by cell. */
  ghost predicate Reads<N>(cells: seq<string>, vals: seq<Operator<N>>, num: Float -> N) {
    |cells| == |vals| &&
    (cells != [] ==> Plain(cells[0]) && Cell(cells[0], num) == Ok(vals[0]) && Reads(cells[1..], vals[1..], num))
  }

  /** The rows of texts `rows`, none empty, are read as the rows of values `vals`. */
  ghost predicate ReadsRows<N>(rows: seq<seq<string>>, vals: seq<seq<Operator<N>>>, num: Float -> N) {
    |rows| == |vals| &&
    (rows != [] ==> rows[0] != [] && Reads(rows[0], vals[0], num) && ReadsRows(rows[1..], vals[1..], num))
  }

  /** The cells of a row after its `[`: each followed by a comma, the last by `]`. */
  function RowTail(cells: seq<string>): (r: string)
    requires cells != []
    ensures r != [] && r[|r| - 1] == ']'
  {
    if |cells| == 1 then cells[0] + [']'] else cells[0] + [','] + RowTail(cells[1..])
  }

  function RowText(cells: seq<string>): (r: string)
    requires cells != []
    ensures r != [] && r[|r| - 1] == ']'
  {
    ['['] + RowTail(cells)
  }

  predicate NoEmptyRow(rows: seq<seq<string>>) {
    forall k | 0 <= k < |rows| :: rows[k] != []
  }

  /** The rows, separated by semicolons. */
  function RowsText(rows: seq<seq<string>>): (r: string)
    requires rows != [] && NoEmptyRow(rows)
    ensures r != [] && r[|r| - 1] == ']'
  {
    if |rows| == 1 then RowText(rows[0])
    else
      assert NoEmptyRow(rows[1..]) by {
        forall k | 0 <= k < |rows| - 1 ensures rows[1..][k] != [] {
          assert rows[1..][k] == rows[k + 1];
        }
      }
      RowText(rows[0]) + [';'] + RowsText(rows[1..])
  }

  /** The literal a user writes for the given cell texts. */
  function MatrixText(rows: seq<seq<string>>): string
    requires rows != [] && NoEmptyRow(rows)
  {
    ['['] + RowsText(rows) + [']']
  }

  lemma {:induction false} ScanAppend<N>(p: seq<string>, q: seq<string>, st: MatState<N>, num: Float -> N)
    ensures Scan(p + q, st, num) ==
      if Scan(p, st, num).None? then None else Scan(q, Scan(p, st, num).value, num)
    decreases |p|
  {
    if p == [] {
      assert p + q == q;
    } else {
      assert (p + q)[0] == p[0] && (p + q)[1..] == p[1..] + q;
      ScanFirst(p + q, st, num);
      ScanFirst(p, st, num);
      var next := Step(p[0], st, num);
      if next.Some? {
        ScanAppend(p[1..], q, next.value, num);
      }
    }
  }

  /** Reading `a + b`, where `a` ends with a delimiter, reads `a` and then `b`. */
  lemma ScanJoin<N>(a: string, b: string, st: MatState<N>, num: Float -> N)
    requires a != [] && a[|a| - 1] in MatrixDelimiters
    ensures ScanText(a + b, st, num) ==
      if ScanText(a, st, num).None? then None else ScanText(b, ScanText(a, st, num).value, num)
  {
    SplitInclusiveAppend(a, b, MatrixDelimiters);
    ScanAppend(Pieces(a), Pieces(b), st, num);
  }

  lemma ScanOne<N>(piece: string, st: MatState<N>, num: Float -> N)
    ensures Scan([piece], st, num) == Step(piece, st, num)
  {
    ScanFirst([piece], st, num);
    assert [piece][1..] == [];
  }

  /** A lone delimiter moves the counters. */
  lemma ScanMarker<N>(c: char, st: MatState<N>, num: Float -> N)
    requires c in MatrixDelimiters
    ensures c == '[' ==> ScanText([c], st, num) == Bounded(st.(depth := st.depth + 1))
    ensures c == ']' ==> ScanText([c], st, num) == Bounded(st.(matId := st.matId + 1, depth := st.depth - 1))
    ensures c == ';' ==> ScanText([c], st, num) == if st.depth != 1 then None else Bounded(st.(commaId := st.commaId + 1))
    ensures c == ',' ==> ScanText([c], st, num) == Bounded(st)
  {
    var none: string := [];
    SplitInclusiveOne(none, c, MatrixDelimiters);
    assert none + [c] == [c];
    TrimSolid(c);
    ScanOne([c], st, num);
    assert [c][..0] == [];
    StepOfMarker([c], st, num);
  }

  /** Reading `a + b`, once reading `a` is known to reach `mid`. */
  lemma ScanThen<N>(a: string, b: string, st: MatState<N>, mid: MatState<N>, num: Float -> N)
    requires a != [] && a[|a| - 1] in MatrixDelimiters
    requires ScanText(a, st, num) == Some(mid)
    ensures ScanText(a + b, st, num) == ScanText(b, mid, num)
  {
    ScanJoin(a, b, st, num);
  }

  lemma OpenOne<N>(st: MatState<N>, num: Float -> N)
    requires 0 <= st.depth <= 1
    ensures ScanText(['['], st, num) == Some(st.(depth := st.depth + 1))
  {
    ScanMarker('[', st, num);
  }

  lemma CloseOne<N>(st: MatState<N>, num: Float -> N)
    requires st.depth == 1
    ensures ScanText([']'], st, num) == Some(st.(matId := st.matId + 1, depth := 0))
  {
    ScanMarker(']', st, num);
  }

  lemma SemiOne<N>(st: MatState<N>, num: Float -> N)
    requires st.depth == 1
    ensures ScanText([';'], st, num) == Some(st.(commaId := st.commaId + 1))
  {
    ScanMarker(';', st, num);
  }

  /** The text facts about a cell's piece: it is one piece, it does not trim to a lone
      delimiter, and what precedes its last character is the cell's text. */
  lemma CellPiece(c: string, d: char)
    requires Plain(c) && (d == ',' || d == ']')
    ensures Pieces(c + [d]) == [c + [d]]
    ensures |Trim(c + [d])| >= 2
    ensures (c + [d])[..|c|] == c && (c + [d])[|c|] == d
  {
    var piece := c + [d];
    SplitInclusiveOne(c, d, MatrixDelimiters);
    var i :| 0 <= i < |c| && !IsWhitespace(c[i]);
    assert piece[i] == c[i] && piece[|c|] == d;
    TrimKeepsTwo(piece, i, |c|);
  }

  /** A cell's text followed by `,` or `]` is read as that cell and placed. */
  lemma ScanCell<N>(c: string, d: char, st: MatState<N>, num: Float -> N)
    requires Plain(c) && (d == ',' || d == ']')
    ensures ScanText(c + [d], st, num) ==
      if Cell(c, num).Ok? then Place(st, Cell(c, num).value, d) else None
  {
    CellPiece(c, d);
    ScanOne(c + [d], st, num);
    StepOfCell(c + [d], st, num);
  }

  /** A legal cell at depth 2 followed by `]` is pushed onto row `mat_id`, which it
      closes. */
  lemma ScanCellClose<N>(c: string, st: MatState<N>, num: Float -> N)
    requires Plain(c) && Cell(c, num).Ok?
    requires st.depth == 2 && st.matId == st.commaId
    ensures ScanText(c + [']'], st, num) ==
      Some(MatState(1, st.matId + 1, st.commaId, PushCell(st.mat, st.matId, Cell(c, num).value)))
  {
    ScanCell(c, ']', st, num);
    PlaceLegal(st, Cell(c, num).value, ']');
  }

  /** A legal cell at depth 2 followed by `,` is pushed onto row `mat_id`, which stays
      open. */
  lemma ScanCellComma<N>(c: string, st: MatState<N>, num: Float -> N)
    requires Plain(c) && Cell(c, num).Ok?
    requires st.depth == 2 && st.matId == st.commaId
    ensures ScanText(c + [','], st, num) ==
      Some(MatState(2, st.matId, st.commaId, PushCell(st.mat, st.matId, Cell(c, num).value)))
  {
    ScanCell(c, ',', st, num);
    PlaceLegal(st, Cell(c, num).value, ',');
  }

  /** A cell pushed while `mat_id` names the last row is appended to that row. */
  lemma PushOntoLast<N>(m: seq<seq<Operator<N>>>, partial: seq<Operator<N>>, v: Operator<N>)
    ensures PushCell(m + [partial], |m|, v) == m + [partial + [v]]
  {
    var r := PushCell(m + [partial], |m|, v);
    assert |r| == |m| + 1;
    forall k | 0 <= k < |r| ensures r[k] == (m + [partial + [v]])[k] {
    }
  }

  /** A cell pushed while `mat_id` is past the last row starts a new row. */
  lemma PushNewRow<N>(m: seq<seq<Operator<N>>>, v: Operator<N>)
    ensures PushCell(m, |m|, v) == m + [[v]]
  {
  }

  /** The last cell of a row, followed by `]`, ends row `|m|`. */
  lemma RowTailLast<N>(cells: seq<string>, vals: seq<Operator<N>>, m: seq<seq<Operator<N>>>, partial: seq<Operator<N>>, num: Float -> N)
    requires |cells| == 1 && Reads(cells, vals, num)
    ensures ScanText(RowTail(cells), MatState(2, |m|, |m|, m + [partial]), num) ==
      Some(MatState(1, |m| + 1, |m|, m + [partial + vals]))
  {
    var st := MatState(2, |m|, |m|, m + [partial]);
    var v := vals[0];
    var after := MatState(1, |m| + 1, |m|, m + [partial + [v]]);
    PushOntoLast(m, partial, v);
    assert MatState(1, st.matId + 1, st.commaId, PushCell(st.mat, st.matId, v)) == after;
    ScanCellClose(cells[0], st, num);
    assert ScanText(cells[0] + [']'], st, num) == Some(after);
    assert RowTail(cells) == cells[0] + [']'];
    Single(partial, vals);
  }

  /** A cell followed by `,` is appended to row `|m|`, which stays open. */
  lemma RowTailNext<N>(cells: seq<string>, vals: seq<Operator<N>>, tail: seq<string>, vtail: seq<Operator<N>>,
                       m: seq<seq<Operator<N>>>, partial: seq<Operator<N>>, num: Float -> N)
    requires |cells| > 1 && Reads(cells, vals, num) && tail == cells[1..] && vtail == vals[1..]
    ensures |cells| == |vals| && Reads(tail, vtail, num)
    ensures ScanText(RowTail(cells), MatState(2, |m|, |m|, m + [partial]), num) ==
      ScanText(RowTail(tail), MatState(2, |m|, |m|, m + [partial + [vals[0]]]), num)
  {
    ReadsHead(cells, vals, num);
    var c, v := cells[0], vals[0];
    var st := MatState(2, |m|, |m|, m + [partial]);
    var mid := MatState(2, |m|, |m|, m + [partial + [v]]);
    PushOntoLast(m, partial, v);
    assert MatState(2, st.matId, st.commaId, PushCell(st.mat, st.matId, v)) == mid;
    ScanCellComma(c, st, num);
    var rest := RowTail(tail);
    ScanJoin(c + [','], rest, st, num);
    RowTailCons(cells, tail);
  }

  /** The first cell's text, a `,` and the text of the other cells. */
  lemma RowTailCons(cells: seq<string>, tail: seq<string>)
    requires |cells| > 1 && tail == cells[1..]
    ensures RowTail(cells) == cells[0] + [','] + RowTail(tail)
  {
  }

  lemma ReadsHead<N>(cells: seq<string>, vals: seq<Operator<N>>, num: Float -> N)
    requires cells != [] && Reads(cells, vals, num)
    ensures |cells| == |vals| && Plain(cells[0]) && Cell(cells[0], num) == Ok(vals[0])
    ensures Reads(cells[1..], vals[1..], num)
  {
  }

  /** The cells after the first, from depth 2 inside row `|m|`, which holds `partial`:
      they are appended to that row, and the closing `]` ends it. */
  lemma {:induction false} RowTailScan<N>(cells: seq<string>, vals: seq<Operator<N>>, m: seq<seq<Operator<N>>>, partial: seq<Operator<N>>, num: Float -> N)
    requires cells != [] && Reads(cells, vals, num)
    ensures ScanText(RowTail(cells), MatState(2, |m|, |m|, m + [partial]), num) ==
      Some(MatState(1, |m| + 1, |m|, m + [partial + vals]))
    decreases |cells|
  {
    if |cells| == 1 {
      RowTailLast(cells, vals, m, partial, num);
    } else {
      var tail, vtail, more := cells[1..], vals[1..], partial + [vals[0]];
      RowTailNext(cells, vals, tail, vtail, m, partial, num);
      RowTailScan(tail, vtail, m, more, num);
      Unroll(vals, [], partial);
      assert more + vtail == partial + vals;
      var st, mid := MatState(2, |m|, |m|, m + [partial]), MatState(2, |m|, |m|, m + [more]);
      var last := MatState(1, |m| + 1, |m|, m + [partial + vals]);
      assert ScanText(RowTail(cells), st, num) == ScanText(RowTail(tail), mid, num);
      assert MatState(1, |m| + 1, |m|, m + [more + vtail]) == last;
      assert ScanText(RowTail(tail), mid, num) == Some(last);
    }
  }

  /** A whole row, from depth 1 once `|m|` rows are done: it becomes row `|m|`. */
  lemma RowScan<N>(cells: seq<string>, vals: seq<Operator<N>>, m: seq<seq<Operator<N>>>, num: Float -> N)
    requires cells != [] && Reads(cells, vals, num)
    ensures ScanText(RowText(cells), MatState(1, |m|, |m|, m), num) ==
      Some(MatState(1, |m| + 1, |m|, m + [vals]))
  {
    var st := MatState(1, |m|, |m|, m);
    var inside := MatState(2, |m|, |m|, m);
    ScanMarker('[', st, num);
    assert ScanText(['['], st, num) == Some(inside);
    ScanJoin(['['], RowTail(cells), st, num);
    assert ScanText(RowText(cells), st, num) == ScanText(RowTail(cells), inside, num);
    RowStart(cells, vals, m, num);
  }

  /** The first cell of a row opens row `|m|`. */
  lemma RowStart<N>(cells: seq<string>, vals: seq<Operator<N>>, m: seq<seq<Operator<N>>>, num: Float -> N)
    requires cells != [] && Reads(cells, vals, num)
    ensures ScanText(RowTail(cells), MatState(2, |m|, |m|, m), num) ==
      Some(MatState(1, |m| + 1, |m|, m + [vals]))
  {
    var st := MatState(2, |m|, |m|, m);
    var v := vals[0];
    PushNewRow(m, v);
    if |cells| == 1 {
      var after := MatState(1, |m| + 1, |m|, m + [[v]]);
      assert MatState(1, st.matId + 1, st.commaId, PushCell(st.mat, st.matId, v)) == after;
      ScanCellClose(cells[0], st, num);
      assert RowTail(cells) == cells[0] + [']'];
      Single([], vals);
      Units([v]);
      Units(vals);
    } else {
      var tail, vtail := cells[1..], vals[1..];
      ReadsHead(cells, vals, num);
      var mid := MatState(2, |m|, |m|, m + [[v]]);
      assert MatState(2, st.matId, st.commaId, PushCell(st.mat, st.matId, v)) == mid;
      ScanCellComma(cells[0], st, num);
      var rest := RowTail(tail);
      ScanJoin(cells[0] + [','], rest, st, num);
      RowTailCons(cells, tail);
      RowTailScan(tail, vtail, m, [v], num);
      Uncons(vals);
      var last := MatState(1, |m| + 1, |m|, m + [vals]);
      assert MatState(1, |m| + 1, |m|, m + [[v] + vtail]) == last;
      assert ScanText(rest, mid, num) == Some(last);
    }
  }

  /** The rows, from depth 1 once `|m|` rows are done: each is appended, and each `;`
      between two rows is legal at depth 1. */
  lemma {:induction false} RowsScan<N>(rows: seq<seq<string>>, vals: seq<seq<Operator<N>>>, m: seq<seq<Operator<N>>>, num: Float -> N)
    requires rows != [] && NoEmptyRow(rows) && ReadsRows(rows, vals, num)
    ensures ScanText(RowsText(rows), MatState(1, |m|, |m|, m), num) ==
      Some(MatState(1, |m| + |rows|, |m| + |rows| - 1, m + vals))
    decreases |rows|
  {
    if |rows| == 1 {
      RowsOne(rows, vals, m, num);
    } else {
      var tail, vtail, done := rows[1..], vals[1..], m + [vals[0]];
      RowsNext(rows, vals, tail, vtail, m, num);
      RowsScan(tail, vtail, done, num);
      RowsGlue(m, vals, vtail, |rows|, |tail|);
      assert MatState(1, |done| + |tail|, |done| + |tail| - 1, done + vtail) ==
        MatState(1, |m| + |rows|, |m| + |rows| - 1, m + vals);
    }
  }

  /** A single row. */
  lemma RowsOne<N>(rows: seq<seq<string>>, vals: seq<seq<Operator<N>>>, m: seq<seq<Operator<N>>>, num: Float -> N)
    requires |rows| == 1 && NoEmptyRow(rows) && ReadsRows(rows, vals, num)
    ensures ScanText(RowsText(rows), MatState(1, |m|, |m|, m), num) ==
      Some(MatState(1, |m| + 1, |m|, m + vals))
  {
    ReadsRowsHead(rows, vals, num);
    RowScan(rows[0], vals[0], m, num);
    Single(m, vals);
    assert RowsText(rows) == RowText(rows[0]);
  }

  /** The counters and rows after the first row and those after the rest agree. */
  lemma RowsGlue<N>(m: seq<seq<Operator<N>>>, vals: seq<seq<Operator<N>>>, vtail: seq<seq<Operator<N>>>, n: nat, k: nat)
    requires vals != [] && vtail == vals[1..] && n == |vals| && k + 1 == n
    ensures var done := m + [vals[0]];
      MatState(1, |done| + k, |done| + k - 1, done + vtail) == MatState(1, |m| + n, |m| + n - 1, m + vals)
  {
    Unroll(vals, [], m);
  }

  /** The first row and the `;` after it. */
  lemma RowsNext<N>(rows: seq<seq<string>>, vals: seq<seq<Operator<N>>>, tail: seq<seq<string>>, vtail: seq<seq<Operator<N>>>,
                    m: seq<seq<Operator<N>>>, num: Float -> N)
    requires |rows| > 1 && NoEmptyRow(rows) && ReadsRows(rows, vals, num) && tail == rows[1..] && vtail == vals[1..]
    ensures |rows| == |vals| && NoEmptyRow(tail) && ReadsRows(tail, vtail, num)
    ensures var done := m + [vals[0]];
      ScanText(RowsText(rows), MatState(1, |m|, |m|, m), num) == ScanText(RowsText(tail), MatState(1, |done|, |done|, done), num)
  {
    RowsCons(rows);
    ReadsRowsHead(rows, vals, num);
    var row := RowText(rows[0]);
    var rest := RowsText(tail);
    RowScan(rows[0], vals[0], m, num);
    var done := m + [vals[0]];
    assert MatState(1, |m| + 1, |m| + 1, done) == MatState(1, |done|, |done|, done);
    SemicolonThen(row, rest, MatState(1, |m|, |m|, m), MatState(1, |m| + 1, |m|, done), num);
  }

  /** The first row's text, a `;` and the text of the others. */
  lemma RowsCons(rows: seq<seq<string>>)
    requires |rows| > 1 && NoEmptyRow(rows)
    ensures NoEmptyRow(rows[1..])
    ensures RowsText(rows) == RowText(rows[0]) + [';'] + RowsText(rows[1..])
  {
    forall k | 0 <= k < |rows| - 1 ensures rows[1..][k] != [] {
      assert rows[1..][k] == rows[k + 1];
    }
  }

  lemma ReadsRowsHead<N>(rows: seq<seq<string>>, vals: seq<seq<Operator<N>>>, num: Float -> N)
    requires rows != [] && ReadsRows(rows, vals, num)
    ensures Reads(rows[0], vals[0], num) && ReadsRows(rows[1..], vals[1..], num)
  {
  }

  /** Rows that are read are not empty. */
  lemma {:induction false} ReadsRowsNoEmpty<N>(rows: seq<seq<string>>, vals: seq<seq<Operator<N>>>, num: Float -> N)
    requires ReadsRows(rows, vals, num)
    ensures NoEmptyRow(rows)
    decreases |rows|
  {
    if rows != [] {
      ReadsRowsNoEmpty(rows[1..], vals[1..], num);
      forall k | 0 <= k < |rows| ensures rows[k] != [] {
        if k > 0 { assert rows[k] == rows[1..][k - 1]; }
      }
    }
  }

  /** A finished row, a `;`, and what follows. */
  lemma SemicolonThen<N>(row: string, rest: string, st: MatState<N>, done: MatState<N>, num: Float -> N)
    requires row != [] && row[|row| - 1] == ']'
    requires ScanText(row, st, num) == Some(done) && done.depth == 1
    ensures ScanText(row + [';'] + rest, st, num) == ScanText(rest, done.(commaId := done.commaId + 1), num)
  {
    RowSemicolon(row, st, done, num);
    ScanThen(row + [';'], rest, st, done.(commaId := done.commaId + 1), num);
  }

  /** A finished row followed by `;`. */
  lemma RowSemicolon<N>(row: string, st: MatState<N>, done: MatState<N>, num: Float -> N)
    requires row != [] && row[|row| - 1] == ']'
    requires ScanText(row, st, num) == Some(done) && done.depth == 1
    ensures ScanText(row + [';'], st, num) == Some(done.(commaId := done.commaId + 1))
  {
    ScanThen(row, [';'], st, done, num);
    SemiOne(done, num);
  }

  /** The rows and the final `]`, from depth 1 with no row done. */
  lemma ScanBody<N>(rows: seq<seq<string>>, vals: seq<seq<Operator<N>>>, num: Float -> N)
    requires rows != [] && ReadsRows(rows, vals, num)
    ensures NoEmptyRow(rows)
    ensures ScanText(RowsText(rows) + [']'], MatState(1, 0, 0, []), num) ==
      Some(MatState(0, |rows| + 1, |rows| - 1, vals))
  {
    var none: seq<seq<Operator<N>>> := [];
    ReadsRowsNoEmpty(rows, vals, num);
    RowsScan(rows, vals, none, num);
    var body := RowsText(rows);
    var inRows := MatState(1, 0, 0, none);
    var done := MatState(1, |rows|, |rows| - 1, vals);
    Units(vals);
    assert MatState(1, |none| + |rows|, |none| + |rows| - 1, none + vals) == done;
    assert MatState(1, |none|, |none|, none) == inRows;
    assert ScanText(RowsText(rows), MatState(1, |none|, |none|, none), num) == Some(done);
    assert ScanText(body, inRows, num) == Some(done);
    ScanThen(body, [']'], inRows, done, num);
    CloseOne(done, num);
  }

  /** A whole literal takes the loop from the start to depth 0 with every row read. */
  lemma ScanMatrixText<N>(rows: seq<seq<string>>, vals: seq<seq<Operator<N>>>, num: Float -> N)
    requires rows != [] && ReadsRows(rows, vals, num)
    ensures NoEmptyRow(rows)
    ensures ScanText(MatrixText(rows), Start(), num) == Some(MatState(0, |rows| + 1, |rows| - 1, vals))
  {
    ScanBody(rows, vals, num);
    MatrixTextSplit(rows);
    OpenThen(RowsText(rows) + [']'], MatState(0, |rows| + 1, |rows| - 1, vals), num);
  }

  lemma MatrixTextSplit(rows: seq<seq<string>>)
    requires rows != [] && NoEmptyRow(rows)
    ensures MatrixText(rows) == ['['] + (RowsText(rows) + [']'])
  {
  }

  /** The opening `[` of a literal enters its rows. */
  lemma OpenThen<N>(body: string, done: MatState<N>, num: Float -> N)
    requires ScanText(body, MatState(1, 0, 0, []), num) == Some(done)
    ensures ScanText(['['] + body, Start(), num) == Some(done)
  {
    var start: MatState<N> := Start();
    OpenOne(start, num);
    assert start.(depth := 1) == MatState(1, 0, 0, []);
    ScanThen(['['], body, start, MatState(1, 0, 0, []), num);
  }

  /** `parse_mat` ends with the checks of `Finish` on the state its loop reaches. */
  lemma MatrixOfScan<N>(value: string, st: MatState<N>, num: Float -> N)
    requires ScanText(value, Start(), num) == Some(st)
    ensures MatrixOf(value, num) == Finish(st)
  {
  }

  /** `parse_mat` reads every literal written from cell texts back as the values of
      those cells, and accepts it exactly when its rows are equally wide. */
  lemma MatrixOfText<N>(rows: seq<seq<string>>, vals: seq<seq<Operator<N>>>, num: Float -> N)
    requires rows != [] && ReadsRows(rows, vals, num)
    ensures NoEmptyRow(rows)
    ensures MatrixOf(MatrixText(rows), num) == if SameWidth(vals) then Some(Mat(vals)) else None
  {
    ScanMatrixText(rows, vals, num);
    MatrixOfScan(MatrixText(rows), MatState(0, |rows| + 1, |rows| - 1, vals), num);
    RaggedMeansUnequalWidths(vals);
  }
}
