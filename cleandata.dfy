/** `clean_data`: de-duplication of the frame by cocktail name, filling of
    missing cells with the empty text, and the `combined_text` column whose
    embedding stands for each cocktail. */
module CleanData {
  import opened Text
  import opened Rows

  /** A cell as `read_csv` produces it: text, or NaN for a missing value. */
  datatype Cell = NaN | Value(text: string)

  /** A row before cleaning: column name to cell. */
  type RawRow = map<string, Cell>

  /** The frame: its columns in file order and its rows in file order. */
  datatype Frame = Frame(columns: seq<string>, rows: seq<RawRow>)

  /** The cell of `row` in column `col`; a column the row lacks reads as NaN. */
  function CellAt(row: RawRow, col: string): Cell {
    if col in row then row[col] else NaN
  }

  /** `df.columns` as a set, for the `col in df.columns` tests. */
  function ColumnSet(columns: seq<string>): set<string> {
    set c | c in columns
  }

  /** The column that receives the text to embed. */
  const CombinedColumn: string := "combined_text"

  // ---------------------------------------------------------------------------
  // drop_duplicates

  /** Row `i` is the first whose `col` cell equals its own; as in pandas, NaN
      equals NaN here. */
  predicate FirstOfName(rows: seq<RawRow>, col: string, i: nat)
    requires i < |rows|
  {
    forall j :: 0 <= j < i ==> CellAt(rows[j], col) != CellAt(rows[i], col)
  }

  /** `drop_duplicates(subset=[col])`: the rows that are the first of their
      name, in their original order. */
  function DropDuplicates(rows: seq<RawRow>, col: string): (r: seq<RawRow>)
    ensures |r| <= |rows|
  {
    if rows == [] then []
    else
      var n := |rows| - 1;
      DropDuplicates(rows[..n], col) + (if FirstOfName(rows, col, n) then [rows[n]] else [])
  }

  /** The names (cells of column `col`) that occur in `rows`. */
  function Names(rows: seq<RawRow>, col: string): set<Cell> {
    set x | x in rows :: CellAt(x, col)
  }

  /** The rows left after de-duplication: all of them when the frame has no
      name column. */
  function Deduplicated(f: Frame): seq<RawRow> {
    var cols := ColumnSet(f.columns);
    if NameColumn(cols) in cols then DropDuplicates(f.rows, NameColumn(cols)) else f.rows
  }

  // ---------------------------------------------------------------------------
  // fillna and the combined text

  /** `fillna("")` of one cell. */
  function Fill(c: Cell): string {
    match c
    case NaN => ""
    case Value(t) => t
  }

  /** `fillna("")` of one row: every column of the frame, NaN read as "". */
  function FillNa(row: RawRow, columns: seq<string>): Row {
    map c | c in ColumnSet(columns) :: Fill(CellAt(row, c))
  }

  /** `[col for col in df.columns if col.startswith('strIngredient')]`. */
  function IngredientColumns(columns: seq<string>): (r: seq<string>)
    ensures forall k :: 0 <= k < |r| ==> StartsWith(r[k], "strIngredient") && r[k] in columns
    ensures forall c :: c in columns && StartsWith(c, "strIngredient") ==> c in r
  {
    if columns == [] then []
    else
      var n := |columns| - 1;
      assert forall c :: c in columns ==> c in columns[..n] || c == columns[n];
      IngredientColumns(columns[..n]) + (if StartsWith(columns[n], "strIngredient") then [columns[n]] else [])
  }

  /** The positions, in increasing order, of the frame's `strIngredient*` columns. */
  function IngredientPositions(columns: seq<string>): seq<nat> {
    if columns == [] then []
    else
      var n := |columns| - 1;
      IngredientPositions(columns[..n]) + (if StartsWith(columns[n], "strIngredient") then [n] else [])
  }

  /** The selected columns are exactly the frame's `strIngredient*` columns,
      each taken once per occurrence and in frame order: the `k`-th selected
      column is the column at the `k`-th matching position. */
  lemma {:induction false} IngredientColumnsInOrder(columns: seq<string>)
    ensures var r, pos := IngredientColumns(columns), IngredientPositions(columns);
      |pos| == |r|
      && (forall k :: 0 <= k < |pos| ==> pos[k] < |columns| && columns[pos[k]] == r[k])
      && (forall k, l :: 0 <= k < l < |pos| ==> pos[k] < pos[l])
      && (forall i :: 0 <= i < |columns| ==> (StartsWith(columns[i], "strIngredient") <==> i in pos))
  {
    if columns != [] {
      var n := |columns| - 1;
      var init := columns[..n];
      IngredientColumnsInOrder(init);
      var r0, pos0 := IngredientColumns(init), IngredientPositions(init);
      assert forall k :: 0 <= k < |pos0| ==> pos0[k] < n;
      if StartsWith(columns[n], "strIngredient") {
        PositionsSnoc(columns, r0 + [columns[n]], pos0 + [n], r0, pos0);
      } else {
        PositionsSnoc(columns, r0, pos0, r0, pos0);
      }
    }
  }

  lemma PositionsSnoc(columns: seq<string>, r: seq<string>, pos: seq<nat>, r0: seq<string>, pos0: seq<nat>)
    requires columns != []
    requires var n := |columns| - 1;
      |pos0| == |r0|
      && (forall k :: 0 <= k < |pos0| ==> pos0[k] < n && columns[..n][pos0[k]] == r0[k])
      && (forall k, l :: 0 <= k < l < |pos0| ==> pos0[k] < pos0[l])
      && (forall i :: 0 <= i < n ==> (StartsWith(columns[..n][i], "strIngredient") <==> i in pos0))
    requires var n := |columns| - 1;
      if StartsWith(columns[n], "strIngredient") then r == r0 + [columns[n]] && pos == pos0 + [n]
      else r == r0 && pos == pos0
    ensures |pos| == |r|
      && (forall k :: 0 <= k < |pos| ==> pos[k] < |columns| && columns[pos[k]] == r[k])
      && (forall k, l :: 0 <= k < l < |pos| ==> pos[k] < pos[l])
      && (forall i :: 0 <= i < |columns| ==> (StartsWith(columns[i], "strIngredient") <==> i in pos))
  {
    var n := |columns| - 1;
    assert forall i :: 0 <= i < n ==> columns[..n][i] == columns[i];
    assert n !in pos0;
  }

  /** The one-column list `[c]` when the frame has column `c`. */
  function Present(cols: set<string>, c: string): seq<string> {
    if c in cols then [c] else []
  }

  /** The columns whose text goes into `combined_text`, in the order the code
      appends them: name, category, alcoholic, glass, then `ingredients` or
      every `strIngredient*` column, then instructions. */
  function CombinedColumns(columns: seq<string>): seq<string> {
    var cols := ColumnSet(columns);
    Present(cols, NameColumn(cols)) + Present(cols, CategoryColumn(cols))
    + Present(cols, AlcoholicColumn(cols)) + Present(cols, GlassColumn(cols))
    + (if "ingredients" in cols then ["ingredients"] else IngredientColumns(columns))
    + Present(cols, InstructionsColumn(cols))
  }

  /** The text of each field followed by a space, field after field. */
  function RawCombined(row: Row, fields: seq<string>): string {
    if fields == [] then ""
    else RawCombined(row, fields[..|fields| - 1]) + Get(row, fields[|fields| - 1]) + " "
  }

  /** One row of the cleaned frame: filled, with its whitespace-collapsed
      combined text added. */
  function CleanRow(raw: RawRow, columns: seq<string>): Row {
    var row := FillNa(raw, columns);
    row[CombinedColumn := NormalizeSpace(RawCombined(row, CombinedColumns(columns)))]
  }

  /** The rows of the frame `clean_data` returns when the input has rows. */
  function Cleaned(f: Frame): seq<Row> {
    var kept := Deduplicated(f);
    seq(|kept|, i requires 0 <= i < |kept| => CleanRow(kept[i], f.columns))
  }

  /** `df['combined_text'] += df[col].astype(str) + ' '`. */
  function AppendColumn(texts: seq<string>, rows: seq<Row>, col: string): (r: seq<string>)
    requires |texts| == |rows|
    ensures |r| == |rows|
  {
    seq(|rows|, i requires 0 <= i < |rows| => texts[i] + Get(rows[i], col) + " ")
  }

  /** Every row's text so far is the combined text of `fields`. */
  ghost predicate TextsAre(texts: seq<string>, rows: seq<Row>, fields: seq<string>) {
    |texts| == |rows| && forall i :: 0 <= i < |rows| ==> texts[i] == RawCombined(rows[i], fields)
  }

  lemma AppendColumnStep(texts: seq<string>, rows: seq<Row>, fields: seq<string>, col: string)
    requires TextsAre(texts, rows, fields)
    ensures TextsAre(AppendColumn(texts, rows, col), rows, fields + [col])
  {
    assert (fields + [col])[..|fields|] == fields;
  }

  /** `if col in df.columns: df['combined_text'] += df[col].astype(str) + ' '`. */
  method AppendIfPresent(texts: seq<string>, rows: seq<Row>, cols: set<string>, col: string, ghost fields: seq<string>)
    returns (r: seq<string>)
    requires TextsAre(texts, rows, fields)
    ensures TextsAre(r, rows, fields + Present(cols, col))
  {
    r := texts;
    if col in cols {
      AppendColumnStep(texts, rows, fields, col);
      r := AppendColumn(texts, rows, col);
    } else {
      assert fields + Present(cols, col) == fields;
    }
  }

  /** `for col in ingredient_cols: df['combined_text'] += df[col].astype(str) + ' '`. */
  method AppendColumns(texts: seq<string>, rows: seq<Row>, cols: seq<string>, ghost fields: seq<string>)
    returns (r: seq<string>)
    requires TextsAre(texts, rows, fields)
    ensures TextsAre(r, rows, fields + cols)
  {
    r := texts;
    assert fields + cols[..0] == fields;
    for k := 0 to |cols|
      invariant TextsAre(r, rows, fields + cols[..k])
    {
      AppendColumnStep(r, rows, fields + cols[..k], cols[k]);
      assert fields + cols[..k] + [cols[k]] == fields + cols[..k + 1];
      r := AppendColumn(r, rows, cols[k]);
    }
    assert cols[..|cols|] == cols;
  }

  /** The statements of `clean_data` that build `combined_text`, before its
      whitespace is collapsed. */
  method CombineTexts(filled: seq<Row>, columns: seq<string>) returns (texts: seq<string>)
    ensures TextsAre(texts, filled, CombinedColumns(columns))
  {
    var cols := ColumnSet(columns);
    var nameCol, categoryCol, alcoholicCol := NameColumn(cols), CategoryColumn(cols), AlcoholicColumn(cols);
    var glassCol, instructionsCol := GlassColumn(cols), InstructionsColumn(cols);
    texts := seq(|filled|, _ => "");
    texts := AppendIfPresent(texts, filled, cols, nameCol, []);
    ghost var fields := Present(cols, nameCol);
    assert [] + fields == fields;
    texts := AppendIfPresent(texts, filled, cols, categoryCol, fields);
    fields := fields + Present(cols, categoryCol);
    texts := AppendIfPresent(texts, filled, cols, alcoholicCol, fields);
    fields := fields + Present(cols, alcoholicCol);
    texts := AppendIfPresent(texts, filled, cols, glassCol, fields);
    fields := fields + Present(cols, glassCol);
    if "ingredients" in cols {
      texts := AppendColumns(texts, filled, ["ingredients"], fields);
      fields := fields + ["ingredients"];
    } else {
      var ingredientCols := IngredientColumns(columns);
      texts := AppendColumns(texts, filled, ingredientCols, fields);
      fields := fields + ingredientCols;
    }
    texts := AppendIfPresent(texts, filled, cols, instructionsCol, fields);
  }

  /** What `clean_data` hands back: the cleaned frame, or the `IndexError`
      raised when it prints a sample of the first combined text and the frame
      has no rows. */
  datatype Cleaning = Clean(rows: seq<Row>) | NoRowsError

  /** `clean_data(df)`. */
  method CleanData(f: Frame) returns (r: Cleaning)
    ensures r.NoRowsError? <==> f.rows == []
    ensures r.Clean? ==> r.rows == Cleaned(f)
  {
    var cols := ColumnSet(f.columns);
    var nameCol := NameColumn(cols);
    var kept := f.rows;
    if nameCol in cols {
      kept := DropDuplicates(kept, nameCol);
    }
    var filled := seq(|kept|, i requires 0 <= i < |kept| => FillNa(kept[i], f.columns));
    var texts := CombineTexts(filled, f.columns);
    var rows := seq(|filled|, i requires 0 <= i < |filled| => filled[i][CombinedColumn := NormalizeSpace(texts[i])]);
    CleanDataResult(f, kept, filled, texts, rows);
    CleanedEmptyIff(f);
    if |rows| == 0 {
      return NoRowsError;
    }
    return Clean(rows);
  }

  /** The last step of `CleanData`: the rows it built are the cleaned frame. */
  lemma CleanDataResult(f: Frame, kept: seq<RawRow>, filled: seq<Row>, texts: seq<string>, rows: seq<Row>)
    requires kept == Deduplicated(f)
    requires |filled| == |kept| && forall i :: 0 <= i < |kept| ==> filled[i] == FillNa(kept[i], f.columns)
    requires TextsAre(texts, filled, CombinedColumns(f.columns))
    requires |rows| == |filled| && forall i :: 0 <= i < |filled| ==> rows[i] == filled[i][CombinedColumn := NormalizeSpace(texts[i])]
    ensures rows == Cleaned(f)
  {
  }

  // ---------------------------------------------------------------------------
  // Lemmas

  lemma NamesSnoc(rows: seq<RawRow>, col: string)
    requires rows != []
    ensures Names(rows, col) == Names(rows[..|rows| - 1], col) + {CellAt(rows[|rows| - 1], col)}
  {
    var n := |rows| - 1;
    assert rows == rows[..n] + [rows[n]];
    forall x | x in rows ensures x in rows[..n] || x == rows[n] {
      var i :| 0 <= i < |rows| && rows[i] == x;
      if i < n { assert rows[..n][i] == x; }
    }
  }

  /** A row that is not the first of its name repeats a name already seen. */
  lemma NotFirstSeen(rows: seq<RawRow>, col: string)
    requires rows != [] && !FirstOfName(rows, col, |rows| - 1)
    ensures CellAt(rows[|rows| - 1], col) in Names(rows[..|rows| - 1], col)
  {
    var n := |rows| - 1;
    var j :| 0 <= j < n && CellAt(rows[j], col) == CellAt(rows[n], col);
    assert rows[..n][j] == rows[j];
  }

  /** A row that is the first of its name brings a name not seen before. */
  lemma FirstUnseen(rows: seq<RawRow>, col: string)
    requires rows != [] && FirstOfName(rows, col, |rows| - 1)
    ensures CellAt(rows[|rows| - 1], col) !in Names(rows[..|rows| - 1], col)
  {
    var n := |rows| - 1;
    forall x | x in rows[..n] ensures CellAt(x, col) != CellAt(rows[n], col) {
      var j :| 0 <= j < n && rows[..n][j] == x;
      assert rows[j] == x;
    }
  }

  lemma FirstOfNamePrefix(rows: seq<RawRow>, col: string, m: nat, i: nat)
    requires i < m <= |rows|
    ensures FirstOfName(rows[..m], col, i) <==> FirstOfName(rows, col, i)
  {
    assert forall j :: 0 <= j <= i ==> rows[..m][j] == rows[j];
  }

  lemma DropDuplicatesSnoc(rows: seq<RawRow>, col: string)
    requires rows != []
    ensures var n := |rows| - 1;
      DropDuplicates(rows, col) == DropDuplicates(rows[..n], col) + (if FirstOfName(rows, col, n) then [rows[n]] else [])
  {
  }

  /** De-duplication keeps every name of its input. */
  lemma {:induction false} DropDuplicatesNames(rows: seq<RawRow>, col: string)
    ensures Names(DropDuplicates(rows, col), col) == Names(rows, col)
  {
    if rows != [] {
      var n := |rows| - 1;
      var r0 := DropDuplicates(rows[..n], col);
      var r := DropDuplicates(rows, col);
      DropDuplicatesNames(rows[..n], col);
      NamesSnoc(rows, col);
      if FirstOfName(rows, col, n) {
        assert r == r0 + [rows[n]];
        NamesSnoc(r, col);
        assert r[..|r| - 1] == r0;
      } else {
        assert r == r0;
        NotFirstSeen(rows, col);
      }
    }
  }

  /** De-duplication leaves at least one row of a frame that has rows: the
      first row is always the first of its name. */
  lemma DropDuplicatesEmptyIff(rows: seq<RawRow>, col: string)
    ensures DropDuplicates(rows, col) == [] <==> rows == []
  {
    DropDuplicatesNames(rows, col);
    if rows != [] {
      assert CellAt(rows[0], col) in Names(rows, col);
    }
  }

  /** The cleaned frame is empty exactly when the input frame has no rows. */
  lemma CleanedEmptyIff(f: Frame)
    ensures Cleaned(f) == [] <==> f.rows == []
  {
    var cols := ColumnSet(f.columns);
    DropDuplicatesEmptyIff(f.rows, NameColumn(cols));
  }

  /** No two rows left by de-duplication share a name. */
  lemma {:induction false} DropDuplicatesUnique(rows: seq<RawRow>, col: string)
    ensures var r := DropDuplicates(rows, col);
      forall i, j :: 0 <= i < j < |r| ==> CellAt(r[i], col) != CellAt(r[j], col)
  {
    if rows != [] {
      var n := |rows| - 1;
      var r0 := DropDuplicates(rows[..n], col);
      var r := DropDuplicates(rows, col);
      DropDuplicatesUnique(rows[..n], col);
      DropDuplicatesSnoc(rows, col);
      if FirstOfName(rows, col, n) {
        assert r == r0 + [rows[n]];
        DropDuplicatesNames(rows[..n], col);
        FirstUnseen(rows, col);
        forall i, j | 0 <= i < j < |r| ensures CellAt(r[i], col) != CellAt(r[j], col) {
          assert r[i] == r0[i];
          if j < |r0| {
            assert r[j] == r0[j];
          } else {
            assert r[i] in r0;
          }
        }
      } else {
        assert r == r0;
      }
    }
  }

  /** `x` is the first row of `rows` with its name. */
  ghost predicate FirstRow(rows: seq<RawRow>, col: string, x: RawRow) {
    exists i :: 0 <= i < |rows| && rows[i] == x && FirstOfName(rows, col, i)
  }

  lemma FirstRowPrefix(rows: seq<RawRow>, col: string, x: RawRow)
    requires rows != [] && FirstRow(rows[..|rows| - 1], col, x)
    ensures FirstRow(rows, col, x)
  {
    var n := |rows| - 1;
    var i :| 0 <= i < n && rows[..n][i] == x && FirstOfName(rows[..n], col, i);
    FirstOfNamePrefix(rows, col, n, i);
    assert rows[i] == x;
  }

  /** Every row left by de-duplication is the first input row with its name. */
  lemma {:induction false} DropDuplicatesFirst(rows: seq<RawRow>, col: string)
    ensures var r := DropDuplicates(rows, col);
      forall k :: 0 <= k < |r| ==> FirstRow(rows, col, r[k])
  {
    if rows != [] {
      var n := |rows| - 1;
      var r0 := DropDuplicates(rows[..n], col);
      var r := DropDuplicates(rows, col);
      DropDuplicatesFirst(rows[..n], col);
      DropDuplicatesSnoc(rows, col);
      forall k | 0 <= k < |r| ensures FirstRow(rows, col, r[k]) {
        if k < |r0| {
          assert r[k] == r0[k];
          FirstRowPrefix(rows, col, r0[k]);
        } else {
          assert FirstOfName(rows, col, n) && r[k] == rows[n];
        }
      }
    }
  }

  /** The positions, in increasing order, of the rows that are the first of
      their name. */
  function FirstPositions(rows: seq<RawRow>, col: string): seq<nat> {
    if rows == [] then []
    else
      var n := |rows| - 1;
      FirstPositions(rows[..n], col) + (if FirstOfName(rows, col, n) then [n] else [])
  }

  /** De-duplication keeps exactly the first row of each name, once each and
      in input order: the `k`-th kept row is the input row at the `k`-th
      first-of-its-name position. */
  lemma {:induction false} DropDuplicatesInOrder(rows: seq<RawRow>, col: string)
    ensures var r, pos := DropDuplicates(rows, col), FirstPositions(rows, col);
      |pos| == |r|
      && (forall k :: 0 <= k < |pos| ==> pos[k] < |rows| && rows[pos[k]] == r[k])
      && (forall k, l :: 0 <= k < l < |pos| ==> pos[k] < pos[l])
      && (forall i :: 0 <= i < |rows| ==> (FirstOfName(rows, col, i) <==> i in pos))
  {
    if rows != [] {
      var n := |rows| - 1;
      var init := rows[..n];
      DropDuplicatesInOrder(init, col);
      var r0, pos0 := DropDuplicates(init, col), FirstPositions(init, col);
      assert forall k :: 0 <= k < |pos0| ==> pos0[k] < n;
      if FirstOfName(rows, col, n) {
        FirstPositionsSnoc(rows, col, DropDuplicates(rows, col), pos0 + [n], r0, pos0);
      } else {
        FirstPositionsSnoc(rows, col, DropDuplicates(rows, col), pos0, r0, pos0);
      }
    }
  }

  lemma FirstPositionsSnoc(rows: seq<RawRow>, col: string, r: seq<RawRow>, pos: seq<nat>, r0: seq<RawRow>, pos0: seq<nat>)
    requires rows != []
    requires var n := |rows| - 1;
      |pos0| == |r0|
      && (forall k :: 0 <= k < |pos0| ==> pos0[k] < n && rows[..n][pos0[k]] == r0[k])
      && (forall k, l :: 0 <= k < l < |pos0| ==> pos0[k] < pos0[l])
      && (forall i :: 0 <= i < n ==> (FirstOfName(rows[..n], col, i) <==> i in pos0))
    requires var n := |rows| - 1;
      if FirstOfName(rows, col, n) then r == r0 + [rows[n]] && pos == pos0 + [n]
      else r == r0 && pos == pos0
    ensures |pos| == |r|
      && (forall k :: 0 <= k < |pos| ==> pos[k] < |rows| && rows[pos[k]] == r[k])
      && (forall k, l :: 0 <= k < l < |pos| ==> pos[k] < pos[l])
      && (forall i :: 0 <= i < |rows| ==> (FirstOfName(rows, col, i) <==> i in pos))
  {
    var n := |rows| - 1;
    assert forall i :: 0 <= i < n ==> rows[..n][i] == rows[i];
    forall i | 0 <= i < n ensures FirstOfName(rows[..n], col, i) <==> FirstOfName(rows, col, i) {
      FirstOfNamePrefix(rows, col, n, i);
    }
    assert n !in pos0;
  }

  lemma RawCombinedSnoc(row: Row, fields: seq<string>, c: string)
    ensures RawCombined(row, fields + [c]) == RawCombined(row, fields) + Get(row, c) + " "
  {
    assert (fields + [c])[..|fields|] == fields;
  }

  lemma {:induction false} RawCombinedAppend(row: Row, a: seq<string>, b: seq<string>)
    ensures RawCombined(row, a + b) == RawCombined(row, a) + RawCombined(row, b)
  {
    if b != [] {
      var m := |b| - 1;
      RawCombinedAppend(row, a, b[..m]);
      assert (a + b)[..|a + b| - 1] == a + b[..m];
    } else {
      assert a + b == a;
    }
  }

  lemma FlatColumns(columns: seq<string>)
    requires "name" in columns && "category" in columns && "alcoholic" in columns
    requires "glassType" in columns && "ingredients" in columns && "instructions" in columns
    ensures CombinedColumns(columns) == ["name", "category", "alcoholic", "glassType", "ingredients", "instructions"]
  {
    var cols := ColumnSet(columns);
    assert "name" in cols && "category" in cols && "alcoholic" in cols;
    assert "glassType" in cols && "ingredients" in cols && "instructions" in cols;
    assert NameColumn(cols) == "name" && CategoryColumn(cols) == "category" && AlcoholicColumn(cols) == "alcoholic";
    assert GlassColumn(cols) == "glassType" && InstructionsColumn(cols) == "instructions";
  }

  /** Flat layout: the text to embed, before collapsing, is name, category,
      alcoholic type, glass, ingredients and instructions, each followed by a
      space. */
  lemma FlatCombinedOrder(row: Row, columns: seq<string>)
    requires "name" in columns && "category" in columns && "alcoholic" in columns
    requires "glassType" in columns && "ingredients" in columns && "instructions" in columns
    ensures RawCombined(row, CombinedColumns(columns))
         == Get(row, "name") + " " + Get(row, "category") + " " + Get(row, "alcoholic") + " "
          + Get(row, "glassType") + " " + Get(row, "ingredients") + " " + Get(row, "instructions") + " "
  {
    FlatColumns(columns);
    FlatText(row);
  }

  lemma FlatHead(row: Row)
    ensures RawCombined(row, ["name", "category", "alcoholic"])
         == Get(row, "name") + " " + Get(row, "category") + " " + Get(row, "alcoholic") + " "
  {
    var f1, f2 := ["name"], ["name", "category"];
    assert f1 == [] + ["name"] && f2 == f1 + ["category"] && ["name", "category", "alcoholic"] == f2 + ["alcoholic"];
    RawCombinedSnoc(row, [], "name");
    RawCombinedSnoc(row, f1, "category");
    RawCombinedSnoc(row, f2, "alcoholic");
  }

  lemma FlatText(row: Row)
    ensures RawCombined(row, ["name", "category", "alcoholic", "glassType", "ingredients", "instructions"])
         == Get(row, "name") + " " + Get(row, "category") + " " + Get(row, "alcoholic") + " "
          + Get(row, "glassType") + " " + Get(row, "ingredients") + " " + Get(row, "instructions") + " "
  {
    var f3 := ["name", "category", "alcoholic"];
    var f4, f5 := f3 + ["glassType"], f3 + ["glassType", "ingredients"];
    assert f5 == f4 + ["ingredients"];
    assert ["name", "category", "alcoholic", "glassType", "ingredients", "instructions"] == f5 + ["instructions"];
    FlatHead(row);
    RawCombinedSnoc(row, f3, "glassType");
    RawCombinedSnoc(row, f4, "ingredients");
    RawCombinedSnoc(row, f5, "instructions");
  }

  /** The columns of the numbered layout, with no flat column present. */
  predicate NumberedLayout(columns: seq<string>) {
    "strDrink" in columns && "strCategory" in columns && "strAlcoholic" in columns
    && "strGlass" in columns && "strInstructions" in columns
    && "name" !in columns && "category" !in columns && "alcoholic" !in columns
    && "glassType" !in columns && "ingredients" !in columns && "instructions" !in columns
  }

  lemma NumberedColumns(columns: seq<string>)
    requires NumberedLayout(columns)
    ensures CombinedColumns(columns)
         == ["strDrink", "strCategory", "strAlcoholic", "strGlass"] + IngredientColumns(columns) + ["strInstructions"]
  {
    var cols := ColumnSet(columns);
    assert "strDrink" in cols && "strCategory" in cols && "strAlcoholic" in cols;
    assert "strGlass" in cols && "strInstructions" in cols;
    assert "name" !in cols && "category" !in cols && "alcoholic" !in cols;
    assert "glassType" !in cols && "ingredients" !in cols && "instructions" !in cols;
    assert NameColumn(cols) == "strDrink" && CategoryColumn(cols) == "strCategory";
    assert AlcoholicColumn(cols) == "strAlcoholic";
    assert GlassColumn(cols) == "strGlass" && InstructionsColumn(cols) == "strInstructions";
  }

  lemma NumberedHead(row: Row)
    ensures RawCombined(row, ["strDrink", "strCategory", "strAlcoholic", "strGlass"])
         == Get(row, "strDrink") + " " + Get(row, "strCategory") + " " + Get(row, "strAlcoholic") + " "
          + Get(row, "strGlass") + " "
  {
    var f1, f2, f3 := ["strDrink"], ["strDrink", "strCategory"], ["strDrink", "strCategory", "strAlcoholic"];
    assert f1 == [] + ["strDrink"] && f2 == f1 + ["strCategory"] && f3 == f2 + ["strAlcoholic"];
    assert ["strDrink", "strCategory", "strAlcoholic", "strGlass"] == f3 + ["strGlass"];
    RawCombinedSnoc(row, [], "strDrink");
    RawCombinedSnoc(row, f1, "strCategory");
    RawCombinedSnoc(row, f2, "strAlcoholic");
    RawCombinedSnoc(row, f3, "strGlass");
  }

  /** Numbered layout: the text to embed, before collapsing, is drink,
      category, alcoholic type and glass, then every `strIngredient*` column in
      column order, then instructions, each followed by a space. */
  lemma NumberedCombinedOrder(row: Row, columns: seq<string>)
    requires NumberedLayout(columns)
    ensures RawCombined(row, CombinedColumns(columns))
         == Get(row, "strDrink") + " " + Get(row, "strCategory") + " " + Get(row, "strAlcoholic") + " "
          + Get(row, "strGlass") + " " + RawCombined(row, IngredientColumns(columns))
          + Get(row, "strInstructions") + " "
  {
    NumberedColumns(columns);
    var head := ["strDrink", "strCategory", "strAlcoholic", "strGlass"];
    var ings := IngredientColumns(columns);
    RawCombinedSnoc(row, head + ings, "strInstructions");
    RawCombinedAppend(row, head, ings);
    NumberedHead(row);
  }

  /** `fillna("")`: the row has exactly the frame's columns, every missing
      cell reads as the empty text and every other cell is unchanged. */
  lemma FillNaSpec(raw: RawRow, columns: seq<string>)
    ensures FillNa(raw, columns).Keys == ColumnSet(columns)
    ensures forall c :: c in columns ==>
              FillNa(raw, columns)[c] == (if CellAt(raw, c).NaN? then "" else CellAt(raw, c).text)
  {
  }

  /** A cleaned row's combined text has no whitespace at either end, only
      single spaces inside, the non-whitespace characters of its fields in
      field order, and collapsing it again changes nothing. */
  lemma CombinedTextSpec(raw: RawRow, columns: seq<string>)
    ensures CombinedColumn in CleanRow(raw, columns)
    ensures var t := CleanRow(raw, columns)[CombinedColumn];
      Trimmed(t) && Collapsed(t) && NormalizeSpace(t) == t
      && NonSpace(t) == NonSpace(RawCombined(FillNa(raw, columns), CombinedColumns(columns)))
  {
    NormalizeSpaceSpec(RawCombined(FillNa(raw, columns), CombinedColumns(columns)));
  }

  /** The words of the given fields, field after field. */
  function FieldWords(row: Row, fields: seq<string>): seq<string> {
    if fields == [] then []
    else FieldWords(row, fields[..|fields| - 1]) + Words(Get(row, fields[|fields| - 1]))
  }

  /** The space written after each field keeps the fields' words apart. */
  lemma {:induction false} RawCombinedWords(row: Row, fields: seq<string>)
    ensures Words(RawCombined(row, fields)) == FieldWords(row, fields)
    ensures RawCombined(row, fields) == [] || IsSpace(RawCombined(row, fields)[|RawCombined(row, fields)| - 1])
  {
    if fields != [] {
      var init := fields[..|fields| - 1];
      var v := Get(row, fields[|fields| - 1]);
      var prev := RawCombined(row, init);
      RawCombinedWords(row, init);
      assert RawCombined(row, fields) == prev + (v + " ");
      WordsAppend(prev, v + " ");
      WordsTrailingSpace(v);
    }
  }

  /** A cleaned row's combined text is the words of its fields, in field
      order, each separated from the next by one space. */
  lemma CombinedTextWords(raw: RawRow, columns: seq<string>)
    ensures var row := FillNa(raw, columns);
      CleanRow(raw, columns)[CombinedColumn] == Join(FieldWords(row, CombinedColumns(columns)), " ")
  {
    var row := FillNa(raw, columns);
    var text := RawCombined(row, CombinedColumns(columns));
    NormalizeSpaceWords(text);
    RawCombinedWords(row, CombinedColumns(columns));
  }

  /** Rows with pairwise distinct names are as many as their names. */
  lemma {:induction false} DistinctCount(rows: seq<RawRow>, col: string)
    requires forall i, j :: 0 <= i < j < |rows| ==> CellAt(rows[i], col) != CellAt(rows[j], col)
    ensures |Names(rows, col)| == |rows|
  {
    if rows != [] {
      var n := |rows| - 1;
      DistinctCount(rows[..n], col);
      NamesSnoc(rows, col);
      forall x | x in rows[..n] ensures CellAt(x, col) != CellAt(rows[n], col) {
        var j :| 0 <= j < n && rows[..n][j] == x;
        assert rows[j] == x;
      }
    }
  }

  /** When the name column exists and no name is the empty text, the cleaned
      frame has one row per distinct name of the input, and no two of its rows
      share a name. */
  lemma CleanedNamesUnique(f: Frame)
    requires NameColumn(ColumnSet(f.columns)) in f.columns
    requires forall i :: 0 <= i < |f.rows| ==> CellAt(f.rows[i], NameColumn(ColumnSet(f.columns))) != Value("")
    ensures var rows, col := Cleaned(f), NameColumn(ColumnSet(f.columns));
      forall i, j :: 0 <= i < j < |rows| ==> Get(rows[i], col) != Get(rows[j], col)
    ensures |Cleaned(f)| == |Names(f.rows, NameColumn(ColumnSet(f.columns)))|
  {
    var col := NameColumn(ColumnSet(f.columns));
    var kept := DropDuplicates(f.rows, col);
    var rows := Cleaned(f);
    assert kept == Deduplicated(f);
    DropDuplicatesUnique(f.rows, col);
    DropDuplicatesNames(f.rows, col);
    DropDuplicatesFirst(f.rows, col);
    forall k | 0 <= k < |kept| ensures Get(rows[k], col) == Fill(CellAt(kept[k], col)) && CellAt(kept[k], col) != Value("") {
      assert FirstRow(f.rows, col, kept[k]);
      var i :| 0 <= i < |f.rows| && f.rows[i] == kept[k] && FirstOfName(f.rows, col, i);
      assert col != CombinedColumn;
    }
    DistinctCount(kept, col);
  }
}
