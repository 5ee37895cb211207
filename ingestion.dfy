/** `store_cocktails`: clear the cocktail table, embed every combined text in
    one batch, insert one row per cocktail paired with its embedding, and
    commit; an exception at any step after connecting rolls the transaction
    back. The store is modelled as a table of rows with a transaction view,
    the sentence-embedding model as a function from text to a vector, and the
    step that raises as a parameter. */
module Ingestion {
  import opened Text
  import opened Rows
  import opened IngredientList
  import opened Recipe
  import opened CleanData

  /** The width of every embedding (`vector(384)` in the table). */
  const Dimension: nat := 384

  type Vector = v: seq<real> | |v| == Dimension witness seq(Dimension, _ => 0.0)

  /** One row of the `cocktails` table (the surrogate id is the store's). */
  datatype StoredCocktail = StoredCocktail(
    name: string, ingredients: string, recipe: string,
    glass: string, category: string, alcoholic: string, embedding: Vector)

  /** `df['combined_text'].to_list()`. */
  function CombinedTexts(rows: seq<Row>): (ts: seq<string>)
    ensures |ts| == |rows| && forall i :: 0 <= i < |rows| ==> ts[i] == Get(rows[i], CombinedColumn)
  {
    seq(|rows|, i requires 0 <= i < |rows| => Get(rows[i], CombinedColumn))
  }

  /** `self.model.encode(texts)`: one vector per text, in the order of the texts. */
  function Encode(embed: string -> Vector, texts: seq<string>): (vs: seq<Vector>)
    ensures |vs| == |texts| && forall i :: 0 <= i < |texts| ==> vs[i] == embed(texts[i])
  {
    seq(|texts|, i requires 0 <= i < |texts| => embed(texts[i]))
  }

  /** `row.get(name_col, '')` with the name column detected on the row. */
  function StoredName(row: Row): string {
    Get(row, NameColumn(row.Keys))
  }

  /** The table row for a cleaned frame row and its embedding, with the column
      names detected on the row. */
  function ToStored(row: Row, v: Vector): StoredCocktail {
    var cols := row.Keys;
    StoredCocktail(StoredName(row), Join(IngredientNames(row), ", "), RecipeText(row),
                   Get(row, GlassColumn(cols)), Get(row, CategoryColumn(cols)), Get(row, AlcoholicColumn(cols)), v)
  }

  /** `f` applied to the first `k` pairs of `xs` and `ys`, in order (the
      insert loop pairs frame row `idx` with embedding `idx`). */
  function PairedPrefix<A, B, C>(f: (A, B) -> C, xs: seq<A>, ys: seq<B>, k: nat): (t: seq<C>)
    requires k <= |xs| && k <= |ys|
    ensures |t| == k
  {
    if k == 0 then [] else PairedPrefix(f, xs, ys, k - 1) + [f(xs[k - 1], ys[k - 1])]
  }

  lemma PairedPrefixSnoc<A, B, C>(f: (A, B) -> C, xs: seq<A>, ys: seq<B>, k: nat)
    requires k < |xs| && k < |ys|
    ensures PairedPrefix(f, xs, ys, k + 1) == PairedPrefix(f, xs, ys, k) + [f(xs[k], ys[k])]
  {
  }

  lemma AppendOne<T>(a: seq<T>, b: seq<T>, x: T)
    ensures (a + b) + [x] == a + (b + [x])
  {
  }

  /** Element `i` of the prefix is `f` of pair `i`. */
  lemma {:induction false} PairedPrefixAt<A, B, C>(f: (A, B) -> C, xs: seq<A>, ys: seq<B>, k: nat, i: nat)
    requires i < k <= |xs| && k <= |ys|
    ensures PairedPrefix(f, xs, ys, k)[i] == f(xs[i], ys[i])
  {
    if i < k - 1 {
      PairedPrefixAt(f, xs, ys, k - 1, i);
    }
  }

  /** The table after a successful run: row `i` of the frame with embedding `i`. */
  function Ingested(rows: seq<Row>, embed: string -> Vector): seq<StoredCocktail> {
    PairedPrefix(ToStored, rows, Encode(embed, CombinedTexts(rows)), |rows|)
  }

  /** Row `i` of the table after a successful run carries the name of frame
      row `i` and the embedding of that row's combined text. */
  lemma IngestedAt(rows: seq<Row>, embed: string -> Vector, i: nat)
    requires i < |rows|
    ensures Ingested(rows, embed)[i].name == StoredName(rows[i])
    ensures Ingested(rows, embed)[i].embedding == embed(Get(rows[i], CombinedColumn))
  {
    var vs := Encode(embed, CombinedTexts(rows));
    PairedPrefixAt(ToStored, rows, vs, |rows|, i);
    var c := ToStored(rows[i], vs[i]);
    assert c.name == StoredName(rows[i]) && c.embedding == vs[i];
  }

  /** The statement that raises, if any. `ConnectFails` is a connection
      `get_connection` could not open: it returns `None` instead of raising,
      so the first call on the connection raises `AttributeError`. */
  datatype Fault = NoFault | ConnectFails | DeleteFails | EncodeFails | InsertFails(at: nat) | CommitFails

  /** An exception that leaves the pipeline. */
  datatype PyError = IndexError | AttributeError

  /** How a call ends: it returns, or an exception leaves it. */
  datatype Outcome = Returned | Raises(error: PyError)

  /** What one run did, in order. */
  datatype Step = Deleted | Encoded(texts: seq<string>) | Inserted(index: nat) | Committed | RolledBack

  /** The run gets past its last insert and its commit. */
  predicate Succeeds(fault: Fault, n: nat) {
    fault == NoFault || (fault.InsertFails? && fault.at >= n)
  }

  /** `Inserted(0)`, ..., `Inserted(k - 1)`. */
  function Inserts(k: nat): (s: seq<Step>)
    ensures |s| == k && forall i :: 0 <= i < k ==> s[i] == Inserted(i)
  {
    if k == 0 then [] else Inserts(k - 1) + [Inserted(k - 1)]
  }

  /** The steps of a run over `n` rows whose texts are `texts`. */
  function Trace(n: nat, texts: seq<string>, fault: Fault): seq<Step> {
    if Succeeds(fault, n) then [Deleted, Encoded(texts)] + Inserts(n) + [Committed]
    else match fault
      case ConnectFails => []
      case DeleteFails => [RolledBack]
      case EncodeFails => [Deleted, RolledBack]
      case InsertFails(at) => [Deleted, Encoded(texts)] + Inserts(at) + [RolledBack]
      case _ => [Deleted, Encoded(texts)] + Inserts(n) + [RolledBack]
  }

  /** The cocktail table: the committed rows, and the rows the open
      transaction sees. */
  class Database {
    var table: seq<StoredCocktail>
    var pending: seq<StoredCocktail>

    constructor (initial: seq<StoredCocktail>)
      ensures table == initial && pending == initial
    {
      table, pending := initial, initial;
    }

    /** `DELETE FROM cocktails`, inside the transaction. */
    method Delete()
      modifies this
      ensures pending == [] && table == old(table)
    {
      pending := [];
    }

    /** `INSERT INTO cocktails ...`, inside the transaction. */
    method Insert(c: StoredCocktail)
      modifies this
      ensures pending == old(pending) + [c] && table == old(table)
    {
      pending := pending + [c];
    }

    /** `connection.commit()`. */
    method Commit()
      modifies this
      ensures table == old(pending) && pending == old(pending)
    {
      table := pending;
    }

    /** `connection.rollback()`. */
    method Rollback()
      modifies this
      ensures pending == old(table) && table == old(table)
    {
      pending := table;
    }
  }

  /** The loop body of `store_cocktails` before its insert: the ingredient
      string, the recipe and the detected columns of one row. */
  method PrepareRow(row: Row, v: Vector) returns (stored: StoredCocktail)
    ensures stored == ToStored(row, v)
  {
    var cols := row.Keys;
    var name := Get(row, NameColumn(cols));
    assert name == StoredName(row);
    var ingredients := GetIngredientsList(row);
    var recipe := CreateRecipeText(row);
    var glass, category, alcoholic := Get(row, GlassColumn(cols)), Get(row, CategoryColumn(cols)), Get(row, AlcoholicColumn(cols));
    stored := StoredCocktail(name, ingredients, recipe, glass, category, alcoholic, v);
  }

  /** The insert loop of `store_cocktails`: row `idx` with embedding `idx`,
      until the insert that raises, if any. Returns how many rows went in. */
  method InsertRows(db: Database, rows: seq<Row>, embeddings: seq<Vector>, fault: Fault) returns (done: nat)
    requires |embeddings| == |rows|
    modifies db
    ensures done <= |rows| && (done < |rows| <==> fault.InsertFails? && fault.at < |rows|)
    ensures done < |rows| ==> done == fault.at
    ensures db.pending == old(db.pending) + PairedPrefix(ToStored, rows, embeddings, done)
    ensures db.table == old(db.table)
  {
    done := 0;
    while done < |rows|
      invariant done <= |rows| && !(fault.InsertFails? && fault.at < done)
      invariant db.pending == old(db.pending) + PairedPrefix(ToStored, rows, embeddings, done)
      invariant db.table == old(db.table)
    {
      if fault == InsertFails(done) {
        return;
      }
      var stored := PrepareRow(rows[done], embeddings[done]);
      PairedPrefixSnoc(ToStored, rows, embeddings, done);
      AppendOne(old(db.pending), PairedPrefix(ToStored, rows, embeddings, done), stored);
      db.Insert(stored);
      done := done + 1;
    }
  }

  /** `store_cocktails(df)` over the rows of the cleaned frame. The handler
      catches every exception, but when the connection is `None` its own
      `connection.rollback()` raises `AttributeError`, which leaves the
      method (`escaped`); every other fault is caught there. */
  method StoreCocktails(db: Database, rows: seq<Row>, embed: string -> Vector, fault: Fault) returns (trace: seq<Step>, escaped: bool)
    requires db.pending == db.table
    modifies db
    ensures escaped <==> fault == ConnectFails
    ensures trace == Trace(|rows|, CombinedTexts(rows), fault)
    ensures db.table == (if Succeeds(fault, |rows|) then Ingested(rows, embed) else old(db.table))
    ensures db.pending == db.table
  {
    trace := [];
    escaped := false;
    if fault == ConnectFails {
      escaped := true;
      return;
    }
    if fault == DeleteFails {
      db.Rollback();
      trace := trace + [RolledBack];
      return;
    }
    db.Delete();
    trace := trace + [Deleted];
    if fault == EncodeFails {
      db.Rollback();
      trace := trace + [RolledBack];
      return;
    }
    var texts := CombinedTexts(rows);
    var embeddings := Encode(embed, texts);
    trace := trace + [Encoded(texts)];
    assert trace == [Deleted, Encoded(texts)];
    var done := InsertRows(db, rows, embeddings, fault);
    trace := trace + Inserts(done);
    if done < |rows| || fault == CommitFails {
      db.Rollback();
      trace := trace + [RolledBack];
      return;
    }
    db.Commit();
    trace := trace + [Committed];
  }

  /** `process_and_store` once the frame is loaded: clean it, then store it.
      On a frame with no rows `clean_data` raises `IndexError` before
      anything is stored; with rows, the `AttributeError` of a connection
      that could not be opened leaves `store_cocktails`. Neither is caught,
      and neither changes the table. */
  method ProcessAndStore(db: Database, f: Frame, embed: string -> Vector, fault: Fault) returns (outcome: Outcome, trace: seq<Step>)
    requires db.pending == db.table
    modifies db
    ensures outcome == Raises(IndexError) <==> f.rows == []
    ensures outcome == Raises(AttributeError) <==> f.rows != [] && fault == ConnectFails
    ensures outcome.Raises? ==> db.table == old(db.table)
    ensures f.rows == [] ==> trace == [] && db.table == old(db.table)
    ensures f.rows != [] ==> var rows := Cleaned(f);
      trace == Trace(|rows|, CombinedTexts(rows), fault)
      && db.table == (if Succeeds(fault, |rows|) then Ingested(rows, embed) else old(db.table))
    ensures db.pending == db.table
  {
    var cleaning := CleanData.CleanData(f);
    if cleaning.NoRowsError? {
      return Raises(IndexError), [];
    }
    var escaped;
    trace, escaped := StoreCocktails(db, cleaning.rows, embed, fault);
    outcome := if escaped then Raises(AttributeError) else Returned;
  }

  // ---------------------------------------------------------------------------
  // Lemmas

  /** The steps of a run that reached the store: it ends with a commit or a
      rollback; before that come the clear (once it went through), the
      batched encode and the inserts of rows 0, 1, ... in row order. */
  lemma TraceShape(n: nat, texts: seq<string>, fault: Fault)
    requires fault != ConnectFails
    ensures var t := Trace(n, texts, fault);
      t != [] && (t[|t| - 1] == Committed || t[|t| - 1] == RolledBack)
      && (|t| >= 2 ==> t[0] == Deleted)
      && (|t| >= 3 ==> t[1] == Encoded(texts))
      && forall i :: 2 <= i < |t| - 1 ==> t[i] == Inserted(i - 2)
  {
  }

  /** A run commits if and only if nothing raised, and then it cleared the
      table first, encoded every text in one call, inserted each row exactly
      once in row order, and committed last. */
  lemma {:induction false} CommitIffSuccess(n: nat, texts: seq<string>, fault: Fault)
    ensures var t := Trace(n, texts, fault);
      (Committed in t <==> Succeeds(fault, n))
      && (Succeeds(fault, n) ==> t == [Deleted, Encoded(texts)] + Inserts(n) + [Committed])
  {
    var t := Trace(n, texts, fault);
    if !Succeeds(fault, n) && fault != ConnectFails {
      TraceShape(n, texts, fault);
      forall i | 0 <= i < |t| ensures t[i] != Committed {
        if 2 <= i < |t| - 1 {
          assert t[i] == Inserted(i - 2);
        }
      }
    }
  }

  /** A run rolls back if and only if a statement raised after the
      connection was made; a failed connection touches nothing. */
  lemma {:induction false} RollbackIffFailure(n: nat, texts: seq<string>, fault: Fault)
    ensures var t := Trace(n, texts, fault);
      (RolledBack in t <==> !Succeeds(fault, n) && fault != ConnectFails)
      && (fault == ConnectFails ==> t == [])
  {
    var t := Trace(n, texts, fault);
    if fault != ConnectFails {
      TraceShape(n, texts, fault);
    }
    if Succeeds(fault, n) {
      forall i | 0 <= i < |t| ensures t[i] != RolledBack {
        if 2 <= i < |t| - 1 {
          assert t[i] == Inserted(i - 2);
        }
      }
    }
  }

  /** Every run clears the table at most once, and before anything else;
      it calls the model at most once, right after the clear, with every
      combined text. */
  lemma {:induction false} ClearThenOneEncode(n: nat, texts: seq<string>, fault: Fault)
    ensures var t := Trace(n, texts, fault);
      (forall i :: 0 <= i < |t| && t[i] == Deleted ==> i == 0)
      && (forall i :: 0 <= i < |t| && t[i].Encoded? ==> i == 1 && t[i].texts == texts)
  {
    var t := Trace(n, texts, fault);
    if fault != ConnectFails {
      TraceShape(n, texts, fault);
      forall i | 2 <= i < |t| ensures t[i] != Deleted && !t[i].Encoded? {
        if i < |t| - 1 {
          assert t[i] == Inserted(i - 2);
        }
      }
    }
  }

  lemma NameColumnWithCombined(cols: set<string>)
    ensures NameColumn(cols + {CombinedColumn}) == NameColumn(cols)
  {
  }

  /** The stored name of a cleaned row is its filled name cell: the column
      detection sees the same name column once `combined_text` is added. */
  lemma StoredNameOfCleanRow(raw: RawRow, columns: seq<string>)
    requires NameColumn(ColumnSet(columns)) in columns
    ensures StoredName(CleanRow(raw, columns)) == Fill(CellAt(raw, NameColumn(ColumnSet(columns))))
  {
    var filled := FillNa(raw, columns);
    FillNaSpec(raw, columns);
    StoredNameWithCombined(filled, NormalizeSpace(RawCombined(filled, CombinedColumns(columns))));
  }

  /** Adding the `combined_text` column changes neither the detected name
      column nor the name. */
  lemma StoredNameWithCombined(m: Row, x: string)
    ensures StoredName(m[CombinedColumn := x]) == StoredName(m)
  {
    assert m[CombinedColumn := x].Keys == m.Keys + {CombinedColumn};
    NameColumnWithCombined(m.Keys);
  }

  /** Ingesting a cleaned frame whose name column has no empty names stores
      exactly one row per distinct name, no two with the same name, each with
      the embedding of its own combined text. */
  lemma IngestCleanedFrame(f: Frame, embed: string -> Vector)
    requires NameColumn(ColumnSet(f.columns)) in f.columns
    requires forall i :: 0 <= i < |f.rows| ==> CellAt(f.rows[i], NameColumn(ColumnSet(f.columns))) != Value("")
    ensures var rows := Cleaned(f); var t := Ingested(rows, embed);
      |t| == |Names(f.rows, NameColumn(ColumnSet(f.columns)))|
      && (forall i, j :: 0 <= i < j < |t| ==> t[i].name != t[j].name)
      && (forall i :: 0 <= i < |t| ==> t[i].embedding == embed(Get(rows[i], CombinedColumn)))
  {
    var rows := Cleaned(f);
    var t := Ingested(rows, embed);
    var col := NameColumn(ColumnSet(f.columns));
    CleanedNamesUnique(f);
    var kept := Deduplicated(f);
    forall i | 0 <= i < |t| ensures t[i].name == Get(rows[i], col) && t[i].embedding == embed(Get(rows[i], CombinedColumn)) {
      IngestedAt(rows, embed, i);
      assert rows[i] == CleanRow(kept[i], f.columns);
      StoredNameOfCleanRow(kept[i], f.columns);
      FillNaSpec(kept[i], f.columns);
    }
  }
}
