/** `create_recipe_text`: the human-readable recipe stored with each cocktail.
    A fixed header (drink, category, type, glass, optional instructions), an
    `Ingredients:` line, then one line per ingredient, with the measure at the
    same position when there is one. */
module Recipe {
  import opened Text
  import opened PyLiteral
  import opened Rows
  import opened IngredientList

  /** The lines of the recipe, one after the other. */
  function Concat(lines: seq<string>): string {
    if lines == [] then "" else Concat(lines[..|lines| - 1]) + lines[|lines| - 1]
  }

  /** `f"- {measure} {ingredient}\n"`. */
  function MeasuredLine(measure: string, ingredient: string): string {
    "- " + measure + " " + ingredient + "\n"
  }

  /** `f"- {ingredient}\n"`. */
  function BareLine(ingredient: string): string {
    "- " + ingredient + "\n"
  }

  /** A list column as the recipe code reads it: a list literal when the text
      starts with `[`, otherwise a one-element list holding the text. */
  function ParseField(raw: string): Result<seq<Literal>> {
    if StartsWith(raw, "[") then ParseList(raw) else Ok([Str(raw)])
  }

  /** The measures list; empty when the column is missing or blank. */
  function Measures(row: Row): Result<seq<Literal>> {
    if "ingredientMeasures" in row && row["ingredientMeasures"] != "" then ParseField(row["ingredientMeasures"])
    else Ok([])
  }

  /** `ingredient and str(ingredient).strip() and str(ingredient).strip() != 'None'`. */
  predicate ShowsIngredient(l: Literal) {
    Truthy(l) && Strip(Show(l)) != "" && Strip(Show(l)) != "None"
  }

  /** `i < len(measures) and measures[i] and str(measures[i]).strip() != 'None'`:
      unlike the numbered layout, a whitespace-only measure still counts. */
  predicate HasMeasure(ms: seq<Literal>, i: nat) {
    i < |ms| && Truthy(ms[i]) && Strip(Show(ms[i])) != "None"
  }

  /** What one ingredient contributes: nothing when it is not shown, else
      one line, with the measure when there is one. */
  function Item(shown: bool, measured: bool, measure: string, ingredient: string): seq<string> {
    if !shown then []
    else if measured then [MeasuredLine(measure, ingredient)]
    else [BareLine(ingredient)]
  }

  /** The line for a list element (none when it is blank or `None`). */
  function ListLine(ings: seq<Literal>, ms: seq<Literal>, i: nat): seq<string>
    requires i < |ings|
  {
    Item(ShowsIngredient(ings[i]), HasMeasure(ms, i), if i < |ms| then Show(ms[i]) else "", Show(ings[i]))
  }

  /** The lines for the first `n` list elements. */
  function ListLines(ings: seq<Literal>, ms: seq<Literal>, n: nat): seq<string>
    requires n <= |ings|
  {
    if n == 0 then [] else ListLines(ings, ms, n - 1) + ListLine(ings, ms, n - 1)
  }

  /** The line for numbered slot `i`; the measure is used when it passes the
      same test as the ingredient (`'nan'` is the missing-value token). */
  function SlotLine(row: Row, i: nat): seq<string> {
    var ingredient := Get(row, IngredientSlot(i));
    var measure := Get(row, MeasureSlot(i));
    Item(Keeps(ingredient, "nan"), Keeps(measure, "nan"), measure, ingredient)
  }

  /** The lines for slots 1..n. */
  function SlotLines(row: Row, n: nat): seq<string> {
    if n == 0 then [] else SlotLines(row, n - 1) + SlotLine(row, n)
  }

  /** The ingredient lines: from the parsed lists, or the raw field as the one
      line when either list fails to parse, or from the numbered slots. */
  function IngredientLines(row: Row): seq<string> {
    if HasIngredientsField(row) then FlatLines(row) else SlotLines(row, SlotCount)
  }

  /** The ingredient lines of the flat layout. */
  function FlatLines(row: Row): seq<string>
    requires HasIngredientsField(row)
  {
    var raw := row["ingredients"];
    var ings := ParseField(raw);
    var ms := Measures(row);
    if ings.Ok? && ms.Ok? then ListLines(ings.value, ms.value, |ings.value|)
    else [BareLine(raw)]
  }

  /** The header lines: note the space after the line break that ends the
      `Drink:` line, and that `Instructions:` appears only when there are some. */
  function Header(row: Row): string {
    var cols := row.Keys;
    var instructions := Get(row, InstructionsColumn(cols));
    "\nDrink: " + Get(row, NameColumn(cols)) + "\n "
    + "Category: " + Get(row, CategoryColumn(cols)) + "\n"
    + "Type: " + Get(row, AlcoholicColumn(cols)) + "\n"
    + "Glass: " + Get(row, GlassColumn(cols)) + "\n"
    + InstructionsLine(instructions)
  }

  function InstructionsLine(instructions: string): string {
    if instructions != "" then "Instructions: " + instructions + "\n" else ""
  }

  function RecipeText(row: Row): string {
    Header(row) + "Ingredients:\n" + Concat(IngredientLines(row))
  }

  lemma ConcatSingle(line: string)
    ensures Concat([line]) == line
  {
    assert [line][..0] == [];
  }

  /** Appending the next zero or one lines to a recipe built so far. */
  lemma AppendLines(top: string, lines: seq<string>, more: seq<string>)
    requires |more| <= 1
    ensures more == [] ==> top + Concat(lines + more) == top + Concat(lines)
    ensures more != [] ==> top + Concat(lines + more) == top + Concat(lines) + more[0]
  {
    if more == [] {
      assert lines + more == lines;
    } else {
      assert (lines + more)[..|lines|] == lines;
    }
  }

  /** The loop over the parsed ingredient list: appends each shown element's
      line, with the measure at the same position when there is one. */
  method AppendListLines(top: string, ings: seq<Literal>, ms: seq<Literal>) returns (recipe: string)
    ensures recipe == top + Concat(ListLines(ings, ms, |ings|))
  {
    recipe := top;
    for i := 0 to |ings|
      invariant recipe == top + Concat(ListLines(ings, ms, i))
    {
      var ingredient := ings[i];
      AppendLines(top, ListLines(ings, ms, i), ListLine(ings, ms, i));
      if ShowsIngredient(ingredient) {
        if HasMeasure(ms, i) {
          recipe := recipe + MeasuredLine(Show(ms[i]), Show(ingredient));
        } else {
          recipe := recipe + BareLine(Show(ingredient));
        }
      }
    }
  }

  /** The loop over the numbered slots 1..15. */
  method AppendSlotLines(top: string, row: Row) returns (recipe: string)
    ensures recipe == top + Concat(SlotLines(row, SlotCount))
  {
    recipe := top;
    for i := 1 to SlotCount + 1
      invariant recipe == top + Concat(SlotLines(row, i - 1))
    {
      var ingredient := Get(row, IngredientSlot(i));
      var measure := Get(row, MeasureSlot(i));
      AppendLines(top, SlotLines(row, i - 1), SlotLine(row, i));
      if Keeps(ingredient, "nan") {
        if Keeps(measure, "nan") {
          recipe := recipe + MeasuredLine(measure, ingredient);
        } else {
          recipe := recipe + BareLine(ingredient);
        }
      }
    }
  }

  /** The ingredient section of `create_recipe_text`: the flat layout when the
      row has a non-empty `ingredients` field, the numbered slots otherwise. */
  method AppendIngredientLines(top: string, row: Row) returns (recipe: string)
    ensures recipe == top + Concat(IngredientLines(row))
  {
    if "ingredients" in row && row["ingredients"] != "" {
      recipe := AppendFlatLines(top, row);
    } else {
      recipe := AppendSlotLines(top, row);
    }
  }

  /** The flat-layout branch: parse both list columns, then either the loop
      over the elements or, when a parse fails, the raw field as one line. */
  method AppendFlatLines(top: string, row: Row) returns (recipe: string)
    requires HasIngredientsField(row)
    ensures recipe == top + Concat(FlatLines(row))
  {
    var raw := row["ingredients"];
    var ingredients: Result<seq<Literal>>;
    if StartsWith(raw, "[") {
      ingredients := ParseList(raw);
    } else {
      ingredients := Ok([Str(raw)]);
    }
    assert ingredients == ParseField(raw);
    var measures: Result<seq<Literal>> := Ok([]);
    if ingredients.Ok? && "ingredientMeasures" in row && row["ingredientMeasures"] != "" {
      var measuresText := row["ingredientMeasures"];
      if StartsWith(measuresText, "[") {
        measures := ParseList(measuresText);
      } else {
        measures := Ok([Str(measuresText)]);
      }
    }
    assert ingredients.Ok? ==> measures == Measures(row);
    if ingredients.Ok? && measures.Ok? {
      FlatLinesOfParsed(row, ingredients.value, measures.value);
      recipe := AppendListLines(top, ingredients.value, measures.value);
    } else {
      // a list failed to parse: the except branch
      assert FlatLines(row) == [BareLine(raw)];
      ConcatSingle(BareLine(raw));
      recipe := top + BareLine(raw);
    }
  }

  lemma FlatLinesOfParsed(row: Row, ings: seq<Literal>, ms: seq<Literal>)
    requires HasIngredientsField(row)
    requires ParseField(row["ingredients"]) == Ok(ings) && Measures(row) == Ok(ms)
    ensures FlatLines(row) == ListLines(ings, ms, |ings|)
  {
  }

  /** `create_recipe_text(row)`. */
  method CreateRecipeText(row: Row) returns (recipe: string)
    ensures recipe == RecipeText(row)
  {
    var cols := row.Keys;
    recipe := "\nDrink: " + Get(row, NameColumn(cols)) + "\n ";
    recipe := recipe + "Category: " + Get(row, CategoryColumn(cols)) + "\n";
    recipe := recipe + "Type: " + Get(row, AlcoholicColumn(cols)) + "\n";
    recipe := recipe + "Glass: " + Get(row, GlassColumn(cols)) + "\n";
    var instructions := Get(row, InstructionsColumn(cols));
    if instructions != "" {
      recipe := recipe + ("Instructions: " + instructions + "\n");
    }
    assert recipe == Header(row);
    recipe := recipe + "Ingredients:\n";
    recipe := AppendIngredientLines(recipe, row);
  }

  // ---------------------------------------------------------------------------
  // Lemmas

  /** The form of every ingredient line: `- `, some text, and a line break. */
  predicate ItemLine(line: string) {
    |line| >= 3 && line[..2] == "- " && line[|line| - 1] == '\n'
  }

  predicate AllItemLines(lines: seq<string>) {
    forall k :: 0 <= k < |lines| ==> ItemLine(lines[k])
  }

  lemma MeasuredLineShape(measure: string, ingredient: string)
    ensures ItemLine(MeasuredLine(measure, ingredient))
  {
    var line := MeasuredLine(measure, ingredient);
    assert line == "- " + (measure + " " + ingredient + "\n");
  }

  lemma BareLineShape(ingredient: string)
    ensures ItemLine(BareLine(ingredient))
  {
    var line := BareLine(ingredient);
    assert line == "- " + (ingredient + "\n");
  }

  /** All lines of `a + b` are item lines when those of `a` and `b` are. */
  lemma AppendItemLines(a: seq<string>, b: seq<string>)
    requires AllItemLines(a)
    requires AllItemLines(b)
    ensures AllItemLines(a + b)
  {
    forall k | 0 <= k < |a + b| ensures ItemLine((a + b)[k]) {
      if k < |a| {
        assert (a + b)[k] == a[k];
      } else {
        assert (a + b)[k] == b[k - |a|];
      }
    }
  }

  lemma ItemShape(shown: bool, measured: bool, measure: string, ingredient: string)
    ensures AllItemLines(Item(shown, measured, measure, ingredient))
  {
    if shown {
      if measured {
        MeasuredLineShape(measure, ingredient);
      } else {
        BareLineShape(ingredient);
      }
    }
  }

  lemma {:induction false} ListLinesShape(ings: seq<Literal>, ms: seq<Literal>, n: nat)
    requires n <= |ings|
    ensures AllItemLines(ListLines(ings, ms, n))
  {
    if n > 0 {
      var front, last := ListLines(ings, ms, n - 1), ListLine(ings, ms, n - 1);
      ListLinesShape(ings, ms, n - 1);
      ItemShape(ShowsIngredient(ings[n - 1]), HasMeasure(ms, n - 1), if n - 1 < |ms| then Show(ms[n - 1]) else "", Show(ings[n - 1]));
      AppendItemLines(front, last);
    }
  }

  lemma {:induction false} SlotLinesShape(row: Row, n: nat)
    ensures AllItemLines(SlotLines(row, n))
  {
    if n > 0 {
      SlotLinesShape(row, n - 1);
      var ingredient, measure := Get(row, IngredientSlot(n)), Get(row, MeasureSlot(n));
      ItemShape(Keeps(ingredient, "nan"), Keeps(measure, "nan"), measure, ingredient);
      AppendItemLines(SlotLines(row, n - 1), SlotLine(row, n));
    }
  }

  /** Every ingredient line of every recipe is `- …` followed by a line break. */
  lemma IngredientLinesShape(row: Row)
    ensures AllItemLines(IngredientLines(row))
  {
    if HasIngredientsField(row) {
      var raw := row["ingredients"];
      var ings := ParseField(raw);
      if ings.Ok? && Measures(row).Ok? {
        ListLinesShape(ings.value, Measures(row).value, |ings.value|);
      } else {
        BareLineShape(raw);
      }
    } else {
      SlotLinesShape(row, SlotCount);
    }
  }

  lemma {:induction false} SlotLinesCount(row: Row, n: nat)
    requires n <= SlotCount
    ensures |SlotLines(row, n)| == |KeptNames(IngredientSlots(row)[..n], "nan")|
  {
    if n > 0 {
      SlotLinesCount(row, n - 1);
      assert IngredientSlots(row)[..n][..n - 1] == IngredientSlots(row)[..n - 1];
    }
  }

  lemma {:induction false} ListLinesCount(ings: seq<Literal>, ms: seq<Literal>, n: nat)
    requires n <= |ings|
    ensures |ListLines(ings, ms, n)| == |KeptNames(Shown(ings[..n]), "None")|
  {
    if n > 0 {
      ListLinesCount(ings, ms, n - 1);
      assert Shown(ings[..n])[..n - 1] == Shown(ings[..n - 1]);
      ElementFilter(ings[n - 1]);
    }
  }

  /** The recipe lists exactly as many ingredients as the stored ingredient
      string: in the numbered layout, and in the flat layout whenever the
      measures parse and the ingredients are a list literal that parses or a
      single name other than `None`. */
  lemma LineCountMatchesNames(row: Row)
    requires HasIngredientsField(row) ==>
      var raw := row["ingredients"];
      Measures(row).Ok? && (if StartsWith(raw, "[") then ParseList(raw).Ok? else Strip(raw) != "None")
    ensures |IngredientLines(row)| == |IngredientNames(row)|
  {
    if HasIngredientsField(row) {
      var raw := row["ingredients"];
      if StartsWith(raw, "[") {
        var ings := ParseList(raw).value;
        ListLinesCount(ings, Measures(row).value, |ings|);
        assert ings[..|ings|] == ings;
      } else {
        var ms := Measures(row).value;
        assert IngredientLines(row) == ListLines([Str(raw)], ms, 1);
        assert ListLines([Str(raw)], ms, 0) == [];
      }
    } else {
      SlotLinesCount(row, SlotCount);
      assert IngredientSlots(row)[..SlotCount] == IngredientSlots(row);
    }
  }

  /** A scalar `None` in the `ingredients` field is stored as one ingredient
      name, but the recipe gives it no line. */
  lemma ScalarNoneHasNoLine(row: Row)
    requires row == map["ingredients" := "None"]
    ensures IngredientNames(row) == ["None"]
    ensures IngredientLines(row) == []
  {
    var raw := row["ingredients"];
    assert raw[0] != '[';
    assert Trimmed(raw);
    TrimmedIsFixed(raw);
    assert ListLines([Str(raw)], [], 0) == [];
  }

  /** When the ingredient list parses but the measures do not, the stored
      names are the parsed list while the recipe has the one raw line. */
  lemma UnparsedMeasuresOneLine(row: Row, xs: seq<string>, t: string)
    requires forall i :: 0 <= i < |xs| ==> Plain(xs[i]) && CleanName(xs[i], "None")
    requires "ingredients" in row && row["ingredients"] == Render(Strs(xs))
    requires "ingredientMeasures" in row && row["ingredientMeasures"] == "['" + t
    requires '\'' !in t
    ensures IngredientNames(row) == xs
    ensures IngredientLines(row) == [BareLine(row["ingredients"])]
  {
    ListRoundTrip(row, xs);
    assert row["ingredients"][0] == '[';
    UnclosedMeasures(row, t);
    MeasuresErrOneLine(row);
  }

  lemma UnclosedMeasures(row: Row, t: string)
    requires "ingredientMeasures" in row && row["ingredientMeasures"] == "['" + t
    requires '\'' !in t
    ensures Measures(row).Err?
  {
    var m := row["ingredientMeasures"];
    assert m[..1] == "[";
    UnclosedFirstString(t);
  }

  /** Measures that do not parse put the raw ingredient field on one line. */
  lemma MeasuresErrOneLine(row: Row)
    requires HasIngredientsField(row) && Measures(row).Err?
    ensures IngredientLines(row) == [BareLine(row["ingredients"])]
  {
  }

  /** A malformed ingredient literal renders as one line holding the raw field. */
  lemma UnterminatedListOneLine(row: Row, t: string)
    requires "ingredients" in row && row["ingredients"] == "['" + t
    requires '\'' !in t
    ensures IngredientLines(row) == [BareLine("['" + t)]
  {
    var raw := row["ingredients"];
    assert raw[..1] == "[";
    UnclosedFirstString(t);
    assert ParseField(raw).Err?;
  }

  /** A clean name is shown. */
  lemma CleanNameShown(t: string)
    requires CleanName(t, "None")
    ensures ShowsIngredient(Str(t))
  {
    TrimmedIsFixed(t);
  }

  /** A clean measure at position `i` is used. */
  lemma CleanMeasureUsed(ms: seq<Literal>, i: nat)
    requires i < |ms| && ms[i].Str? && CleanName(ms[i].text, "None")
    ensures HasMeasure(ms, i)
  {
    TrimmedIsFixed(ms[i].text);
  }

  /** The line for clean name `xs[k]` when the clean measures are `ys`: the
      measure at the same position, or none past the end of `ys`. */
  function PairedLine(xs: seq<string>, ys: seq<string>, k: nat): string
    requires k < |xs|
  {
    if k < |ys| then MeasuredLine(ys[k], xs[k]) else BareLine(xs[k])
  }

  /** The paired lines for the first `n` names. */
  function PairedLines(xs: seq<string>, ys: seq<string>, n: nat): (r: seq<string>)
    requires n <= |xs|
    ensures |r| == n
  {
    if n == 0 then [] else PairedLines(xs, ys, n - 1) + [PairedLine(xs, ys, n - 1)]
  }

  lemma {:induction false} PairedLinesAt(xs: seq<string>, ys: seq<string>, n: nat, k: nat)
    requires k < n <= |xs|
    ensures PairedLines(xs, ys, n)[k] == PairedLine(xs, ys, k)
  {
    var front := PairedLines(xs, ys, n - 1);
    var last := PairedLine(xs, ys, n - 1);
    assert PairedLines(xs, ys, n) == front + [last];
    if k < n - 1 {
      PairedLinesAt(xs, ys, n - 1, k);
      assert (front + [last])[k] == front[k];
    }
  }

  lemma ListLinesStep(ings: seq<Literal>, ms: seq<Literal>, n: nat)
    requires 0 < n <= |ings|
    ensures ListLines(ings, ms, n) == ListLines(ings, ms, n - 1) + ListLine(ings, ms, n - 1)
  {
  }

  /** The line for a clean name, with its clean measure when there is one. */
  lemma ListLineOfClean(xs: seq<string>, ys: seq<string>, k: nat)
    requires k < |xs| && CleanName(xs[k], "None")
    requires k < |ys| ==> CleanName(ys[k], "None")
    ensures ListLine(Strs(xs), Strs(ys), k) == [PairedLine(xs, ys, k)]
  {
    CleanNameShown(xs[k]);
    if k < |ys| {
      CleanMeasureUsed(Strs(ys), k);
    }
  }

  lemma {:induction false} ListLinesPaired(xs: seq<string>, ys: seq<string>, n: nat)
    requires n <= |xs|
    requires forall i :: 0 <= i < |xs| ==> CleanName(xs[i], "None")
    requires forall j :: 0 <= j < |ys| ==> CleanName(ys[j], "None")
    ensures ListLines(Strs(xs), Strs(ys), n) == PairedLines(xs, ys, n)
  {
    if n > 0 {
      ListLinesPaired(xs, ys, n - 1);
      ListLineOfClean(xs, ys, n - 1);
      ListLinesStep(Strs(xs), Strs(ys), n);
    }
  }

  /** Both list columns, written as list literals, parse back. */
  lemma RenderedColumnsParse(row: Row, xs: seq<string>, ys: seq<string>)
    requires forall i :: 0 <= i < |xs| ==> Plain(xs[i])
    requires forall j :: 0 <= j < |ys| ==> Plain(ys[j])
    requires "ingredients" in row && row["ingredients"] == Render(Strs(xs))
    requires ("ingredientMeasures" in row && row["ingredientMeasures"] == Render(Strs(ys)))
          || ("ingredientMeasures" !in row && ys == [])
    ensures HasIngredientsField(row)
    ensures ParseField(row["ingredients"]) == Ok(Strs(xs)) && Measures(row) == Ok(Strs(ys))
  {
    ParseFieldRendered(xs);
    ParseFieldRendered(ys);
  }

  /** A list of plain strings written as a list literal is a list column. */
  lemma ParseFieldRendered(xs: seq<string>)
    requires forall i :: 0 <= i < |xs| ==> Plain(xs[i])
    ensures Render(Strs(xs)) != "" && ParseField(Render(Strs(xs))) == Ok(Strs(xs))
  {
    RenderedParses(xs);
  }

  /** Ingredients and measures stored as list literals pair up by position:
      line `k` carries measure `k` and ingredient `k`, and the ingredients past
      the last measure (all of them when there is no measures column) have no
      measure. */
  lemma ListLinesRoundTrip(row: Row, xs: seq<string>, ys: seq<string>)
    requires forall i :: 0 <= i < |xs| ==> Plain(xs[i]) && CleanName(xs[i], "None")
    requires forall j :: 0 <= j < |ys| ==> Plain(ys[j]) && CleanName(ys[j], "None")
    requires "ingredients" in row && row["ingredients"] == Render(Strs(xs))
    requires ("ingredientMeasures" in row && row["ingredientMeasures"] == Render(Strs(ys)))
          || ("ingredientMeasures" !in row && ys == [])
    ensures |IngredientLines(row)| == |xs|
    ensures forall k :: 0 <= k < |xs| ==> IngredientLines(row)[k] == PairedLine(xs, ys, k)
  {
    RenderedColumnsParse(row, xs, ys);
    FlatLinesOfParsed(row, Strs(xs), Strs(ys));
    ListLinesPaired(xs, ys, |xs|);
    forall k | 0 <= k < |xs| ensures IngredientLines(row)[k] == PairedLine(xs, ys, k) {
      PairedLinesAt(xs, ys, |xs|, k);
    }
  }
}
