/** Rows of the cocktail data frame as the ingestion code reads them: a map
    from column name to cell text. Two column layouts occur: the flat one
    (`name`, `category`, `alcoholic`, `glassType`, `instructions`,
    `ingredients`, `ingredientMeasures`) and the numbered one (`strDrink`,
    `strCategory`, `strAlcoholic`, `strGlass`, `strInstructions`,
    `strIngredient1..15`, `strMeasure1..15`). The code tells them apart by
    looking up column names, and so does this model. */
module Rows {

  /** One row after `fillna("")`: every present column holds text. */
  type Row = map<string, string>

  /** `row.get(col, '')`; a missing column reads as the empty text, which
      every caller treats exactly like `None`. */
  function Get(row: Row, col: string): string {
    if col in row then row[col] else ""
  }

  /** The detection idiom `flat if flat in columns else numbered`. */
  function Pick(columns: set<string>, flat: string, numbered: string): (c: string)
    ensures c == flat || c == numbered
  {
    if flat in columns then flat else numbered
  }

  function NameColumn(columns: set<string>): string { Pick(columns, "name", "strDrink") }
  function CategoryColumn(columns: set<string>): string { Pick(columns, "category", "strCategory") }
  function AlcoholicColumn(columns: set<string>): string { Pick(columns, "alcoholic", "strAlcoholic") }
  function GlassColumn(columns: set<string>): string { Pick(columns, "glassType", "strGlass") }
  function InstructionsColumn(columns: set<string>): string { Pick(columns, "instructions", "strInstructions") }

  /** Python's `str(n)` for a natural number. */
  function DecimalText(n: nat): (s: string)
    ensures |s| >= 1 && IsDigits(s)
    ensures |s| > 1 ==> s[0] != '0'
  {
    if n < 10 then [(n as int + '0' as int) as char]
    else DecimalText(n / 10) + [(n % 10 + '0' as int) as char]
  }

  predicate IsDigits(s: string) {
    forall i :: 0 <= i < |s| ==> '0' <= s[i] <= '9'
  }

  /** The number a string of decimal digits denotes, read most significant
      digit first: `int(s)`. */
  function DigitsValue(s: string): nat
    requires IsDigits(s)
  {
    if s == [] then 0
    else (s[0] as int - '0' as int) * Power10(|s| - 1) + DigitsValue(s[1..])
  }

  function Power10(k: nat): nat {
    if k == 0 then 1 else 10 * Power10(k - 1)
  }

  /** `int(str(n)) == n`: the slot number is written out exactly. */
  lemma {:induction false} DecimalTextValue(n: nat)
    ensures DigitsValue(DecimalText(n)) == n
  {
    if n >= 10 {
      DecimalTextValue(n / 10);
      var d := [(n % 10 + '0' as int) as char];
      DigitsValueSnoc(DecimalText(n / 10), d[0]);
    }
  }

  /** Appending a digit multiplies the value by ten and adds the digit. */
  lemma {:induction false} DigitsValueSnoc(s: string, c: char)
    requires IsDigits(s) && '0' <= c <= '9'
    ensures IsDigits(s + [c])
    ensures DigitsValue(s + [c]) == DigitsValue(s) * 10 + (c as int - '0' as int)
    decreases |s|
  {
    assert IsDigits(s + [c]) by {
      forall i | 0 <= i < |s + [c]| ensures '0' <= (s + [c])[i] <= '9' {
        if i < |s| { assert (s + [c])[i] == s[i]; }
      }
    }
    if s != [] {
      assert (s + [c])[1..] == s[1..] + [c];
      DigitsValueSnoc(s[1..], c);
      var h, k := s[0] as int - '0' as int, |s| - 1;
      assert DigitsValue(s + [c]) == h * Power10(k + 1) + DigitsValue(s[1..] + [c]);
      assert DigitsValue(s) == h * Power10(k) + DigitsValue(s[1..]);
      ShiftDigit(h, Power10(k), DigitsValue(s[1..]), c as int - '0' as int);
    } else {
      assert [c][1..] == [];
    }
  }

  lemma ShiftDigit(h: int, p: int, v: int, d: int)
    ensures h * (10 * p) + (v * 10 + d) == (h * p + v) * 10 + d
  {
  }

  /** Different slot numbers give different column names. */
  lemma DecimalTextInjective(m: nat, n: nat)
    ensures DecimalText(m) == DecimalText(n) ==> m == n
  {
    DecimalTextValue(m);
    DecimalTextValue(n);
  }

  /** `f'strIngredient{i}'`. */
  function IngredientSlot(i: nat): string {
    "strIngredient" + DecimalText(i)
  }

  /** `f'strMeasure{i}'`. */
  function MeasureSlot(i: nat): string {
    "strMeasure" + DecimalText(i)
  }

  /** The number of numbered ingredient slots, `range(1, 16)`. */
  const SlotCount: nat := 15

  /** `'ingredients' in row and row['ingredients']`: the row takes the flat-layout path. */
  predicate HasIngredientsField(row: Row) {
    "ingredients" in row && row["ingredients"] != ""
  }
}
