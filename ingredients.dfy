/** `get_ingredents_list`: the comma-joined ingredient names stored with each
    cocktail, read either from the `ingredients` list literal (flat layout) or
    from the fifteen `strIngredient` slots (numbered layout). */
module IngredientList {
  import opened Text
  import opened PyLiteral
  import opened Rows

  /** The filter both branches apply to a candidate: truthy, and stripped
      neither empty nor the layout's missing-value token (`'None'` for list
      elements, `'nan'` for slots). */
  predicate Keeps(v: string, sentinel: string) {
    v != "" && Strip(v) != "" && Strip(v) != sentinel
  }

  /** The stripped candidates that pass the filter, in their original order. */
  function KeptNames(vs: seq<string>, sentinel: string): (r: seq<string>)
    ensures |r| <= |vs|
  {
    if vs == [] then []
    else
      var last := vs[|vs| - 1];
      KeptNames(vs[..|vs| - 1], sentinel) + (if Keeps(last, sentinel) then [Strip(last)] else [])
  }

  /** `str(x)` of every element of a parsed list. */
  function Shown(ls: seq<Literal>): (vs: seq<string>)
    ensures |vs| == |ls| && forall i :: 0 <= i < |ls| ==> vs[i] == Show(ls[i])
  {
    seq(|ls|, i requires 0 <= i < |ls| => Show(ls[i]))
  }

  /** `row.get(f'strIngredient{i}')` for i = 1..15. */
  function IngredientSlots(row: Row): (vs: seq<string>)
    ensures |vs| == SlotCount
  {
    seq(SlotCount, i requires 0 <= i < SlotCount => Get(row, IngredientSlot(i + 1)))
  }

  /** A field that is not a list literal, or whose literal does not parse, is
      one ingredient: itself, stripped, unless that is empty. */
  function SingleName(raw: string): seq<string> {
    if Strip(raw) != "" then [Strip(raw)] else []
  }

  /** The names read from a non-empty `ingredients` field. */
  function FieldNames(raw: string): seq<string> {
    if StartsWith(raw, "[") && ParseList(raw).Ok? then KeptNames(Shown(ParseList(raw).value), "None")
    else SingleName(raw)
  }

  /** The names `get_ingredents_list` collects before joining them. */
  function IngredientNames(row: Row): seq<string> {
    if HasIngredientsField(row) then FieldNames(row["ingredients"])
    else
      KeptNames(IngredientSlots(row), "nan")
  }

  /** Python's test `ingredient and str(ingredient).strip() and
      str(ingredient).strip() != 'None'` on a list element is the filter on its
      `str`: `None` is falsy, and its `str` is the sentinel anyway. */
  lemma ElementFilter(l: Literal)
    ensures (Truthy(l) && Strip(Show(l)) != "" && Strip(Show(l)) != "None") <==> Keeps(Show(l), "None")
  {
    if l.NoneLit? {
      TrimmedIsFixed("None");
    }
  }

  /** `get_ingredents_list(row)`. */
  method GetIngredientsList(row: Row) returns (joined: string)
    ensures joined == Join(IngredientNames(row), ", ")
  {
    var ingredients: seq<string> := [];
    if "ingredients" in row && row["ingredients"] != "" {
      var raw := row["ingredients"];
      if StartsWith(raw, "[") {
        var parsed := ParseList(raw);
        if parsed.Ok? {
          ingredients := ListNamesLoop(parsed.value);
        } else {
          // the literal did not parse: the except branch
          if Strip(raw) != "" {
            ingredients := ingredients + [Strip(raw)];
          }
        }
      } else {
        if Strip(raw) != "" {
          ingredients := ingredients + [Strip(raw)];
        }
      }
    } else {
      ingredients := SlotNamesLoop(row);
    }
    joined := Join(ingredients, ", ");
  }

  /** The loop over a parsed `ingredients` list. */
  method ListNamesLoop(list: seq<Literal>) returns (ingredients: seq<string>)
    ensures ingredients == KeptNames(Shown(list), "None")
  {
    ingredients := [];
    for k := 0 to |list|
      invariant ingredients == KeptNames(Shown(list[..k]), "None")
    {
      var ingredient := list[k];
      assert Shown(list[..k + 1])[..k] == Shown(list[..k]);
      ElementFilter(ingredient);
      if Truthy(ingredient) && Strip(Show(ingredient)) != "" && Strip(Show(ingredient)) != "None" {
        ingredients := ingredients + [Strip(Show(ingredient))];
      }
    }
    assert list[..|list|] == list;
  }

  /** The loop over the numbered `strIngredient1` .. `strIngredient15` slots. */
  method SlotNamesLoop(row: Row) returns (ingredients: seq<string>)
    ensures ingredients == KeptNames(IngredientSlots(row), "nan")
  {
    ingredients := [];
    for i := 1 to SlotCount + 1
      invariant ingredients == KeptNames(IngredientSlots(row)[..i - 1], "nan")
    {
      var ingredient := Get(row, IngredientSlot(i));
      assert IngredientSlots(row)[..i][..i - 1] == IngredientSlots(row)[..i - 1];
      if ingredient != "" && Strip(ingredient) != "" && Strip(ingredient) != "nan" {
        ingredients := ingredients + [Strip(ingredient)];
      }
    }
    assert IngredientSlots(row)[..SlotCount] == IngredientSlots(row);
  }

  // ---------------------------------------------------------------------------
  // Lemmas

  /** A name that survives the filter is non-empty, carries no surrounding
      whitespace and is not the missing-value token. */
  ghost predicate CleanName(x: string, sentinel: string) {
    x != "" && Trimmed(x) && x != sentinel
  }

  /** What the filter keeps: only clean names, every candidate that passes,
      and nothing that is not the stripped form of a passing candidate. */
  lemma KeptNamesSpec(vs: seq<string>, sentinel: string)
    ensures forall k :: 0 <= k < |KeptNames(vs, sentinel)| ==> CleanName(KeptNames(vs, sentinel)[k], sentinel)
    ensures forall i :: 0 <= i < |vs| && Keeps(vs[i], sentinel) ==> Strip(vs[i]) in KeptNames(vs, sentinel)
    ensures forall x :: x in KeptNames(vs, sentinel) ==> exists i :: 0 <= i < |vs| && Keeps(vs[i], sentinel) && Strip(vs[i]) == x
  {
    KeptNamesClean(vs, sentinel);
    KeptNamesComplete(vs, sentinel);
    KeptNamesSound(vs, sentinel);
  }

  /** One step of the filter: the kept names of `vs` extend those of its
      prefix by the last candidate when it passes. */
  lemma KeptNamesStep(vs: seq<string>, sentinel: string)
    requires vs != []
    ensures var last := vs[|vs| - 1];
      KeptNames(vs, sentinel) == KeptNames(vs[..|vs| - 1], sentinel) + (if Keeps(last, sentinel) then [Strip(last)] else [])
  {
  }

  lemma {:induction false} KeptNamesClean(vs: seq<string>, sentinel: string)
    ensures forall k :: 0 <= k < |KeptNames(vs, sentinel)| ==> CleanName(KeptNames(vs, sentinel)[k], sentinel)
  {
    if vs != [] {
      var init := vs[..|vs| - 1];
      KeptNamesClean(init, sentinel);
      KeptNamesStep(vs, sentinel);
    }
  }

  lemma {:induction false} KeptNamesComplete(vs: seq<string>, sentinel: string)
    ensures forall i :: 0 <= i < |vs| && Keeps(vs[i], sentinel) ==> Strip(vs[i]) in KeptNames(vs, sentinel)
  {
    if vs != [] {
      var init := vs[..|vs| - 1];
      KeptNamesComplete(init, sentinel);
      KeptNamesStep(vs, sentinel);
      forall i | 0 <= i < |vs| && Keeps(vs[i], sentinel) ensures Strip(vs[i]) in KeptNames(vs, sentinel) {
        if i < |vs| - 1 {
          assert vs[i] == init[i];
        }
      }
    }
  }

  lemma {:induction false} KeptNamesSound(vs: seq<string>, sentinel: string)
    ensures forall x :: x in KeptNames(vs, sentinel) ==> exists i :: 0 <= i < |vs| && Keeps(vs[i], sentinel) && Strip(vs[i]) == x
  {
    if vs != [] {
      var init := vs[..|vs| - 1];
      KeptNamesSound(init, sentinel);
      KeptNamesStep(vs, sentinel);
      forall x | x in KeptNames(vs, sentinel)
        ensures exists i :: 0 <= i < |vs| && Keeps(vs[i], sentinel) && Strip(vs[i]) == x
      {
        if x in KeptNames(init, sentinel) {
          var i :| 0 <= i < |init| && Keeps(init[i], sentinel) && Strip(init[i]) == x;
          assert vs[i] == init[i];
        } else {
          assert Keeps(vs[|vs| - 1], sentinel) && Strip(vs[|vs| - 1]) == x;
        }
      }
    }
  }

  /** Every candidate stripped, in order. */
  function StripEach(vs: seq<string>): (r: seq<string>)
    ensures |r| == |vs|
  {
    if vs == [] then [] else StripEach(vs[..|vs| - 1]) + [Strip(vs[|vs| - 1])]
  }

  lemma KeptNamesLast(vs: seq<string>, sentinel: string)
    requires vs != [] && Keeps(vs[|vs| - 1], sentinel)
    ensures KeptNames(vs, sentinel) == KeptNames(vs[..|vs| - 1], sentinel) + [Strip(vs[|vs| - 1])]
  {
  }

  lemma StripEachLast(vs: seq<string>)
    requires vs != []
    ensures StripEach(vs) == StripEach(vs[..|vs| - 1]) + [Strip(vs[|vs| - 1])]
  {
  }

  /** All candidates of a prefix pass when all of the whole do. */
  lemma AllKeptPrefix(vs: seq<string>, n: nat, sentinel: string)
    requires n <= |vs|
    requires forall i :: 0 <= i < |vs| ==> Keeps(vs[i], sentinel)
    ensures forall i :: 0 <= i < n ==> Keeps(vs[..n][i], sentinel)
  {
    forall i | 0 <= i < n ensures Keeps(vs[..n][i], sentinel) {
      assert vs[..n][i] == vs[i];
    }
  }

  /** When every candidate passes, nothing is dropped or reordered. */
  lemma {:induction false} KeptNamesAllKept(vs: seq<string>, sentinel: string)
    requires forall i :: 0 <= i < |vs| ==> Keeps(vs[i], sentinel)
    ensures KeptNames(vs, sentinel) == StripEach(vs)
  {
    if vs != [] {
      var n := |vs| - 1;
      AllKeptPrefix(vs, n, sentinel);
      KeptNamesAllKept(vs[..n], sentinel);
      KeptNamesLast(vs, sentinel);
      StripEachLast(vs);
    }
  }

  lemma {:induction false} StripEachTrimmed(vs: seq<string>)
    requires forall i :: 0 <= i < |vs| ==> Trimmed(vs[i])
    ensures StripEach(vs) == vs
  {
    if vs != [] {
      var n := |vs| - 1;
      var front := vs[..n];
      forall i | 0 <= i < |front| ensures Trimmed(front[i]) {
        assert front[i] == vs[i];
      }
      StripEachTrimmed(front);
      TrimmedIsFixed(vs[n]);
      StripEachLast(vs);
      assert front + [vs[n]] == vs;
    }
  }

  /** Numbered layout: at most fifteen names, each clean and not `'nan'`, and
      every slot whose value passes the filter contributes its stripped value. */
  lemma LegacyNames(row: Row)
    requires !HasIngredientsField(row)
    ensures |IngredientNames(row)| <= SlotCount
    ensures forall k :: 0 <= k < |IngredientNames(row)| ==> CleanName(IngredientNames(row)[k], "nan")
    ensures forall i :: 1 <= i <= SlotCount && Keeps(Get(row, IngredientSlot(i)), "nan") ==>
              Strip(Get(row, IngredientSlot(i))) in IngredientNames(row)
  {
    var slots := IngredientSlots(row);
    KeptNamesSpec(slots, "nan");
    forall i | 1 <= i <= SlotCount && Keeps(Get(row, IngredientSlot(i)), "nan")
      ensures Strip(Get(row, IngredientSlot(i))) in IngredientNames(row)
    {
      assert slots[i - 1] == Get(row, IngredientSlot(i));
    }
  }

  /** Flat layout with a list literal that parses: no more names than list
      elements, each clean and not `'None'`. */
  lemma ListNames(row: Row)
    requires HasIngredientsField(row) && StartsWith(row["ingredients"], "[")
    requires ParseList(row["ingredients"]).Ok?
    ensures |IngredientNames(row)| <= |ParseList(row["ingredients"]).value|
    ensures forall k :: 0 <= k < |IngredientNames(row)| ==> CleanName(IngredientNames(row)[k], "None")
  {
    KeptNamesSpec(Shown(ParseList(row["ingredients"]).value), "None");
  }

  /** Flat layout with a field that is not a list, or a list that does not
      parse: exactly the stripped field, when it is not blank. */
  lemma ScalarNames(row: Row)
    requires HasIngredientsField(row)
    requires !StartsWith(row["ingredients"], "[") || ParseList(row["ingredients"]).Err?
    ensures |IngredientNames(row)| <= 1
    ensures IngredientNames(row) == [] <==> AllSpace(row["ingredients"])
    ensures IngredientNames(row) != [] ==> IngredientNames(row)[0] == Strip(row["ingredients"])
  {
    StripKeepsContent(row["ingredients"]);
  }

  /** A list literal whose first string is never closed falls back to the raw
      field as the only ingredient. */
  lemma UnterminatedListFallsBack(row: Row, t: string)
    requires "ingredients" in row && row["ingredients"] == "['" + t
    requires '\'' !in t
    ensures IngredientNames(row) == [Strip("['" + t)]
  {
    var raw := "['" + t;
    assert ParseList(raw).Err? by {
      UnclosedFirstString(t);
    }
    assert HasIngredientsField(row) && StartsWith(raw, "[") by {
      assert raw[0] == '[';
    }
    assert !AllSpace(raw) by {
      assert !IsSpace(raw[0]);
    }
    StripEmptyIffSpace(raw);
    assert FieldNames(raw) == [Strip(raw)];
  }

  function Strs(xs: seq<string>): (ls: seq<Literal>)
    ensures |ls| == |xs| && forall i :: 0 <= i < |xs| ==> ls[i] == Str(xs[i])
  {
    seq(|xs|, i requires 0 <= i < |xs| => Str(xs[i]))
  }

  lemma ShownStrs(xs: seq<string>)
    ensures Shown(Strs(xs)) == xs
  {
  }

  /** A clean name passes the filter, and stripping leaves it as it is. */
  lemma CleanNamesKept(xs: seq<string>, sentinel: string)
    requires forall i :: 0 <= i < |xs| ==> CleanName(xs[i], sentinel)
    ensures forall i :: 0 <= i < |xs| ==> Keeps(xs[i], sentinel) && Trimmed(xs[i])
  {
    forall i | 0 <= i < |xs| ensures Keeps(xs[i], sentinel) && Trimmed(xs[i]) {
      TrimmedIsFixed(xs[i]);
    }
  }

  /** Names written out as a Python list literal come back unchanged, in order. */
  lemma ListRoundTrip(row: Row, xs: seq<string>)
    requires forall i :: 0 <= i < |xs| ==> Plain(xs[i]) && CleanName(xs[i], "None")
    requires "ingredients" in row && row["ingredients"] == Render(Strs(xs))
    ensures IngredientNames(row) == xs
  {
    RenderedParses(xs);
    ShownStrs(xs);
    KeptCleanNames(xs, "None");
  }

  /** Plain strings written as a list literal parse back to themselves. */
  lemma RenderedParses(xs: seq<string>)
    requires forall i :: 0 <= i < |xs| ==> Plain(xs[i])
    ensures StartsWith(Render(Strs(xs)), "[") && ParseList(Render(Strs(xs))) == Ok(Strs(xs))
  {
    var ls := Strs(xs);
    assert AllPlain(ls);
    ParseRender(ls);
    assert Render(ls)[..1] == "[";
  }

  /** The filter keeps clean names as they are. */
  lemma KeptCleanNames(xs: seq<string>, sentinel: string)
    requires forall i :: 0 <= i < |xs| ==> CleanName(xs[i], sentinel)
    ensures KeptNames(xs, sentinel) == xs
  {
    CleanNamesKept(xs, sentinel);
    KeptNamesAllKept(xs, sentinel);
    StripEachTrimmed(xs);
  }
}
