# Cocktail ingestion and display helpers, modelled in Dafny

This project models the ingestion side of the AI cocktail recommender and the
small rules of its Streamlit front end.

On the ingestion side (`src/data_processor.py`), a cocktail CSV is cleaned:
duplicate names are dropped, missing cells become empty text, and every row
gets a whitespace-normalised `combined_text`. Each row is then turned into a
stored record: a `", "`-joined ingredient string, a readable recipe text, the
detected name, glass, category and alcoholic columns, and the embedding of its
combined text. The records are written to the `cocktails` table in one
transaction that first clears the table and ends with a commit or a rollback.

Both source layouts are handled the way the code handles them:

- the flat layout: `name`, `category`, `glassType`, an `ingredients` list
  literal, `ingredientMeasures`, ...;
- the numbered layout: `strDrink`, `strIngredient1..15`, `strMeasure1..15`,
  ...

The layout is detected column by column, with `flat if flat in columns else
numbered`, on the frame in `clean_data` and on each row elsewhere. It is not
decided once as one of two fixed layouts.

On the display side (`src/app.py`), the model covers:

- `clean_value`;
- the ingredient tags of a result card;
- the merge of chosen and custom ingredients;
- the guard of the mixed-preferences search;
- the two session-state fields kept between reruns;
- the rule that only similarity searches show a match score.

Modules:

| file | module | models |
|---|---|---|
| `rows.dfy` | `Rows` | a filled row, `row.get(col, '')`, column detection, the `strIngredient{i}` names |
| `text.dfy` | `Text` | `str.isspace`, `strip`, `re.sub(r'\s+', ' ', s)`, `split` on one character, `join` |
| `literal.dfy` | `PyLiteral` | `ast.literal_eval` on the list literals of the data, as a parser returning `Ok` or `Err` |
| `ingredients.dfy` | `IngredientList` | `get_ingredents_list` |
| `recipe.dfy` | `Recipe` | `create_recipe_text` |
| `cleandata.dfy` | `CleanData` | `clean_data` |
| `ingestion.dfy` | `Ingestion` | `store_cocktails`, the embedding call, and the table as a `Database` class |
| `display.dfy` | `Display` | `clean_value` and the ingredient tags of `display_cocktail` |
| `session.dfy` | `Session` | the search forms' guards, `st.session_state`, the result loop of `main` |

The code raises exceptions at several points. Here they are a `Fault`
parameter that names the statement that raises, and a run returns the trace of
steps it took: clear, encode, inserts, then commit or rollback. In the code,
`store_cocktails` catches every exception, prints it and rolls back; it does
not tell its caller which stage failed. The model follows the code here: the
stage can be read from the trace and from the table, but nothing is reported.
One exception does leave `store_cocktails`: when the database cannot be
reached, `get_connection` prints the error and returns `None`, so
`connection.cursor()` raises `AttributeError`; the handler's
`'connection' in locals()` test is then true, and its own
`connection.rollback()` raises `AttributeError` again, which nothing catches.
An empty frame likewise makes `clean_data` raise `IndexError`. The model
reports both as the `Outcome` of `Ingestion.ProcessAndStore`.

## Model

| member | source | states |
|---|---|---|
| Rows.Pick | src/data_processor.py:27-31 | each detected column is the flat name or the numbered name |
| Rows.DecimalText | src/data_processor.py:105-106 | the slot number is written as decimal digits, with no leading zero |
| Rows.DecimalTextValue | src/data_processor.py:105-106 | the digits read back, most significant first, give the slot number: `int(str(i)) == i` |
| Rows.DecimalTextInjective | src/data_processor.py:105-106 | different slot numbers give different column names |
| Text.NormalizeSpaceSpec | src/data_processor.py:70 | collapsing and stripping leaves no outer whitespace and only single spaces inside, keeps every non-space character in order, and is idempotent |
| Text.NormalizeSpaceWords | src/data_processor.py:70 | the cleaned text is the input's words joined by single spaces, `" ".join(s.split())`: a whitespace run between two words becomes one space, and no word is split or merged |
| Text.WordsAppend | src/data_processor.py:44-67 | a text ending in whitespace followed by another text has the words of the first, then the words of the second |
| Text.StripEmptyIffSpace | src/data_processor.py:94 | `s.strip()` is empty exactly when `s` is all whitespace |
| Text.StripKeepsContent | src/data_processor.py:107 | stripping drops only whitespace |
| Text.JoinSplit | src/app.py:87 | joining the pieces of a split with the separator gives the text back |
| Text.SplitJoin | src/app.py:87 | splitting a join of separator-free pieces gives the pieces back |
| PyLiteral.ParseRender | src/data_processor.py:88 | a list of plain strings and `None`s, written as a single-quoted list literal, reads back as itself |
| PyLiteral.TripleQuoteRejected | src/data_processor.py:88 | a list whose first element opens with three quotes, such as `['''']`, is an error: Python reads a triple-quoted string there, which this parser does not read (for `['''']` Python raises as well) |
| PyLiteral.NulInStringRejected | src/data_processor.py:88 | a list whose first string holds a NUL character is an error, as `ast.literal_eval` refuses any text with a NUL and the field goes to the except path |
| PyLiteral.UnclosedFirstString | src/data_processor.py:88 | a list whose first string is never closed is an error, the case `literal_eval` raises on |
| PyLiteral.ElementOfNone | src/data_processor.py:88 | `None` inside a list literal is read as the `None` element |
| IngredientList.ElementFilter | src/data_processor.py:90 | the truthiness-and-strip test on a list element is the common filter with sentinel `'None'` |
| IngredientList.GetIngredientsList | src/data_processor.py:76-110 | the result is the collected names joined with `", "` |
| IngredientList.ListNamesLoop | src/data_processor.py:89-91 | the loop over a parsed list collects the filtered, stripped elements in order |
| IngredientList.SlotNamesLoop | src/data_processor.py:105-108 | the loop over slots 1..15 collects the filtered, stripped slots in order |
| IngredientList.KeptNamesSpec | src/data_processor.py:105-108 | only clean names are kept, every passing candidate is kept, and every kept name comes from a passing candidate |
| IngredientList.KeptNamesAllKept | src/data_processor.py:105-108 | when every candidate passes, the names are the candidates stripped, in order |
| IngredientList.LegacyNames | src/data_processor.py:103-108 | numbered layout: at most 15 clean names, and every passing slot contributes |
| IngredientList.ListNames | src/data_processor.py:87-91 | a parsed list gives at most one name per element, each clean and not `'None'` |
| IngredientList.ScalarNames | src/data_processor.py:92-101 | a non-list field, or a list that fails to parse, gives the stripped field, or nothing when it is blank |
| IngredientList.UnterminatedListFallsBack | src/data_processor.py:97-101 | an unterminated list literal falls back to the stripped raw field |
| IngredientList.ListRoundTrip | src/data_processor.py:81-91 | names written out as a list literal come back unchanged and in order |
| Recipe.CreateRecipeText | src/data_processor.py:112-174 | the text built step by step is the header, `Ingredients:` and the ingredient lines |
| Recipe.AppendIngredientLines | src/data_processor.py:130-172 | the flat layout when `ingredients` is non-empty, the numbered slots otherwise |
| Recipe.AppendFlatLines | src/data_processor.py:131-161 | parsed lists give one line per shown element; a failed parse gives the raw field as one line |
| Recipe.AppendListLines | src/data_processor.py:152-157 | the loop appends each shown element's line, with the measure at its position when there is one |
| Recipe.AppendSlotLines | src/data_processor.py:164-172 | the loop over slots 1..15 appends each passing slot's line |
| Recipe.FlatLinesOfParsed | src/data_processor.py:137-157 | when both columns parse, the lines are those of the element loop |
| Recipe.IngredientLinesShape | src/data_processor.py:152-172 | every ingredient line is `- ` followed by text and a line break |
| Recipe.LineCountMatchesNames | src/data_processor.py:81-108 | the recipe has as many ingredient lines as the stored ingredient string has names: in the numbered layout always; in the flat layout when the measures parse and the ingredients are a list literal that parses or a single name other than `None` |
| Recipe.ScalarNoneHasNoLine | src/data_processor.py:93-95 | a scalar `None` in `ingredients` is stored as the name `None` but gets no recipe line |
| Recipe.UnparsedMeasuresOneLine | src/data_processor.py:144-161 | when the ingredients parse but the measures do not, the names are the parsed list and the recipe has the raw field as its one line |
| Recipe.MeasuresErrOneLine | src/data_processor.py:147-161 | measures that fail to parse put the raw ingredient field on one line |
| Recipe.UnterminatedListOneLine | src/data_processor.py:159-161 | a malformed ingredient literal becomes one line holding the raw field |
| Recipe.ListLinesRoundTrip | src/data_processor.py:143-157 | ingredients and measures stored as list literals pair up by position; ingredients past the last measure have none |
| CleanData.IngredientColumns | src/data_processor.py:61 | the selected columns are frame columns starting with `strIngredient`, and every such frame column is selected |
| CleanData.IngredientColumnsInOrder | src/data_processor.py:61 | the selection is those columns in frame order, once per occurrence: the `k`-th selected column is the one at the `k`-th matching position |
| CleanData.DropDuplicatesNames | src/data_processor.py:36-37 | de-duplication keeps every name of its input |
| CleanData.DropDuplicatesUnique | src/data_processor.py:36-37 | no two remaining rows share a name |
| CleanData.DropDuplicatesFirst | src/data_processor.py:36-37 | every remaining row is the first input row with its name |
| CleanData.DropDuplicatesInOrder | src/data_processor.py:36-37 | the remaining rows are exactly the first row of each name, each once, in input order: the `k`-th remaining row is the input row at the `k`-th first-of-its-name position (`keep='first'`) |
| CleanData.FillNaSpec | src/data_processor.py:41 | a filled row has exactly the frame's columns; missing cells read as empty text, others are unchanged |
| CleanData.AppendIfPresent | src/data_processor.py:46-53 | appends a column's text and a space to every row's text when the column exists |
| CleanData.AppendColumns | src/data_processor.py:61-63 | appends every `strIngredient*` column in column order |
| CleanData.CombineTexts | src/data_processor.py:44-67 | each row's text is its fields' texts, each followed by a space, in combined-column order |
| CleanData.CleanData | src/data_processor.py:25-74 | a frame with rows gives the cleaned frame; a frame with no rows gives the `IndexError` of the sample print on line 72 |
| CleanData.DropDuplicatesEmptyIff | src/data_processor.py:36-37 | de-duplication leaves no row exactly when there was none |
| CleanData.CleanedEmptyIff | src/data_processor.py:36-72 | the cleaned frame is empty exactly when the input frame has no rows |
| CleanData.RawCombinedAppend | src/data_processor.py:44-67 | the combined text of two column lists is the two texts one after the other |
| CleanData.FlatCombinedOrder | src/data_processor.py:44-58 | flat layout: name, category, alcoholic, glass, ingredients, instructions, each followed by a space |
| CleanData.NumberedCombinedOrder | src/data_processor.py:44-67 | numbered layout: drink, category, alcoholic, glass, every `strIngredient*` column, then instructions |
| CleanData.CombinedTextSpec | src/data_processor.py:70 | the combined text is trimmed, single-spaced, stable under a second cleaning, and keeps the fields' non-space characters in order |
| CleanData.RawCombinedWords | src/data_processor.py:44-67 | the words of the raw combined text are the fields' words, field after field: the space after each field keeps neighbouring fields apart |
| CleanData.CombinedTextWords | src/data_processor.py:44-70 | a cleaned row's combined text is its fields' words in field order, joined by single spaces |
| CleanData.CleanedNamesUnique | src/data_processor.py:36-41 | with no empty names, the cleaned frame has one row per distinct name and no repeated name |
| Ingestion.CombinedTexts | src/data_processor.py:193 | one text per row, in row order |
| Ingestion.Encode | src/data_processor.py:176-179 | one vector per text, in text order |
| Ingestion.IngestedAt | src/data_processor.py:196-217 | stored row `i` has frame row `i`'s name and the embedding of its combined text |
| Ingestion.Database.Delete | src/data_processor.py:188 | the transaction sees an empty table; the committed table is unchanged |
| Ingestion.Database.Insert | src/data_processor.py:214-217 | the transaction sees one more row at the end |
| Ingestion.Database.Commit | src/data_processor.py:222 | the committed table becomes what the transaction saw |
| Ingestion.Database.Rollback | src/data_processor.py:231 | the transaction's view returns to the committed table |
| Ingestion.PrepareRow | src/data_processor.py:200-211 | the record holds the joined ingredients, the recipe and the detected columns |
| Ingestion.InsertRows | src/data_processor.py:196-217 | rows go in one at a time, paired with the embedding at the same index, until the insert that raises |
| Ingestion.StoreCocktails | src/data_processor.py:181-232 | on success the table is exactly the ingested rows; on any fault it is unchanged; an exception escapes exactly when the connection is `None`, from the handler's own `rollback()` |
| Ingestion.TraceShape | src/data_processor.py:183-232 | a run that connected ends in a commit or a rollback, after clear, encode and inserts in row order |
| Ingestion.CommitIffSuccess | src/data_processor.py:222 | a run commits exactly when nothing raised, and then it cleared, encoded once, inserted every row once in order and committed |
| Ingestion.RollbackIffFailure | src/data_processor.py:228-232 | a run rolls back exactly when something raised after connecting; a failed connection does nothing |
| Ingestion.ClearThenOneEncode | src/data_processor.py:188-193 | the clear happens at most once and first; the model is called at most once, right after it, with every text |
| Ingestion.StoredNameOfCleanRow | src/data_processor.py:201-206 | the stored name is the filled name cell of the cleaned row |
| Ingestion.ProcessAndStore | src/data_processor.py:234-245 | a frame with no rows raises `IndexError` in cleaning; a frame with rows raises `AttributeError` exactly when no connection could be opened; either way the table is untouched; otherwise the cleaned frame goes through the store |
| Ingestion.IngestCleanedFrame | src/data_processor.py:196-217 | ingesting a cleaned frame stores one row per distinct name, no name twice, each with its own text's embedding |
| Display.CleanValue | src/app.py:55-60 | the cleaned value has no surrounding whitespace |
| Display.CleanValueSpec | src/app.py:58-60 | `None` cleans to `""`; a value without `<` is only stripped |
| Display.RemoveTagsUnchangedIff | src/app.py:60 | tag removal leaves a text unchanged exactly when no tag starts anywhere in it |
| Display.CleanValueSinglePass | src/app.py:60 | removal is one left-to-right pass: `<<n>n>` cleans to `<n>`, which cleans to `""` |
| Display.CleanWrappedValue | src/app.py:60 | a value wrapped in `<n>` and `</n>` cleans to its stripped content |
| Display.IngredientTagsSpec | src/app.py:86-88 | the tags are the first eight non-blank comma entries, stripped and in order |
| Display.CommaItemsOfJoin | src/app.py:87 | names joined with `", "` split back into the names |
| Display.TagsOfJoinedNames | src/app.py:86-88 | a card shows the first eight of the `", "`-joined ingredient names it receives |
| Session.CombineIngredients | src/app.py:124-126 | the list is the chosen ingredients followed by the non-blank custom entries, stripped, in order |
| Session.IngredientsRequest | src/app.py:128-132 | an ingredient query is issued exactly when the button is pressed and the list is non-empty |
| Session.IngredientsRequestSpec | src/app.py:124-132 | custom names typed as a `", "`-joined list reach the query unchanged, after the chosen ones |
| Session.MixedRequest | src/app.py:182-192 | a mixed query is issued exactly when pressed with some field set; empty fields become `None`, others are passed as given, limit 10 |
| Session.Advance | src/app.py:268-291 | after a rerun, the last type is the selected one; the results are the new answer if non-empty, else the old ones if the type is unchanged, else none |
| Session.RerunKeepsPage | src/app.py:268-291 | a rerun that brings no answer leaves the page as it was |
| Session.RunShowsLatestAnswer | src/app.py:268-291 | over reruns of one search type, the page shows the latest non-empty answer |
| Session.SessionState.constructor | src/app.py:222-225 | the state starts with no results and no last type |
| Session.SessionState.SelectSearchType | src/app.py:268-270 | a new search type clears the results and is recorded |
| Session.SessionState.RememberResults | src/app.py:290-291 | a non-empty answer replaces the results; an empty one leaves them |
| Session.RenderResults | src/app.py:294-311 | one card per remembered result, in order; a card has a score exactly when the last type is a similarity type and the result has a similarity |
| Session.CardShape | src/app.py:64-88 | a card has at most eight tags, each non-blank, stripped and comma-free |
| Session.ScoresAfterSearch | src/app.py:298-310 | after a similarity search every card shows its own score; after a name, category or random search none does |
| Session.NoticeAfterSwitch | src/app.py:313-314 | switching type with no answer shows the no-matches notice, except for name search; the notice and the cards never appear together |

## Left out

- `load_data`: reading the CSV is I/O, and `Ingestion.ProcessAndStore` starts from the loaded frame, so the early return when loading fails is not modelled. A cell `read_csv` leaves empty is taken to be NaN, never the empty text.
- `read_csv` type inference: every non-empty cell is the CSV's own text. pandas reads a column whose non-empty cells are all numbers as floats, so a measure `1` becomes `"1.0"` through `str` and `astype(str)`, and a measure `0` becomes the falsy `0.0`; this numeric dtype inference is not modelled.
- `print` calls: progress messages, the sample combined text and error messages.
- The embedding model: `SentenceTransformer.encode` is a function parameter from text to a 384-element vector. Batching, the progress bar and floating point are not modelled.
- The database: `src/database_setup.py` is not part of this model, except that `get_connection` returns `None` when it cannot connect (the `ConnectFails` fault). The connection, the SQL text and pgvector are replaced by the `Database` class: a committed table and the rows the open transaction sees. `cursor.close()` and `connection.close()` are not modelled.
- Exceptions: a `Fault` parameter names the statement that raises. Failures inside `literal_eval` are the `Err` results of the parser.
- Ingestion.StoreCocktails: the escaping exception is reported as a flag, not as the Python exception object, and the printed error messages are not modelled. A `rollback()` or `close()` that raises on a live connection inside the handler is not modelled; only the `None` connection's is.
- PyLiteral.ParseList: this parser is not all of `ast.literal_eval`. It reads bracketed lists of quoted strings and `None`, with adjacent strings concatenated and an optional trailing comma. It returns `Err` for escape sequences, numbers, nested containers, triple-quoted strings, string prefixes and comments, where Python might return a value. A tab or other control character between quotes other than NUL is read as itself, as Python reads it; a NUL anywhere makes the field an error, as it does in Python.
- Recipe.LineCountMatchesNames: a scalar `ingredients` field that strips to `None` is one stored name but no recipe line, because only the recipe filters `'None'` there (`Recipe.ScalarNoneHasNoLine`).
- Recipe.LineCountMatchesNames: when the ingredient list parses but the measures do not, the stored names are the parsed list while the recipe has one raw line, so the counts differ for lists of two or more names (`Recipe.UnparsedMeasuresOneLine`).
- Display.IsWordChar: `\w` in Python also matches non-ASCII letters and digits. The model uses ASCII letters, digits and `_`, so tags with non-ASCII names are kept.
- Display.CleanValue: `str(value)` of a non-string value is not modelled; every field is text or `None`.
- The similarity-percent conversion (`src/app.py:76-80`) is float arithmetic. A card carries the similarity as given, or none.
- Streamlit widgets, CSS, HTML markup, spinners and caching. A button press and the widget values are parameters.
- The recommender (`recommender.py` is not part of this model): the search handlers' queries, `format_cocktail_result`, and the style, occasion, category, random and name handlers. The formatter is a function parameter of `Session.RenderResults`.
- `main`'s dispatch on the search type: which handler runs is not modelled. Each rerun's answer is a parameter of `Session.Advance`.
