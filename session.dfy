/** The front end's search forms and the state it keeps between reruns: which
    search a form asks for, what the page remembers, and which result cards
    carry a similarity score. */
module Session {
  import opened Text
  import opened Display

  // ---------------------------------------------------------------------------
  // Search forms
  // ---------------------------------------------------------------------------

  /** The number of results the ingredient, style, occasion, mixed and
      category forms ask for. Random discovery asks for 6 and name search
      passes no limit; of these queries only the mixed one is modelled with
      its limit. */
  const SearchLimit: nat := 10

  /** `handle_ingredients_search`: the chosen common ingredients followed by the
      non-blank comma-separated custom entries, stripped. The list grows in place. */
  method CombineIngredients(selected: seq<string>, custom: string) returns (all: seq<string>)
    ensures all == selected + CommaItems(custom)
  {
    all := selected;
    if custom == [] {
      EmptyCustom();
      return;
    }
    var pieces := Split(custom, ',');
    for k := 0 to |pieces|
      invariant all == selected + Items(pieces[..k])
    {
      assert pieces[..k + 1][..k] == pieces[..k];
      var item := Strip(pieces[k]);
      if item != [] {
        all := all + [item];
      }
    }
    assert pieces[..|pieces|] == pieces;
  }

  lemma EmptyCustom()
    ensures CommaItems("") == []
  {
    assert Split("", ',') == [[]];
    assert Items([[]]) == Items([]) + [];
  }

  /** The ingredient query: issued only when the button is pressed and at least
      one ingredient is chosen. */
  function IngredientsRequest(all: seq<string>, pressed: bool): (q: Option<seq<string>>)
    ensures q.Some? <==> pressed && all != []
    ensures q.Some? ==> q.value == all
  {
    if |all| > 0 && pressed then Some(all) else None
  }

  /** Custom entries written as a `", "`-joined list of plain names reach the
      query unchanged, after the common ones. */
  lemma IngredientsRequestSpec(selected: seq<string>, names: seq<string>, pressed: bool)
    requires forall k :: 0 <= k < |names| ==> PlainItem(names[k])
    ensures var q := IngredientsRequest(selected + CommaItems(Join(names, ", ")), pressed);
      (q.Some? <==> pressed && |selected| + |names| > 0)
      && (q.Some? ==> q.value == selected + names)
  {
    CommaItemsOfJoin(names);
  }

  /** The arguments of `recommend_by_mixed_preferences`. */
  datatype MixedQuery = MixedQuery(
    ingredients: Option<seq<string>>,
    style: Option<seq<string>>,
    occasion: Option<string>,
    alcoholicPreference: Option<string>,
    limit: nat)

  /** `x or None` for a list or a string. */
  function OrNone<T>(xs: seq<T>): Option<seq<T>> {
    if |xs| == 0 then None else Some(xs)
  }

  predicate AnyPreference(ingredients: seq<string>, styles: seq<string>, occasion: string, alcoholic: string) {
    |ingredients| > 0 || |styles| > 0 || occasion != "" || alcoholic != ""
  }

  /** `handle_mixed_search`: a query is issued exactly when the button is
      pressed and some field is non-empty; then every empty field is passed as
      `None`, every other field as given, at least one field is present and ten
      results are asked for. */
  function MixedRequest(ingredients: seq<string>, styles: seq<string>, occasion: string, alcoholic: string, pressed: bool): (q: Option<MixedQuery>)
    ensures q.Some? <==> pressed && (ingredients != [] || styles != [] || occasion != "" || alcoholic != "")
    ensures q.Some? ==>
        && (q.value.ingredients == None <==> ingredients == [])
        && (q.value.ingredients != None ==> q.value.ingredients.value == ingredients)
        && (q.value.style == None <==> styles == [])
        && (q.value.style != None ==> q.value.style.value == styles)
        && (q.value.occasion == None <==> occasion == "")
        && (q.value.occasion != None ==> q.value.occasion.value == occasion)
        && (q.value.alcoholicPreference == None <==> alcoholic == "")
        && (q.value.alcoholicPreference != None ==> q.value.alcoholicPreference.value == alcoholic)
        && (q.value.ingredients != None || q.value.style != None || q.value.occasion != None || q.value.alcoholicPreference != None)
        && q.value.limit == 10
  {
    if AnyPreference(ingredients, styles, occasion, alcoholic) && pressed then
      Some(MixedQuery(OrNone(ingredients), OrNone(styles), OrNone(occasion), OrNone(alcoholic), SearchLimit))
    else None
  }

  // ---------------------------------------------------------------------------
  // Session state
  // ---------------------------------------------------------------------------

  const ByIngredients: string := "🥃 By Ingredients"
  const ByStyle: string := "🎭 By Style/Mood"
  const ByOccasion: string := "🎉 By Occasion"
  const MixedPreferences: string := "🎲 Mixed Preferences"
  const ByCategory: string := "📂 By Category"
  const RandomDiscovery: string := "🎰 Random Discovery"
  const ByName: string := "🔍 Search by Name"

  /** What the page keeps between reruns. */
  datatype Page<R> = Page(searchResults: seq<R>, lastSearchType: string)

  /** The state before any search. */
  function InitialPage<R>(): Page<R> {
    Page([], "")
  }

  /** A different search type empties the remembered results and becomes the last type. */
  function SelectType<R>(p: Page<R>, searchType: string): Page<R> {
    if p.lastSearchType != searchType then Page([], searchType) else p
  }

  /** A non-empty answer replaces the remembered results; an empty one leaves them. */
  function Remember<R>(p: Page<R>, results: seq<R>): Page<R> {
    if |results| > 0 then p.(searchResults := results) else p
  }

  /** One rerun of the page: the selected search type, then the form's answer.
      Afterwards the last type is the selected one, and the remembered results
      are the new answer if it is non-empty, else the old results if the type did
      not change, else nothing. */
  function Advance<R>(p: Page<R>, searchType: string, results: seq<R>): (q: Page<R>)
    ensures q.lastSearchType == searchType
    ensures q.searchResults ==
      if |results| > 0 then results
      else if p.lastSearchType == searchType then p.searchResults
      else []
  {
    Remember(SelectType(p, searchType), results)
  }

  /** A rerun that brings no answer leaves the page as the previous rerun left it. */
  lemma RerunKeepsPage<R>(p: Page<R>, searchType: string, results: seq<R>)
    ensures var q := Advance(p, searchType, results); Advance(q, searchType, []) == q
  {
  }

  /** Reruns with the same search type, one answer each. */
  function Run<R>(p: Page<R>, searchType: string, answers: seq<seq<R>>): Page<R> {
    if answers == [] then p
    else Advance(Run(p, searchType, answers[..|answers| - 1]), searchType, answers[|answers| - 1])
  }

  /** The last non-empty answer, or `fallback` when every answer is empty. */
  function LastNonEmpty<R>(answers: seq<seq<R>>, fallback: seq<R>): seq<R> {
    if answers == [] then fallback
    else if |answers[|answers| - 1]| > 0 then answers[|answers| - 1]
    else LastNonEmpty(answers[..|answers| - 1], fallback)
  }

  /** Over several reruns of one search type the page shows the latest non-empty
      answer; before any, what it showed if the type was already selected, else nothing. */
  lemma {:induction false} RunShowsLatestAnswer<R>(p: Page<R>, searchType: string, answers: seq<seq<R>>)
    requires |answers| >= 1
    ensures Run(p, searchType, answers).lastSearchType == searchType
    ensures Run(p, searchType, answers).searchResults ==
      LastNonEmpty(answers, if p.lastSearchType == searchType then p.searchResults else [])
  {
    var n := |answers| - 1;
    if n > 0 {
      RunShowsLatestAnswer(p, searchType, answers[..n]);
    }
  }

  /** `st.session_state`'s two fields. */
  class SessionState<R> {
    var searchResults: seq<R>
    var lastSearchType: string

    function Snapshot(): Page<R>
      reads this
    {
      Page(searchResults, lastSearchType)
    }

    /** The fields as first created. */
    constructor ()
      ensures Snapshot() == InitialPage()
    {
      searchResults := [];
      lastSearchType := "";
    }

    method SelectSearchType(searchType: string)
      modifies this
      ensures Snapshot() == SelectType(old(Snapshot()), searchType)
    {
      if lastSearchType != searchType {
        searchResults := [];
        lastSearchType := searchType;
      }
    }

    method RememberResults(results: seq<R>)
      modifies this
      ensures Snapshot() == Remember(old(Snapshot()), results)
    {
      if |results| > 0 {
        searchResults := results;
      }
    }
  }

  // ---------------------------------------------------------------------------
  // Result cards
  // ---------------------------------------------------------------------------

  /** The search types whose results carry a meaningful similarity score. */
  const SimilarityTypes: seq<string> := [ByIngredients, ByStyle, ByOccasion, MixedPreferences]

  predicate ShowsSimilarity(searchType: string) {
    searchType in SimilarityTypes
  }

  /** A formatted recommender result, the fields `display_cocktail` reads. */
  datatype Cocktail = Cocktail(
    name: Option<string>,
    category: Option<string>,
    alcoholic: Option<string>,
    glass: Option<string>,
    ingredients: Option<string>,
    recipe: Option<string>,
    similarity: Option<real>)

  /** What one card shows. */
  datatype Card = Card(
    name: string,
    category: string,
    alcoholic: string,
    glass: string,
    tags: seq<string>,
    recipe: string,
    score: Option<real>)

  /** `display_cocktail`: every text field cleaned, the tags taken from the
      cleaned ingredient text, a score only when a similarity is present. */
  function CardOf(c: Cocktail): Card {
    Card(
      CleanValue(c.name), CleanValue(c.category), CleanValue(c.alcoholic), CleanValue(c.glass),
      IngredientTags(CleanValue(c.ingredients)), CleanValue(c.recipe), c.similarity)
  }

  /** The similarity is dropped unless the search type shows it. */
  function Visible(c: Cocktail, show: bool): Cocktail {
    if show then c else c.(similarity := None)
  }

  /** The cards of the remembered results, in order. */
  function Cards<R>(p: Page<R>, format: R -> Cocktail): seq<Card> {
    seq(|p.searchResults|, i requires 0 <= i < |p.searchResults| =>
      CardOf(Visible(format(p.searchResults[i]), ShowsSimilarity(p.lastSearchType))))
  }

  /** The loop over the remembered results in `main`. */
  method RenderResults<R>(p: Page<R>, format: R -> Cocktail) returns (cards: seq<Card>)
    ensures |cards| == |p.searchResults|
    ensures forall i :: 0 <= i < |cards| ==>
      (cards[i].score.Some? <==> ShowsSimilarity(p.lastSearchType) && format(p.searchResults[i]).similarity.Some?)
    ensures cards == Cards(p, format)
  {
    var show := p.lastSearchType in SimilarityTypes;
    cards := [];
    for i := 0 to |p.searchResults|
      invariant cards == Cards(p, format)[..i]
    {
      var cocktail := format(p.searchResults[i]);
      if !show {
        cocktail := cocktail.(similarity := None);
      }
      cards := cards + [CardOf(cocktail)];
    }
    assert Cards(p, format)[..|p.searchResults|] == Cards(p, format);
  }

  /** Every card has at most eight ingredient tags, none of them blank, padded
      or holding a comma, and every text field is stripped. */
  lemma CardShape(c: Cocktail)
    ensures |CardOf(c).tags| <= TagLimit
    ensures forall k :: 0 <= k < |CardOf(c).tags| ==> PlainItem(CardOf(c).tags[k])
    ensures Trimmed(CardOf(c).name) && Trimmed(CardOf(c).recipe)
  {
    IngredientTagsSpec(CleanValue(c.ingredients));
  }

  /** After a non-empty answer to a similarity search, each card shows the score
      the recommender gave; after any answer to a name, category or random search,
      no card shows a score. */
  lemma ScoresAfterSearch<R>(p: Page<R>, searchType: string, results: seq<R>, format: R -> Cocktail)
    requires |results| > 0
    ensures var cards := Cards(Advance(p, searchType, results), format);
      |cards| == |results|
      && (ShowsSimilarity(searchType) ==> forall i :: 0 <= i < |cards| ==> cards[i].score == format(results[i]).similarity)
      && (searchType in [ByCategory, RandomDiscovery, ByName] ==> forall i :: 0 <= i < |cards| ==> cards[i].score == None)
  {
  }

  /** `main` shows the notice that nothing was found when no results are
      remembered and a search type other than the name search was selected. */
  predicate NoMatchesNotice<R>(p: Page<R>) {
    |p.searchResults| == 0 && p.lastSearchType != "" && p.lastSearchType != ByName
  }

  /** Switching to another search type shows the notice until an answer arrives,
      except for the name search; the notice and the result cards never appear together. */
  lemma NoticeAfterSwitch<R>(p: Page<R>, searchType: string, format: R -> Cocktail)
    requires p.lastSearchType != searchType
    ensures NoMatchesNotice(Advance(p, searchType, [])) <==> searchType != "" && searchType != ByName
    ensures NoMatchesNotice(p) ==> Cards(p, format) == []
  {
  }
}
