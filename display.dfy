/** What a result card shows: `clean_value`, which removes tag-like markup from a
    field, and the ingredient tags built from the cleaned ingredient text. */
module Display {
  import opened Text

  datatype Option<T> = None | Some(value: T)

  // ---------------------------------------------------------------------------
  // clean_value: re.sub(r'</?\w+>', '', s).strip()
  // ---------------------------------------------------------------------------

  /** `\w` restricted to ASCII: a letter, a digit or an underscore. */
  predicate IsWordChar(c: char) {
    ('a' <= c <= 'z') || ('A' <= c <= 'Z') || ('0' <= c <= '9') || c == '_'
  }

  /** A non-empty run of word characters: the `\w+` of a tag name. */
  predicate IsWord(s: string) {
    s != [] && forall i :: 0 <= i < |s| ==> IsWordChar(s[i])
  }

  /** The length of the run of word characters that starts `s`. */
  function WordRun(s: string): (n: nat)
    ensures n <= |s|
  {
    if s != [] && IsWordChar(s[0]) then 1 + WordRun(s[1..]) else 0
  }

  /** The length of the match of `</?\w+>` at the start of `s`, or 0 when the
      pattern does not match there. `\w+` is greedy and the character after it
      must be `>`, so only the longest run of word characters can match. */
  function TagAt(s: string): (n: nat)
    ensures n <= |s|
    ensures n > 0 ==> n >= 3 && s[0] == '<' && s[n - 1] == '>'
  {
    if s == [] || s[0] != '<' then 0
    else
      var k := if |s| > 1 && s[1] == '/' then 2 else 1;
      var w := WordRun(s[k..]);
      if w > 0 && k + w < |s| && s[k + w] == '>' then k + w + 1 else 0
  }

  /** `re.sub(r'</?\w+>', '', s)`: one scan from left to right; a match is
      removed and the scan resumes after it, otherwise one character is kept. */
  function RemoveTags(s: string): (r: string)
    ensures |r| <= |s|
    decreases |s|
  {
    if s == [] then []
    else if TagAt(s) > 0 then RemoveTags(s[TagAt(s)..])
    else [s[0]] + RemoveTags(s[1..])
  }

  /** `clean_value(value)`: `None` becomes the empty string; anything else loses
      its tags and its surrounding whitespace. */
  function CleanValue(value: Option<string>): (r: string)
    ensures Trimmed(r)
  {
    match value
    case None => ""
    case Some(s) => Strip(RemoveTags(s))
  }

  /** No match of the tag pattern starts anywhere in `s`. */
  predicate NoTag(s: string) {
    forall i :: 0 <= i < |s| ==> TagAt(s[i..]) == 0
  }

  lemma {:induction false} TagShortens(s: string, i: nat)
    requires i < |s| && TagAt(s[i..]) > 0
    ensures |RemoveTags(s)| < |s|
    decreases |s|
  {
    if i == 0 {
      assert s[i..] == s;
    } else if TagAt(s) == 0 {
      assert s[1..][i - 1..] == s[i..];
      TagShortens(s[1..], i - 1);
    }
  }

  lemma {:induction false} NoTagUnchanged(s: string)
    requires NoTag(s)
    ensures RemoveTags(s) == s
    decreases |s|
  {
    if s != [] {
      assert s[0..] == s;
      forall i | 0 <= i < |s[1..]| ensures TagAt(s[1..][i..]) == 0 {
        assert s[1..][i..] == s[i + 1..];
      }
      NoTagUnchanged(s[1..]);
      assert [s[0]] + s[1..] == s;
    }
  }

  /** Tag removal leaves a text alone exactly when no tag starts anywhere in it. */
  lemma RemoveTagsUnchangedIff(s: string)
    ensures RemoveTags(s) == s <==> NoTag(s)
  {
    if NoTag(s) {
      NoTagUnchanged(s);
    } else {
      var i :| 0 <= i < |s| && TagAt(s[i..]) > 0;
      TagShortens(s, i);
    }
  }

  lemma NoOpenBracketNoTag(s: string)
    requires '<' !in s
    ensures NoTag(s)
  {
    forall i | 0 <= i < |s| ensures TagAt(s[i..]) == 0 {
      assert s[i..][0] == s[i];
    }
  }

  /** `clean_value(None)` is empty; a value without `<` is only stripped. */
  lemma CleanValueSpec(value: Option<string>)
    ensures value.None? ==> CleanValue(value) == ""
    ensures value.Some? && '<' !in value.value ==> CleanValue(value) == Strip(value.value)
  {
    if value.Some? && '<' !in value.value {
      NoOpenBracketNoTag(value.value);
      NoTagUnchanged(value.value);
    }
  }

  lemma NoBracketInWord(n: string)
    requires IsWord(n)
    ensures '<' !in n + ">"
  {
    assert forall i :: 0 <= i < |n + ">"| ==> (n + ">")[i] == '>' || IsWordChar((n + ">")[i]);
  }

  lemma TagAloneRemoved(n: string)
    requires IsWord(n)
    ensures RemoveTags("<" + n + ">") == ""
  {
    OpenTagRemoved(n, "", "");
    assert "<" + n + ">" + "" + "" == "<" + n + ">";
  }

  lemma StrayBracketKept(n: string)
    requires IsWord(n)
    ensures TagAt("<<" + n + ">" + n + ">") == 0
  {
    var s := "<<" + n + ">" + n + ">";
    assert s[1] == '<' && s[1..][0] == '<';
  }

  lemma FirstPass(n: string)
    requires IsWord(n)
    ensures RemoveTags("<<" + n + ">" + n + ">") == "<" + n + ">"
  {
    var s := "<<" + n + ">" + n + ">";
    assert s[1..] == "<" + n + ">" + n + ">";
    StrayBracketKept(n);
    OpenTagRemoved(n, n, ">");
    NoBracketInWord(n);
    NoOpenBracketNoTag(n + ">");
    NoTagUnchanged(n + ">");
    assert [s[0]] + (n + ">") == "<" + n + ">";
  }

  /** Text after a removed tag is not rescanned together with what came before
      it, so cleaning once can leave a tag that a second cleaning removes:
      `<<n>n>` cleans to `<n>`, which cleans to nothing. */
  lemma CleanValueSinglePass(n: string)
    requires IsWord(n)
    ensures CleanValue(Some("<<" + n + ">" + n + ">")) == "<" + n + ">"
    ensures CleanValue(Some("<" + n + ">")) == ""
  {
    FirstPass(n);
    TagAloneRemoved(n);
    TrimmedIsFixed("<" + n + ">");
  }

  lemma {:induction false} WordRunOfWord(n: string, rest: string)
    requires forall i :: 0 <= i < |n| ==> IsWordChar(n[i])
    requires rest == [] || !IsWordChar(rest[0])
    ensures WordRun(n + rest) == |n|
  {
    if n != [] {
      assert (n + rest)[1..] == n[1..] + rest;
      WordRunOfWord(n[1..], rest);
    } else {
      assert n + rest == rest;
    }
  }

  lemma OpenTagRemoved(n: string, t: string, c: string)
    requires IsWord(n)
    ensures RemoveTags("<" + n + ">" + t + c) == RemoveTags(t + c)
  {
    var s := "<" + n + ">" + t + c;
    assert s[1..] == n + (">" + t + c);
    WordRunOfWord(n, ">" + t + c);
    assert s[1 + |n|] == '>';
    assert TagAt(s) == |n| + 2;
    assert s[|n| + 2..] == t + c;
  }

  lemma CloseTagRemoved(n: string)
    requires IsWord(n)
    ensures RemoveTags("</" + n + ">") == ""
  {
    var s := "</" + n + ">";
    assert s[2..] == n + ">";
    WordRunOfWord(n, ">");
    assert TagAt(s) == |s|;
    assert s[|s|..] == [];
  }

  lemma {:induction false} PlainPrefixKept(t: string, u: string)
    requires '<' !in t
    ensures RemoveTags(t + u) == t + RemoveTags(u)
    decreases |t|
  {
    if t != [] {
      var s := t + u;
      assert s[0] == t[0] && TagAt(s) == 0;
      assert s[1..] == t[1..] + u;
      PlainPrefixKept(t[1..], u);
      assert [t[0]] + (t[1..] + RemoveTags(u)) == t + RemoveTags(u);
    } else {
      assert t + u == u;
    }
  }

  /** A value wrapped in an opening and a matching closing tag cleans to its
      stripped content. */
  lemma CleanWrappedValue(n: string, t: string)
    requires IsWord(n) && '<' !in t
    ensures var close := "</" + n + ">"; CleanValue(Some("<" + n + ">" + t + close)) == Strip(t)
  {
    var close := "</" + n + ">";
    OpenTagRemoved(n, t, close);
    PlainPrefixKept(t, close);
    CloseTagRemoved(n);
    assert t + "" == t;
  }

  // ---------------------------------------------------------------------------
  // Ingredient tags: [x.strip() for x in s.split(',') if x.strip()][:8]
  // ---------------------------------------------------------------------------

  /** At most this many ingredient tags are rendered on a card. */
  const TagLimit: nat := 8

  function Min(a: nat, b: nat): nat {
    if a < b then a else b
  }

  /** `[x.strip() for x in pieces if x.strip()]`. */
  function Items(pieces: seq<string>): (r: seq<string>)
    ensures |r| <= |pieces|
  {
    if pieces == [] then []
    else
      var last := Strip(pieces[|pieces| - 1]);
      Items(pieces[..|pieces| - 1]) + (if last != "" then [last] else [])
  }

  /** The non-blank comma-separated entries of `s`, stripped, in order. */
  function CommaItems(s: string): seq<string> {
    Items(Split(s, ','))
  }

  /** The ingredient tags of a card, built from its cleaned ingredient text. */
  function IngredientTags(ingredients: string): seq<string> {
    if ingredients == [] then []
    else
      var items := CommaItems(ingredients);
      items[..Min(TagLimit, |items|)]
  }

  /** A name a tag can carry unchanged. */
  predicate PlainItem(x: string) {
    x != "" && Trimmed(x) && ',' !in x
  }

  lemma StripWithin(s: string, c: char)
    requires c !in s
    ensures c !in Strip(s)
  {
    TrimStartSplit(s);
  }

  lemma {:induction false} ItemsPlain(pieces: seq<string>)
    requires forall k :: 0 <= k < |pieces| ==> ',' !in pieces[k]
    ensures forall k :: 0 <= k < |Items(pieces)| ==> PlainItem(Items(pieces)[k])
  {
    if pieces != [] {
      var init := pieces[..|pieces| - 1];
      assert forall k :: 0 <= k < |init| ==> init[k] == pieces[k];
      ItemsPlain(init);
      StripWithin(pieces[|pieces| - 1], ',');
    }
  }

  /** The tags are the first eight comma entries (all of them when there are
      fewer), each non-empty, stripped and free of commas. */
  lemma IngredientTagsSpec(ingredients: string)
    ensures var items := CommaItems(ingredients);
      IngredientTags(ingredients) == items[..Min(TagLimit, |items|)]
    ensures |IngredientTags(ingredients)| <= TagLimit
    ensures forall k :: 0 <= k < |IngredientTags(ingredients)| ==> PlainItem(IngredientTags(ingredients)[k])
  {
    var items := CommaItems(ingredients);
    if ingredients == [] {
      assert Split(ingredients, ',') == [[]];
      assert Items([[]]) == Items([]) + [];
    }
    ItemsPlain(Split(ingredients, ','));
  }

  /** The pieces `split(',')` finds in a `", "`-joined text after the first one. */
  function Spaced(xs: seq<string>): (r: seq<string>)
    ensures |r| == |xs|
  {
    if xs == [] then [] else [" " + xs[0]] + Spaced(xs[1..])
  }

  lemma {:induction false} SpacedAt(xs: seq<string>, k: nat)
    requires k < |xs|
    ensures Spaced(xs)[k] == " " + xs[k]
  {
    if k > 0 {
      SpacedAt(xs[1..], k - 1);
    }
  }

  lemma Regroup(a: string, b: string)
    ensures " " + (a + ", " + b) == (" " + a) + [','] + (" " + b)
    ensures a + ", " + b == a + [','] + (" " + b)
  {
  }

  lemma {:induction false} SpacedJoin(xs: seq<string>)
    requires |xs| >= 1
    ensures " " + Join(xs, ", ") == Join(Spaced(xs), [','])
  {
    if |xs| > 1 {
      SpacedJoin(xs[1..]);
      Regroup(xs[0], Join(xs[1..], ", "));
      assert Spaced(xs)[1..] == Spaced(xs[1..]);
    }
  }

  /** The pieces of a `", "`-joined text, as `split(',')` finds them. */
  lemma CommaPieces(names: seq<string>)
    requires |names| >= 1
    ensures Join(names, ", ") == Join([names[0]] + Spaced(names[1..]), [','])
  {
    var p := [names[0]] + Spaced(names[1..]);
    if |names| > 1 {
      SpacedJoin(names[1..]);
      assert p[1..] == Spaced(names[1..]);
      Regroup(names[0], Join(names[1..], ", "));
    }
  }

  lemma StripSpaced(x: string)
    requires x != "" && Trimmed(x)
    ensures Strip(" " + x) == x
  {
    assert (" " + x)[1..] == x;
    TrimmedIsFixed(x);
  }

  lemma {:induction false} ItemsOfStripped(pieces: seq<string>, names: seq<string>)
    requires |pieces| == |names|
    requires forall k :: 0 <= k < |names| ==> names[k] != "" && Strip(pieces[k]) == names[k]
    ensures Items(pieces) == names
  {
    if pieces != [] {
      var n := |pieces| - 1;
      ItemsOfStripped(pieces[..n], names[..n]);
      assert names[..n] + [names[n]] == names;
    }
  }

  /** Splitting names joined with `", "` on commas and stripping each entry gives
      the names back, when none of them is blank, padded or holds a comma. */
  lemma CommaItemsOfJoin(names: seq<string>)
    requires forall k :: 0 <= k < |names| ==> PlainItem(names[k])
    ensures CommaItems(Join(names, ", ")) == names
  {
    if names == [] {
      assert Split("", ',') == [[]];
      assert Items([[]]) == Items([]) + [];
    } else {
      var p := [names[0]] + Spaced(names[1..]);
      CommaPieces(names);
      PiecesOfNames(names);
      SplitJoin(p, ',');
      ItemsOfStripped(p, names);
    }
  }

  lemma PiecesOfNames(names: seq<string>)
    requires |names| >= 1
    requires forall k :: 0 <= k < |names| ==> PlainItem(names[k])
    ensures var p := [names[0]] + Spaced(names[1..]);
      forall k :: 0 <= k < |p| ==> ',' !in p[k] && Strip(p[k]) == names[k]
  {
    var p := [names[0]] + Spaced(names[1..]);
    forall k | 0 <= k < |p| ensures ',' !in p[k] && Strip(p[k]) == names[k] {
      if k == 0 {
        TrimmedIsFixed(names[0]);
      } else {
        SpacedAt(names[1..], k - 1);
        StripSpaced(names[k]);
      }
    }
  }

  lemma {:induction false} JoinAvoids(names: seq<string>, c: char)
    requires c != ',' && c != ' '
    requires forall k :: 0 <= k < |names| ==> c !in names[k]
    ensures c !in Join(names, ", ")
  {
    if |names| > 1 {
      JoinAvoids(names[1..], c);
    }
  }

  lemma {:induction false} JoinEnds(names: seq<string>)
    requires |names| >= 1
    requires forall k :: 0 <= k < |names| ==> names[k] != ""
    ensures var j := Join(names, ", ");
      |j| >= |names[0]| && j[0] == names[0][0]
      && j[|j| - 1] == names[|names| - 1][|names[|names| - 1]| - 1]
  {
    if |names| > 1 {
      JoinEnds(names[1..]);
    }
  }

  /** A card shows the first eight of the ingredient names it is given joined
      with `", "`, in order, provided no name is blank, padded or holds a comma
      or a `<`. */
  lemma TagsOfJoinedNames(names: seq<string>)
    requires forall k :: 0 <= k < |names| ==> PlainItem(names[k]) && '<' !in names[k]
    ensures IngredientTags(CleanValue(Some(Join(names, ", ")))) == names[..Min(TagLimit, |names|)]
  {
    var j := Join(names, ", ");
    JoinAvoids(names, '<');
    CleanValueSpec(Some(j));
    if names == [] {
      assert j == "";
    } else {
      JoinEnds(names);
      assert Trimmed(j);
      TrimmedIsFixed(j);
      CommaItemsOfJoin(names);
    }
  }
}
