/** Python string behaviour the cocktail pipeline depends on: what counts as
    whitespace, `str.strip()`, `re.sub(r'\s+', ' ', s)`, `str.split(sep)` for a
    one-character separator and `sep.join(parts)`. */
module Text {

  /** Python's `str.isspace()` for one character. The regular-expression class
      `\s` on `str` patterns and the argument-less `str.strip()` both use this set. */
  predicate IsSpace(c: char) {
    c == ' ' || c == '\t' || c == '\n' || c == '\r' || c == '\U{B}' || c == '\U{C}'
    || ('\U{1C}' <= c <= '\U{1F}') || c == '\U{85}' || c == '\U{A0}' || c == '\U{1680}'
    || ('\U{2000}' <= c <= '\U{200A}') || c == '\U{2028}' || c == '\U{2029}'
    || c == '\U{202F}' || c == '\U{205F}' || c == '\U{3000}'
  }

  predicate AllSpace(s: string) {
    forall i :: 0 <= i < |s| ==> IsSpace(s[i])
  }

  /** No whitespace at either end. */
  predicate Trimmed(s: string) {
    s == [] || (!IsSpace(s[0]) && !IsSpace(s[|s| - 1]))
  }

  /** Every whitespace character is a plain space and no two of them are adjacent. */
  predicate Collapsed(s: string) {
    (forall i :: 0 <= i < |s| && IsSpace(s[i]) ==> s[i] == ' ')
    && (forall i, j :: 0 <= i < |s| && 0 <= j < |s| && j == i + 1 ==> !(IsSpace(s[i]) && IsSpace(s[j])))
  }

  /** The characters of `s` that are not whitespace, in order. */
  function NonSpace(s: string): string {
    if s == [] then [] else (if IsSpace(s[0]) then [] else [s[0]]) + NonSpace(s[1..])
  }

  /** `s.lstrip()`: the longest suffix of `s` that does not start with whitespace. */
  function TrimStart(s: string): (r: string)
    ensures |r| <= |s|
    ensures r == [] || !IsSpace(r[0])
  {
    if s != [] && IsSpace(s[0]) then TrimStart(s[1..]) else s
  }

  /** `s.rstrip()`: the longest prefix of `s` that does not end with whitespace. */
  function TrimEnd(s: string): (r: string)
    ensures |r| <= |s| && r == s[..|r|]
    ensures r == [] || !IsSpace(r[|r| - 1])
  {
    if s != [] && IsSpace(s[|s| - 1]) then TrimEnd(s[..|s| - 1]) else s
  }

  /** `s.strip()`. */
  function Strip(s: string): (r: string)
    ensures Trimmed(r) && |r| <= |s|
  {
    TrimEnd(TrimStart(s))
  }

  /** `re.sub(r'\s+', ' ', s)`: every maximal run of whitespace becomes one space. */
  function CollapseRuns(s: string): (r: string)
    ensures Collapsed(r) && |r| <= |s|
    ensures s != [] ==> r != [] && (IsSpace(r[0]) <==> IsSpace(s[0]))
    decreases |s|
  {
    if s == [] then []
    else if IsSpace(s[0]) then
      var t := TrimStart(s);
      " " + CollapseRuns(t)
    else [s[0]] + CollapseRuns(s[1..])
  }

  /** `re.sub(r'\s+', ' ', s).strip()`, the cleaning applied to every combined text. */
  function NormalizeSpace(s: string): string {
    Strip(CollapseRuns(s))
  }

  /** The leading run of non-whitespace characters of `s`. */
  function WordPrefix(s: string): (w: string)
    ensures |w| <= |s| && w == s[..|w|]
    ensures forall i :: 0 <= i < |w| ==> !IsSpace(w[i])
    ensures |w| < |s| ==> IsSpace(s[|w|])
    ensures s != [] && !IsSpace(s[0]) ==> |w| >= 1
  {
    if s == [] || IsSpace(s[0]) then [] else [s[0]] + WordPrefix(s[1..])
  }

  /** `s.split()`: the maximal runs of non-whitespace characters, in order. */
  function Words(s: string): seq<string>
    decreases |s|
  {
    if s == [] then []
    else if IsSpace(s[0]) then Words(s[1..])
    else
      var w := WordPrefix(s);
      [w] + Words(s[|w|..])
  }

  /** `s.startswith(p)`. */
  predicate StartsWith(s: string, p: string) {
    |p| <= |s| && s[..|p|] == p
  }

  /** `s.split(sep)` for a one-character separator: never empty, and the pieces
      are the text between separators. */
  function Split(s: string, sep: char): (parts: seq<string>)
    ensures |parts| >= 1
    ensures forall k :: 0 <= k < |parts| ==> sep !in parts[k]
  {
    if s == [] then [[]]
    else
      var rest := Split(s[1..], sep);
      if s[0] == sep then [[]] + rest
      else [[s[0]] + rest[0]] + rest[1..]
  }

  /** `sep.join(parts)`. */
  function Join(parts: seq<string>, sep: string): string {
    if |parts| == 0 then []
    else if |parts| == 1 then parts[0]
    else parts[0] + sep + Join(parts[1..], sep)
  }

  // ---------------------------------------------------------------------------
  // Lemmas

  lemma {:induction false} NonSpaceAppend(a: string, b: string)
    ensures NonSpace(a + b) == NonSpace(a) + NonSpace(b)
  {
    if a != [] {
      var head := if IsSpace(a[0]) then [] else [a[0]];
      assert (a + b)[0] == a[0];
      assert (a + b)[1..] == a[1..] + b;
      NonSpaceAppend(a[1..], b);
      calc {
        NonSpace(a + b);
        head + NonSpace(a[1..] + b);
        head + (NonSpace(a[1..]) + NonSpace(b));
        (head + NonSpace(a[1..])) + NonSpace(b);
      }
    } else {
      assert a + b == b;
    }
  }

  lemma {:induction false} NonSpaceOfSpaces(a: string)
    requires AllSpace(a)
    ensures NonSpace(a) == []
  {
    if a != [] {
      NonSpaceOfSpaces(a[1..]);
    }
  }

  lemma TrimmedIsFixed(s: string)
    requires Trimmed(s)
    ensures TrimStart(s) == s && TrimEnd(s) == s && Strip(s) == s
  {
  }

  lemma CollapsedSlice(s: string, i: int, j: int)
    requires Collapsed(s) && 0 <= i <= j <= |s|
    ensures Collapsed(s[i..j])
  {
    var t := s[i..j];
    forall k, l | 0 <= k < l < |t| && l == k + 1 ensures !(IsSpace(t[k]) && IsSpace(t[l])) {
      assert t[k] == s[i + k] && t[l] == s[i + l];
    }
  }

  /** `lstrip` removes a whitespace prefix and keeps the rest as it is. */
  lemma {:induction false} TrimStartSplit(s: string)
    ensures var r := TrimStart(s); r == s[|s| - |r|..] && AllSpace(s[..|s| - |r|])
  {
    if s != [] && IsSpace(s[0]) {
      TrimStartSplit(s[1..]);
      var r := TrimStart(s);
      assert r == TrimStart(s[1..]);
      assert s[1..][|s| - 1 - |r|..] == s[|s| - |r|..];
      var pre, rest := s[..|s| - |r|], s[1..][..|s| - 1 - |r|];
      forall i | 0 <= i < |pre| ensures IsSpace(pre[i]) {
        if i > 0 {
          assert pre[i] == rest[i - 1];
        }
      }
    }
  }

  /** `rstrip` removes a whitespace suffix. */
  lemma {:induction false} TrimEndSplit(s: string)
    ensures AllSpace(s[|TrimEnd(s)|..])
  {
    if s != [] && IsSpace(s[|s| - 1]) {
      var init := s[..|s| - 1];
      TrimEndSplit(init);
      var r := TrimEnd(s);
      assert r == TrimEnd(init);
      forall i | 0 <= i < |s| - |r| ensures IsSpace(s[|r|..][i]) {
        if |r| + i < |s| - 1 {
          assert s[|r|..][i] == init[|r|..][i];
        }
      }
    }
  }

  lemma TrimStartKeepsContent(s: string)
    ensures NonSpace(TrimStart(s)) == NonSpace(s)
  {
    var t := TrimStart(s);
    TrimStartSplit(s);
    assert s == s[..|s| - |t|] + t;
    NonSpaceAppend(s[..|s| - |t|], t);
    NonSpaceOfSpaces(s[..|s| - |t|]);
  }

  lemma TrimEndKeepsContent(s: string)
    ensures NonSpace(TrimEnd(s)) == NonSpace(s)
  {
    var r := TrimEnd(s);
    TrimEndSplit(s);
    assert s == r + s[|r|..];
    NonSpaceAppend(r, s[|r|..]);
    NonSpaceOfSpaces(s[|r|..]);
  }

  lemma StripEmptyIffSpace(s: string)
    ensures Strip(s) == [] <==> AllSpace(s)
  {
    var t := TrimStart(s);
    TrimStartSplit(s);
    if t != [] {
      TrimEndSplit(t);
      assert !AllSpace(t) by { assert !IsSpace(t[0]); }
      assert s[|s| - |t|] == t[0];
    } else {
      assert s[..|s|] == s;
    }
  }

  /** Stripping keeps every non-whitespace character, and only whitespace
      strings strip to nothing. */
  lemma StripKeepsContent(s: string)
    ensures NonSpace(Strip(s)) == NonSpace(s)
    ensures Strip(s) == [] <==> AllSpace(s)
  {
    TrimStartKeepsContent(s);
    TrimEndKeepsContent(TrimStart(s));
    StripEmptyIffSpace(s);
  }

  lemma {:induction false} CollapseRunsKeepsContent(s: string)
    ensures NonSpace(CollapseRuns(s)) == NonSpace(s)
    decreases |s|
  {
    if s == [] {
    } else if IsSpace(s[0]) {
      var t := TrimStart(s);
      TrimStartSplit(s);
      CollapseRunsKeepsContent(t);
      NonSpaceAppend(" ", CollapseRuns(t));
      assert s == s[..|s| - |t|] + t;
      NonSpaceAppend(s[..|s| - |t|], t);
      NonSpaceOfSpaces(s[..|s| - |t|]);
    } else {
      CollapseRunsKeepsContent(s[1..]);
      NonSpaceAppend([s[0]], CollapseRuns(s[1..]));
      assert s == [s[0]] + s[1..];
      NonSpaceAppend([s[0]], s[1..]);
    }
  }

  /** A lone leading space is all `lstrip` removes. */
  lemma TrimStartOneSpace(s: string)
    requires s != [] && IsSpace(s[0]) && (|s| == 1 || !IsSpace(s[1]))
    ensures TrimStart(s) == s[1..]
  {
    assert TrimStart(s) == TrimStart(s[1..]);
  }

  lemma CollapseRunsSpaceHead(s: string)
    requires s != [] && IsSpace(s[0]) && (|s| == 1 || !IsSpace(s[1]))
    ensures CollapseRuns(s) == " " + CollapseRuns(s[1..])
  {
    TrimStartOneSpace(s);
  }

  lemma HeadTail(s: string)
    requires s != []
    ensures s == [s[0]] + s[1..] && (s[0] == ' ' ==> s == " " + s[1..])
  {
  }

  lemma CollapseRunsCharHead(s: string)
    requires s != [] && !IsSpace(s[0])
    ensures CollapseRuns(s) == [s[0]] + CollapseRuns(s[1..])
  {
  }

  /** A collapsed string starting with whitespace starts with one plain space. */
  lemma CollapsedHead(s: string)
    requires Collapsed(s) && s != [] && IsSpace(s[0])
    ensures s[0] == ' ' && (|s| == 1 || !IsSpace(s[1]))
  {
    if |s| > 1 {
      assert !(IsSpace(s[0]) && IsSpace(s[0 + 1]));
    }
  }

  lemma {:induction false} CollapsedIsFixed(s: string)
    requires Collapsed(s)
    ensures CollapseRuns(s) == s
  {
    if s != [] {
      var tail := s[1..];
      CollapsedSlice(s, 1, |s|);
      CollapsedIsFixed(tail);
      if IsSpace(s[0]) {
        CollapsedHead(s);
        CollapseRunsSpaceHead(s);
      } else {
        CollapseRunsCharHead(s);
      }
      HeadTail(s);
    }
  }

  lemma StripCollapsed(s: string)
    requires Collapsed(s)
    ensures Collapsed(Strip(s))
  {
    var t := TrimStart(s);
    TrimStartSplit(s);
    CollapsedSlice(s, |s| - |t|, |s|);
    CollapsedSlice(t, 0, |TrimEnd(t)|);
  }

  /** The cleaning of a combined text: the result has no whitespace at either
      end, no whitespace other than single spaces, the same non-whitespace
      characters as the input in the same order, and cleaning it again changes
      nothing. */
  lemma NormalizeSpaceSpec(s: string)
    ensures Trimmed(NormalizeSpace(s)) && Collapsed(NormalizeSpace(s))
    ensures NonSpace(NormalizeSpace(s)) == NonSpace(s)
    ensures NormalizeSpace(NormalizeSpace(s)) == NormalizeSpace(s)
  {
    var c := CollapseRuns(s);
    var u := Strip(c);
    StripCollapsed(c);
    CollapseRunsKeepsContent(s);
    StripKeepsContent(c);
    CollapsedIsFixed(u);
    TrimmedIsFixed(u);
  }

  /** The cleaning keeps the words apart: it is `" ".join(s.split())`, so
      every whitespace run between two words becomes exactly one space and
      no word is split or merged. */
  lemma NormalizeSpaceWords(s: string)
    ensures NormalizeSpace(s) == Join(Words(s), " ")
  {
    var t := TrimStart(s);
    var c := CollapseRuns(s);
    if s != [] && IsSpace(s[0]) {
      var x := CollapseRuns(t);
      assert c == " " + x;
      assert (" " + x)[1..] == x;
      assert TrimStart(c) == TrimStart(x);
    }
    assert TrimStart(c) == CollapseRuns(t);
    CollapsedWords(t);
    WordsTrimStart(s);
  }

  /** Leading whitespace holds no word. */
  lemma {:induction false} WordsTrimStart(s: string)
    ensures Words(TrimStart(s)) == Words(s)
  {
    if s != [] && IsSpace(s[0]) {
      WordsTrimStart(s[1..]);
    }
  }

  /** A word passes through `re.sub(r'\s+', ' ', ...)` unchanged. */
  lemma {:induction false} CollapseRunsWord(w: string, rest: string)
    requires forall i :: 0 <= i < |w| ==> !IsSpace(w[i])
    ensures CollapseRuns(w + rest) == w + CollapseRuns(rest)
  {
    if w != [] {
      HeadSplit(w, rest);
      CollapseRunsCharHead(w + rest);
      assert forall i :: 0 <= i < |w[1..]| ==> w[1..][i] == w[i + 1];
      CollapseRunsWord(w[1..], rest);
      HeadSplit(w, CollapseRuns(rest));
    } else {
      assert w + rest == rest;
    }
  }

  /** `rstrip` only reaches into the last part when that part holds a
      non-whitespace character. */
  lemma {:induction false} TrimEndAppend(a: string, b: string)
    requires TrimEnd(b) != []
    ensures TrimEnd(a + b) == a + TrimEnd(b)
    decreases |b|
  {
    var n := |b| - 1;
    if IsSpace(b[n]) {
      assert (a + b)[..|a + b| - 1] == a + b[..n];
      TrimEndAppend(a, b[..n]);
    }
  }

  /** A string that starts with a non-whitespace character keeps it under `rstrip`. */
  lemma {:induction false} TrimEndKeepsHead(x: string)
    requires x != [] && !IsSpace(x[0])
    ensures TrimEnd(x) != []
    decreases |x|
  {
    if IsSpace(x[|x| - 1]) {
      TrimEndKeepsHead(x[..|x| - 1]);
    }
  }

  /** Collapsing and right-stripping a text that starts with a word joins its
      words with single spaces. */
  lemma {:induction false} CollapsedWords(t: string)
    requires t == [] || !IsSpace(t[0])
    ensures TrimEnd(CollapseRuns(t)) == Join(Words(t), " ")
    decreases |t|
  {
    if t != [] {
      var u := TrimStart(t[|WordPrefix(t)|..]);
      if u != [] {
        CollapsedWords(u);
        CollapsedWordsMore(t);
      } else {
        CollapsedWordsLast(t);
      }
    }
  }

  /** The text's only word, perhaps followed by whitespace. */
  lemma CollapsedWordsLast(t: string)
    requires t != [] && !IsSpace(t[0]) && TrimStart(t[|WordPrefix(t)|..]) == []
    ensures TrimEnd(CollapseRuns(t)) == Join(Words(t), " ")
  {
    var w := WordPrefix(t);
    var rest := t[|w|..];
    assert Join(Words(t), " ") == w by {
      WordsStep(t);
      WordsTrimStart(rest);
      assert Words(t) == [w];
    }
    assert TrimEnd(CollapseRuns(t)) == w by {
      WordSplit(t);
      if rest == [] {
        assert CollapseRuns(t) == w;
      } else {
        CollapseRunsSpaceStart(rest);
        TrimEndOneSpace(w);
      }
    }
  }

  /** A word, whitespace, then more words. */
  lemma CollapsedWordsMore(t: string)
    requires t != [] && !IsSpace(t[0])
    requires var u := TrimStart(t[|WordPrefix(t)|..]);
      u != [] && TrimEnd(CollapseRuns(u)) == Join(Words(u), " ")
    ensures TrimEnd(CollapseRuns(t)) == Join(Words(t), " ")
  {
    var w := WordPrefix(t);
    var rest := t[|w|..];
    var u := TrimStart(rest);
    var x := CollapseRuns(u);
    assert Join(Words(t), " ") == w + " " + Join(Words(u), " ") by {
      WordsStep(t);
      WordsTrimStart(rest);
      WordsOfWordStart(u);
      JoinCons(w, Words(u), " ");
    }
    assert CollapseRuns(t) == (w + " ") + x by {
      WordSplit(t);
      assert rest != [];
      CollapseRunsSpaceStart(rest);
      SeqAssoc(w, " ", x);
    }
    assert TrimEnd((w + " ") + x) == (w + " ") + TrimEnd(x) by {
      TrimEndKeepsHead(x);
      TrimEndAppend(w + " ", x);
    }
  }

  /** A text that starts with a word is that word followed by the rest, which
      is empty or starts with whitespace; the word collapses to itself. */
  lemma WordSplit(t: string)
    requires t != [] && !IsSpace(t[0])
    ensures var w := WordPrefix(t); var rest := t[|w|..];
      t == w + rest && (rest == [] || IsSpace(rest[0]))
      && CollapseRuns(t) == w + CollapseRuns(rest)
  {
    var w := WordPrefix(t);
    assert t == w + t[|w|..];
    CollapseRunsWord(w, t[|w|..]);
  }

  lemma CollapseRunsSpaceStart(s: string)
    requires s != [] && IsSpace(s[0])
    ensures CollapseRuns(s) == " " + CollapseRuns(TrimStart(s))
  {
  }

  lemma TrimEndOneSpace(w: string)
    requires w != [] && !IsSpace(w[|w| - 1])
    ensures TrimEnd(w + " ") == w
  {
    assert (w + " ")[..|w|] == w;
  }

  lemma WordsOfWordStart(u: string)
    requires u != [] && !IsSpace(u[0])
    ensures Words(u) != []
  {
  }

  lemma JoinCons(w: string, ws: seq<string>, sep: string)
    requires ws != []
    ensures Join([w] + ws, sep) == w + sep + Join(ws, sep)
  {
    assert ([w] + ws)[1..] == ws;
  }

  /** A word ends where whitespace starts, whatever follows. */
  lemma {:induction false} WordPrefixAppend(x: string, y: string)
    requires |WordPrefix(x)| < |x| || (y != [] && IsSpace(y[0]))
    ensures WordPrefix(x + y) == WordPrefix(x)
  {
    if x == [] {
      assert x + y == y;
    } else if !IsSpace(x[0]) {
      assert (x + y)[1..] == x[1..] + y;
      WordPrefixAppend(x[1..], y);
    }
  }

  /** The words of two texts, the first ending in whitespace, are the words
      of each. */
  lemma {:induction false} WordsAppend(x: string, y: string)
    requires x == [] || IsSpace(x[|x| - 1])
    ensures Words(x + y) == Words(x) + Words(y)
    decreases |x|
  {
    if x == [] {
      assert x + y == y;
    } else if IsSpace(x[0]) {
      WordsAppend(x[1..], y);
      WordsAppendSpace(x, y);
    } else {
      var w := WordPrefix(x);
      WordsAppend(x[|w|..], y);
      WordsAppendWord(x, y);
    }
  }

  lemma WordsAppendSpace(x: string, y: string)
    requires x != [] && IsSpace(x[0])
    requires Words(x[1..] + y) == Words(x[1..]) + Words(y)
    ensures Words(x + y) == Words(x) + Words(y)
  {
    HeadSplit(x, y);
  }

  lemma HeadSplit(w: string, y: string)
    requires w != []
    ensures (w + y)[0] == w[0] && (w + y)[1..] == w[1..] + y && [w[0]] + (w[1..] + y) == w + y
  {
  }

  lemma WordsAppendWord(x: string, y: string)
    requires x != [] && !IsSpace(x[0]) && IsSpace(x[|x| - 1])
    requires var w := WordPrefix(x); |w| < |x| && Words(x[|w|..] + y) == Words(x[|w|..]) + Words(y)
    ensures Words(x + y) == Words(x) + Words(y)
  {
    var w, xy := WordPrefix(x), x + y;
    var x' := x[|w|..];
    assert Words(xy) == [w] + Words(x' + y) by {
      WordPrefixAppend(x, y);
      HeadSplit(x, y);
      WordsStep(xy);
      SuffixAppend(x, y, |w|);
    }
    assert Words(x) == [w] + Words(x') by {
      WordsStep(x);
    }
    SeqAssoc([w], Words(x'), Words(y));
  }

  lemma SeqAssoc<T>(a: seq<T>, b: seq<T>, c: seq<T>)
    ensures a + (b + c) == (a + b) + c
  {
  }

  lemma SuffixAppend(x: string, y: string, k: nat)
    requires k <= |x|
    ensures (x + y)[k..] == x[k..] + y
  {
  }

  /** How `Words` reads the word at the start of a text. */
  lemma WordsStep(s: string)
    requires s != [] && !IsSpace(s[0])
    ensures Words(s) == [WordPrefix(s)] + Words(s[|WordPrefix(s)|..])
  {
  }

  /** A trailing space adds no word. */
  lemma {:induction false} WordsTrailingSpace(y: string)
    ensures Words(y + " ") == Words(y)
    decreases |y|
  {
    if y == [] {
      assert Words(" ") == Words([]);
    } else if IsSpace(y[0]) {
      assert (y + " ")[1..] == y[1..] + " ";
      WordsTrailingSpace(y[1..]);
    } else {
      var w := WordPrefix(y);
      WordPrefixAppend(y, " ");
      assert (y + " ")[|w|..] == y[|w|..] + " ";
      WordsTrailingSpace(y[|w|..]);
    }
  }

  /** Python's `"".join(s.split(sep))` with the separator put back gives `s`. */
  lemma {:induction false} JoinSplit(s: string, sep: char)
    ensures Join(Split(s, sep), [sep]) == s
  {
    if s != [] {
      JoinSplit(s[1..], sep);
      var rest := Split(s[1..], sep);
      if s[0] != sep && |rest| > 1 {
        assert Join(rest, [sep]) == rest[0] + [sep] + Join(rest[1..], [sep]);
      }
    }
  }

  lemma {:induction false} SplitNoSeparator(x: string, sep: char)
    requires sep !in x
    ensures Split(x, sep) == [x]
  {
    if x != [] {
      assert x[0] != sep && sep !in x[1..];
      SplitNoSeparator(x[1..], sep);
      assert [x[0]] + x[1..] == x;
    }
  }

  lemma {:induction false} SplitAfterPiece(x: string, y: string, sep: char)
    requires sep !in x
    ensures Split(x + [sep] + y, sep) == [x] + Split(y, sep)
  {
    if x == [] {
      assert x + [sep] + y == [sep] + y;
      assert ([sep] + y)[1..] == y;
    } else {
      assert (x + [sep] + y)[1..] == x[1..] + [sep] + y;
      SplitAfterPiece(x[1..], y, sep);
      assert [x[0]] + x[1..] == x;
    }
  }

  /** Splitting a join undoes it when no piece holds the separator. */
  lemma {:induction false} SplitJoin(parts: seq<string>, sep: char)
    requires |parts| >= 1
    requires forall k :: 0 <= k < |parts| ==> sep !in parts[k]
    ensures Split(Join(parts, [sep]), sep) == parts
  {
    if |parts| == 1 {
      SplitNoSeparator(parts[0], sep);
    } else {
      SplitJoin(parts[1..], sep);
      SplitAfterPiece(parts[0], Join(parts[1..], [sep]), sep);
      assert [parts[0]] + parts[1..] == parts;
    }
  }
}
