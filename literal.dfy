/** The list literals that `ast.literal_eval` is asked to read in the cocktail
    data (the `ingredients` and `ingredientMeasures` columns hold strings such as
    `['Gin', 'Dry Vermouth']`). The parser accepts a bracketed, comma-separated
    list of quoted strings and `None`, with an optional trailing comma, with
    Python's whitespace between tokens and with adjacent string literals
    concatenated as Python does; anything else is an error, never an exception. */
module PyLiteral {
  import opened Text

  /** One element of a parsed list: a string, or Python's `None`. */
  datatype Literal = Str(text: string) | NoneLit

  datatype ParseError = NotAList | Unterminated | EscapeNotSupported | TripleQuoteNotSupported | NullCharacter | UnexpectedText | TrailingText

  datatype Result<T> = Ok(value: T) | Err(error: ParseError) {
    predicate IsFailure() {
      Err?
    }

    function PropagateFailure<U>(): Result<U>
      requires Err?
    {
      Err(error)
    }

    function Extract(): T
      requires Ok?
    {
      value
    }
  }

  /** A parsed value and the text after it. */
  datatype Parsed<T> = Parsed(value: T, rest: string)

  /** `str(x)` of a list element. */
  function Show(l: Literal): string {
    match l
    case Str(t) => t
    case NoneLit => "None"
  }

  /** Python truthiness of a list element: a non-empty string. */
  predicate Truthy(l: Literal) {
    l.Str? && l.text != ""
  }

  /** The whitespace Python's tokenizer skips between the tokens of a bracketed expression. */
  predicate IsTokenSpace(c: char) {
    c == ' ' || c == '\t' || c == '\n' || c == '\r' || c == '\U{C}'
  }

  predicate IsQuote(c: char) {
    c == '\'' || c == '"'
  }

  function SkipTokenSpace(s: string): (r: string)
    ensures |r| <= |s| && r == s[|s| - |r|..]
    ensures r == [] || !IsTokenSpace(r[0])
  {
    if s != [] && IsTokenSpace(s[0]) then SkipTokenSpace(s[1..]) else s
  }

  /** The characters of a string literal up to its closing quote `q`; `s` starts
      just after the opening quote. A line break before the closing quote is an
      unterminated literal; a backslash starts an escape sequence, which this
      parser does not decode. Python refuses any source text holding a NUL
      character; outside quotes no token starts with one, so only the quoted
      body needs the test. */
  function QuotedBody(s: string, q: char): (r: Result<Parsed<string>>)
    ensures r.Ok? ==> s == r.value.value + [q] + r.value.rest && q !in r.value.value
  {
    if s == [] || s[0] == '\n' || s[0] == '\r' then Err(Unterminated)
    else if s[0] == q then Ok(Parsed([], s[1..]))
    else if s[0] == '\0' then Err(NullCharacter)
    else if s[0] == '\\' then Err(EscapeNotSupported)
    else
      var p :- QuotedBody(s[1..], q);
      Ok(Parsed([s[0]] + p.value, p.rest))
  }

  /** One or more adjacent string literals, starting at an opening quote; the
      rest starts after the whitespace that follows the last of them. Python's
      tokenizer reads three quotes at the start of a literal as a triple-quoted
      string, which this parser does not read. */
  function StringElement(s: string): (r: Result<Parsed<string>>)
    requires s != [] && IsQuote(s[0])
    ensures r.Ok? ==> |r.value.rest| < |s|
    decreases |s|
  {
    if TripleOpening(s) then Err(TripleQuoteNotSupported)
    else
    var p :- QuotedBody(s[1..], s[0]);
    var t := SkipTokenSpace(p.rest);
    if t != [] && IsQuote(t[0]) then
      var more :- StringElement(t);
      Ok(Parsed(p.value + more.value, more.rest))
    else
      Ok(Parsed(p.value, t))
  }

  /** Three quotes of the same kind. */
  predicate TripleOpening(s: string) {
    |s| >= 3 && s[1] == s[0] && s[2] == s[0]
  }

  /** One list element, starting at a non-space character. */
  function Element(s: string): (r: Result<Parsed<Literal>>)
    ensures r.Ok? ==> |r.value.rest| < |s|
  {
    if s != [] && IsQuote(s[0]) then
      var p :- StringElement(s);
      Ok(Parsed(Str(p.value), p.rest))
    else if StartsWith(s, "None") then
      Ok(Parsed(NoneLit, SkipTokenSpace(s[4..])))
    else
      Err(UnexpectedText)
  }

  /** The elements after the opening bracket, through the closing one; `s`
      starts at a non-space character. */
  function Elements(s: string): (r: Result<Parsed<seq<Literal>>>)
    ensures r.Ok? ==> |r.value.rest| < |s|
    decreases |s|
  {
    if s != [] && s[0] == ']' then Ok(Parsed([], s[1..]))
    else
      var e :- Element(s);
      var t := e.rest;
      if t != [] && t[0] == ']' then
        Ok(Parsed([e.value], t[1..]))
      else if t != [] && t[0] == ',' then
        var more :- Elements(SkipTokenSpace(t[1..]));
        Ok(Parsed([e.value] + more.value, more.rest))
      else
        Err(UnexpectedText)
  }

  /** `ast.literal_eval(s)` for a field that starts with `[`: the list, or the
      error that Python would raise as an exception. */
  function ParseList(s: string): Result<seq<Literal>> {
    if s == [] || s[0] != '[' then Err(NotAList)
    else
      var p :- Elements(SkipTokenSpace(s[1..]));
      if SkipTokenSpace(p.rest) == [] then Ok(p.value) else Err(TrailingText)
  }

  // ---------------------------------------------------------------------------
  // Rendering: how a list of strings is written as a Python list literal.

  /** A string that can sit between single quotes without escaping, and
      without the NUL character that Python refuses in any source text. */
  predicate Plain(t: string) {
    forall i :: 0 <= i < |t| ==> t[i] != '\'' && t[i] != '\\' && t[i] != '\n' && t[i] != '\r' && t[i] != '\0'
  }

  predicate AllPlain(ls: seq<Literal>) {
    forall i :: 0 <= i < |ls| ==> (ls[i].Str? ==> Plain(ls[i].text))
  }

  function RenderElement(l: Literal): string {
    match l
    case Str(t) => "'" + t + "'"
    case NoneLit => "None"
  }

  function RenderElements(ls: seq<Literal>): string {
    if |ls| == 0 then ""
    else if |ls| == 1 then RenderElement(ls[0])
    else RenderElement(ls[0]) + ", " + RenderElements(ls[1..])
  }

  /** A list of strings and `None`s written as a Python list literal, e.g.
      `['Gin', None]`: each string between single quotes, elements separated by
      `, `. For strings of printable characters this is Python's `repr`; a tab
      or other control character is written as itself, where `repr` writes an
      escape sequence that means the same character. */
  function Render(ls: seq<Literal>): string {
    "[" + RenderElements(ls) + "]"
  }

  // ---------------------------------------------------------------------------
  // Lemmas

  lemma {:induction false} QuotedBodyOfPlain(t: string, rest: string)
    requires Plain(t)
    ensures QuotedBody(t + "'" + rest, '\'') == Ok(Parsed(t, rest))
  {
    if t == [] {
      assert t + "'" + rest == "'" + rest;
    } else {
      assert (t + "'" + rest)[1..] == t[1..] + "'" + rest;
      QuotedBodyOfPlain(t[1..], rest);
      assert [t[0]] + t[1..] == t;
    }
  }

  /** Without a closing quote, a string literal is unterminated. */
  lemma {:induction false} QuotedBodyUnclosed(t: string, q: char)
    requires q !in t
    ensures QuotedBody(t, q).Err?
  {
    if t != [] {
      QuotedBodyUnclosed(t[1..], q);
    }
  }

  /** What may follow a rendered element: a separator or the closing bracket. */
  predicate FollowsElement(rest: string) {
    rest != [] && (rest[0] == ',' || rest[0] == ']')
  }

  lemma StringElementOfPlain(t: string, rest: string)
    requires Plain(t) && FollowsElement(rest)
    ensures StringElement("'" + t + "'" + rest) == Ok(Parsed(t, rest))
  {
    var s := "'" + t + "'" + rest;
    PlainLiteralOpens(t, rest);
    QuotedBodyOfPlain(t, rest);
    assert SkipTokenSpace(rest) == rest;
    SingleStringElement(s, Parsed(t, rest));
  }

  /** A rendered plain string opens with one quote, not three. */
  lemma PlainLiteralOpens(t: string, rest: string)
    requires Plain(t) && FollowsElement(rest)
    ensures var s := "'" + t + "'" + rest;
      s[0] == '\'' && s[1..] == t + "'" + rest && !TripleOpening(s)
  {
    var s := "'" + t + "'" + rest;
    assert s[1..] == t + "'" + rest;
    if t != [] {
      assert s[1] == t[0];
    } else {
      assert s[2] == rest[0];
    }
  }

  /** A single string literal, not triple-quoted, followed by something other
      than whitespace or another quote. */
  lemma SingleStringElement(s: string, p: Parsed<string>)
    requires s != [] && IsQuote(s[0]) && !TripleOpening(s)
    requires QuotedBody(s[1..], s[0]) == Ok(p)
    requires SkipTokenSpace(p.rest) == p.rest && (p.rest == [] || !IsQuote(p.rest[0]))
    ensures StringElement(s) == Ok(p)
  {
  }

  lemma ElementOfString(t: string, rest: string)
    requires Plain(t) && FollowsElement(rest)
    ensures Element("'" + t + "'" + rest) == Ok(Parsed(Str(t), rest))
  {
    StringElementOfPlain(t, rest);
  }

  lemma ElementOfNone(rest: string)
    requires FollowsElement(rest)
    ensures Element("None" + rest) == Ok(Parsed(NoneLit, rest))
  {
    var s := "None" + rest;
    assert s[0] == 'N';
    assert s[..4] == "None" && s[4..] == rest;
    assert SkipTokenSpace(rest) == rest;
  }

  lemma ElementOfRendered(l: Literal, rest: string)
    requires l.Str? ==> Plain(l.text)
    requires FollowsElement(rest)
    ensures Element(RenderElement(l) + rest) == Ok(Parsed(l, rest))
  {
    if l.Str? {
      assert RenderElement(l) + rest == "'" + l.text + "'" + rest;
      ElementOfString(l.text, rest);
    } else {
      ElementOfNone(rest);
    }
  }

  lemma RenderElementStart(l: Literal)
    ensures |RenderElement(l)| >= 2
    ensures RenderElement(l)[0] == '\'' || RenderElement(l)[0] == 'N'
  {
    match l
    case Str(t) =>
      assert RenderElement(l) == "'" + (t + "'");
    case NoneLit =>
  }

  lemma RenderedStart(ls: seq<Literal>)
    requires |ls| > 0
    ensures RenderElements(ls) != []
    ensures RenderElements(ls)[0] == '\'' || RenderElements(ls)[0] == 'N'
  {
    RenderElementStart(ls[0]);
    if |ls| > 1 {
      AppendHead(RenderElement(ls[0]), ", " + RenderElements(ls[1..]));
    }
  }

  lemma AppendHead(a: string, b: string)
    requires a != []
    ensures a + b != [] && (a + b)[0] == a[0]
  {
  }

  /** One step of `Elements`: an element followed by a comma and more elements. */
  lemma ElementsAfterComma(s: string, l: Literal, tail: string, more: seq<Literal>, rest: string)
    requires s != [] && s[0] != ']'
    requires Element(s) == Ok(Parsed(l, ", " + tail))
    requires tail != [] && !IsTokenSpace(tail[0])
    requires Elements(tail) == Ok(Parsed(more, rest))
    ensures Elements(s) == Ok(Parsed([l] + more, rest))
  {
    SkipCommaSpace(tail);
    ElementsCommaStep(s, Parsed(l, ", " + tail), Parsed(more, rest));
  }

  /** How `Elements` continues after an element followed by a comma. */
  lemma ElementsCommaStep(s: string, e: Parsed<Literal>, more: Parsed<seq<Literal>>)
    requires s != [] && s[0] != ']' && Element(s) == Ok(e)
    requires e.rest != [] && e.rest[0] == ','
    requires Elements(SkipTokenSpace(e.rest[1..])) == Ok(more)
    ensures Elements(s) == Ok(Parsed([e.value] + more.value, more.rest))
  {
  }

  lemma SkipCommaSpace(tail: string)
    requires tail != [] && !IsTokenSpace(tail[0])
    ensures (", " + tail) != [] && (", " + tail)[0] == ','
    ensures SkipTokenSpace((", " + tail)[1..]) == tail
  {
    assert (", " + tail)[1..] == " " + tail;
    assert (" " + tail)[1..] == tail;
  }

  lemma AllPlainTail(ls: seq<Literal>)
    requires |ls| > 0 && AllPlain(ls)
    ensures AllPlain(ls[1..]) && (ls[0].Str? ==> Plain(ls[0].text))
  {
    forall i | 0 <= i < |ls[1..]| ensures ls[1..][i].Str? ==> Plain(ls[1..][i].text) {
      assert ls[1..][i] == ls[i + 1];
    }
  }

  lemma SeqAssoc5(a: string, b: string, c: string, d: string, e: string)
    ensures a + b + c + d + e == a + (b + (c + d + e))
  {
  }

  lemma ElementsOfRenderedSingle(l: Literal, rest: string)
    requires l.Str? ==> Plain(l.text)
    ensures Elements(RenderElement(l) + "]" + rest) == Ok(Parsed([l], rest))
  {
    var s := RenderElement(l) + "]" + rest;
    assert s == RenderElement(l) + ("]" + rest);
    ElementOfRendered(l, "]" + rest);
    assert s[0] == RenderElement(l)[0];
    assert ("]" + rest)[1..] == rest;
  }

  lemma ElementsOfRenderedMany(l: Literal, more: seq<Literal>, rest: string)
    requires |more| > 0 && (l.Str? ==> Plain(l.text))
    requires Elements(RenderElements(more) + "]" + rest) == Ok(Parsed(more, rest))
    ensures Elements(RenderElement(l) + (", " + (RenderElements(more) + "]" + rest))) == Ok(Parsed([l] + more, rest))
  {
    var tail := RenderElements(more) + "]" + rest;
    var s := RenderElement(l) + (", " + tail);
    ElementOfRendered(l, ", " + tail);
    assert s[0] == RenderElement(l)[0];
    RenderedStart(more);
    assert tail[0] == RenderElements(more)[0];
    ElementsAfterComma(s, l, tail, more, rest);
  }

  lemma ElementsOfRenderedCons(ls: seq<Literal>, rest: string)
    requires |ls| > 1 && (ls[0].Str? ==> Plain(ls[0].text))
    requires Elements(RenderElements(ls[1..]) + "]" + rest) == Ok(Parsed(ls[1..], rest))
    ensures Elements(RenderElements(ls) + "]" + rest) == Ok(Parsed(ls, rest))
  {
    RenderedConsText(ls, rest);
    ElementsOfRenderedMany(ls[0], ls[1..], rest);
  }

  lemma RenderedConsText(ls: seq<Literal>, rest: string)
    requires |ls| > 1
    ensures RenderElements(ls) + "]" + rest == RenderElement(ls[0]) + (", " + (RenderElements(ls[1..]) + "]" + rest))
    ensures [ls[0]] + ls[1..] == ls
  {
    var head, inner := RenderElement(ls[0]), RenderElements(ls[1..]);
    assert RenderElements(ls) == head + ", " + inner;
    SeqAssoc5(head, ", ", inner, "]", rest);
  }

  lemma {:induction false} ElementsOfRendered(ls: seq<Literal>, rest: string)
    requires AllPlain(ls)
    ensures Elements(RenderElements(ls) + "]" + rest) == Ok(Parsed(ls, rest))
  {
    if |ls| == 0 {
      assert RenderElements(ls) + "]" + rest == "]" + rest;
    } else if |ls| == 1 {
      ElementsOfRenderedSingle(ls[0], rest);
      assert [ls[0]] == ls;
    } else {
      AllPlainTail(ls);
      ElementsOfRendered(ls[1..], rest);
      ElementsOfRenderedCons(ls, rest);
    }
  }

  /** Reading back a rendered list gives the list: `literal_eval` of the list
      literal of `xs` is `xs`. */
  lemma ParseRender(ls: seq<Literal>)
    requires AllPlain(ls)
    ensures ParseList(Render(ls)) == Ok(ls)
  {
    var body := RenderElements(ls) + "]";
    assert Render(ls)[1..] == body;
    assert !IsTokenSpace(body[0]) by {
      if |ls| > 0 {
        RenderedStart(ls);
        AppendHead(RenderElements(ls), "]");
      }
    }
    assert SkipTokenSpace(body) == body;
    ElementsOfRendered(ls, "");
    assert body + "" == body;
  }

  /** A list whose first string literal is never closed does not parse. */
  lemma UnclosedFirstString(t: string)
    requires '\'' !in t
    ensures ParseList("['" + t).Err?
  {
    var u := "'" + t;
    OpenQuote(t);
    QuotedBodyUnclosed(t, '\'');
    StringElementErr(u);
    ElementErr(u);
    ElementsErr(u);
    ParseListErr("['" + t);
  }

  // How an error in a string literal propagates to the whole list.

  lemma StringElementErr(s: string)
    requires s != [] && IsQuote(s[0]) && QuotedBody(s[1..], s[0]).Err?
    ensures StringElement(s).Err?
  {
  }

  /** A list whose first element opens with three quotes (`['''']`, say) is
      read as a triple-quoted string, which this parser rejects. */
  lemma TripleQuoteRejected(t: string)
    ensures ParseList("['''" + t).Err?
  {
    var s := "['''" + t;
    var u := "'''" + t;
    assert s[1..] == u && u[0] == '\'' && u[1] == '\'' && u[2] == '\'';
    assert TripleOpening(u);
    assert SkipTokenSpace(u) == u;
    assert StringElement(u) == Err(TripleQuoteNotSupported);
    ElementErr(u);
    ElementsErr(u);
    ParseListErr(s);
  }

  /** A NUL character in a quoted string makes the list an error, as it makes
      `ast.literal_eval` raise. */
  lemma NulInStringRejected(t: string)
    ensures ParseList("['\0" + t).Err?
  {
    var s := "['\0" + t;
    var u := "'\0" + t;
    assert s[1..] == u;
    assert StringElement(u).Err? by {
      NulStringElement(u);
    }
    assert SkipTokenSpace(u) == u;
    ElementErr(u);
    ElementsErr(u);
    ParseListErr(s);
  }

  lemma NulStringElement(u: string)
    requires |u| >= 2 && u[0] == '\'' && u[1] == '\0'
    ensures StringElement(u).Err?
  {
    assert !TripleOpening(u);
    assert QuotedBody(u[1..], '\'') == Err(NullCharacter);
  }

  lemma ElementErr(s: string)
    requires s != [] && IsQuote(s[0]) && StringElement(s).Err?
    ensures Element(s).Err?
  {
  }

  lemma ElementsErr(s: string)
    requires s != [] && s[0] != ']' && Element(s).Err?
    ensures Elements(s).Err?
  {
  }

  lemma ParseListErr(s: string)
    requires s != [] && s[0] == '[' && Elements(SkipTokenSpace(s[1..])).Err?
    ensures ParseList(s).Err?
  {
  }

  lemma OpenQuote(t: string)
    ensures var s := "['" + t; s[0] == '[' && SkipTokenSpace(s[1..]) == "'" + t
    ensures ("'" + t)[0] == '\'' && ("'" + t)[1..] == t
  {
    var s := "['" + t;
    assert s[1..] == "'" + t;
  }
}
