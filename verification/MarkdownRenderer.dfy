/** The renderer's loops, which append markup to the output as they go, proved to print the specified document. */
module MarkdownRenderer {
  import opened Common
  import opened Text
  import opened Html
  import opened HtmlNesting
  import opened MarkdownSyntax
  import opened Markdown
  import opened MarkdownConservation

  /** The printed events, or the error. */
  function Output(e: Option<RenderError>, es: seq<Event>): Result<string, RenderError> {
    if e.Some? then Err(e.value) else Ok(Print(es))
  }

  // ---- Markup written out ----

  function OpenTag(name: string, attrs: seq<Attr>): string { "<" + name + PrintAttrs(attrs) + ">" }

  function CloseTag(name: string): string { "</" + name + ">" }

  lemma PrintElement(name: string, attrs: seq<Attr>, inner: seq<Event>)
    ensures Print(Element(name, attrs, inner)) == OpenTag(name, attrs) + Print(inner) + CloseTag(name)
  {
    PrintTags(name, attrs);
    hide Print, OpenTag, CloseTag;
    PrintConcat([Open(name, attrs)] + inner, [Close(name)]);
    PrintConcat([Open(name, attrs)], inner);
  }

  lemma PrintTags(name: string, attrs: seq<Attr>)
    ensures Print([Open(name, attrs)]) == OpenTag(name, attrs) && Print([Close(name)]) == CloseTag(name)
  {
    hide Print, PrintAttrs;
    PrintOne(Open(name, attrs));
    PrintOne(Close(name));
    RegroupTag("<", name, PrintAttrs(attrs), ">");
    RegroupTag("<", "/", name, ">");
    assert "<" + "/" == "</";
  }

  lemma RegroupTag(a: string, b: string, c: string, d: string)
    ensures a + (b + c + d) == a + b + c + d == (a + b) + c + d
  {}

  /** A tag without attributes. */
  lemma PlainTag(name: string)
    ensures OpenTag(name, []) == "<" + name + ">"
  {}

  predicate Unmarked(s: string) { forall i | 0 <= i < |s| :: s[i] !in {'&', '<', '>', '"', '\''} }

  lemma {:induction false} EscapeUnmarked(s: string)
    requires Unmarked(s)
    ensures Escape(s) == s
  {
    if s != "" {
      EscapeUnmarked(s[1..]);
      assert s == [s[0]] + s[1..];
    }
  }

  lemma {:induction false} EscapeConcat(a: string, b: string)
    ensures Escape(a + b) == Escape(a) + Escape(b)
  {
    if a == "" {
      assert a + b == b;
    } else {
      assert (a + b)[1..] == a[1..] + b;
      EscapeConcat(a[1..], b);
      hide EscapeChar;
    }
  }

  lemma PrintOneAttr(key: string, val: string)
    ensures PrintAttrs([Attr(key, val)]) == " " + key + "=\"" + Escape(val) + "\""
  {
    hide Escape;
    var a := Attr(key, val);
    assert PrintAttrs([a]) == PrintAttr(a) + PrintAttrs([a][1..]);
    assert PrintAttr(a) + "" == PrintAttr(a);
  }

  lemma PrintTwoAttrs(a: Attr, b: Attr)
    ensures PrintAttrs([a, b]) == PrintAttrs([a]) + PrintAttrs([b])
  {
    hide PrintAttr;
    assert [a, b][1..] == [b];
    assert PrintAttrs([a]) == PrintAttr(a) + PrintAttrs([a][1..]);
    assert PrintAttr(a) + "" == PrintAttr(a);
  }

  lemma PrintCode(text: string)
    ensures Print(InlineEvents(Code(text))) == "<code>" + Escape(text) + "</code>"
  {
    hide Print, Escape, Letters;
    PrintElement("code", [], Letters(text));
    PrintLetters(text);
    assert OpenTag("code", []) == "<code>" && CloseTag("code") == "</code>";
    hide OpenTag, CloseTag, Element;
  }

  lemma RegroupLink(o: string, n: string, k: string, u: string, q: string, l: string, rel: string, c: string,
                    text: string, f: string)
    ensures o + n + ((k + u + q) + (l + rel + q)) + c + text + f == (o + n + k) + u + (q + l + rel + q + c) + text + f
  {}

  const REL := "noopener noreferrer"

  lemma RelEscaped()
    ensures Escape(REL) == REL
  {
    assert Unmarked(REL);
    hide Unmarked;
    EscapeUnmarked(REL);
  }

  lemma LinkOpening()
    ensures "<" + "a" + (" " + "href" + "=\"") == "<a href=\"" && "</" + "a" + ">" == "</a>"
  {}

  lemma LinkRel()
    ensures "\"" + (" " + "rel" + "=\"") + REL + "\"" + ">" == "\" rel=\"noopener noreferrer\">"
  {}

  lemma PrintLink(text: string, url: string)
    ensures Print(InlineEvents(Link(text, url)))
            == "<a href=\"" + Escape(url) + "\" rel=\"noopener noreferrer\">" + Escape(text) + "</a>"
  {
    hide Print, Escape, PrintAttrs, Unmarked;
    var href, last := Attr("href", url), Attr("rel", REL);
    PrintElement("a", [href, last], Letters(text));
    assert OpenTag("a", [href, last]) == "<" + "a" + PrintAttrs([href, last]) + ">";
    PrintTwoAttrs(href, last);
    PrintOneAttr("href", url);
    PrintOneAttr("rel", REL);
    PrintLetters(text);
    RelEscaped();
    LinkOpening();
    LinkRel();
    RegroupLink("<", "a", " " + "href" + "=\"", Escape(url), "\"", " " + "rel" + "=\"", REL, ">", Escape(text),
                "</" + "a" + ">");
  }

  lemma RegroupImage(o: string, n: string, k: string, u: string, q: string, l: string, alt: string, c: string)
    ensures o + (n + ((k + u + q) + (l + alt + q)) + c) == (o + n + k) + u + (q + l) + alt + (q + c)
  {}

  lemma PrintImage(alt: string, url: string)
    ensures Print(InlineEvents(Image(alt, url)))
            == "<img src=\"" + Escape(url) + "\" alt=\"" + Escape(Strip(alt)) + "\">"
  {
    hide Print, Escape, PrintAttrs, Strip;
    var src, last := Attr("src", url), Attr("alt", Strip(alt));
    PrintOne(Open("img", [src, last]));
    PrintTwoAttrs(src, last);
    PrintOneAttr("src", url);
    PrintOneAttr("alt", Strip(alt));
    var k, l := " " + "src" + "=\"", " " + "alt" + "=\"";
    RegroupImage("<", "img", k, Escape(url), "\"", l, Escape(Strip(alt)), ">");
    assert "<" + "img" + k == "<img src=\"";
    assert "\"" + l == "\" alt=\"";
    assert "\"" + ">" == "\">";
  }

  // ---- Appending ----

  lemma {:induction false} SpanEventsConcat(a: seq<Inline>, b: seq<Inline>)
    ensures SpanEvents(a + b) == SpanEvents(a) + SpanEvents(b)
  {
    if a == [] {
      assert a + b == b;
    } else {
      assert (a + b)[1..] == a[1..] + b;
      SpanEventsConcat(a[1..], b);
    }
    hide InlineEvents;
  }

  lemma {:induction false} SpanErrorConcat(a: seq<Inline>, b: seq<Inline>, urlOk: string -> bool)
    ensures SpanError(a + b, urlOk) == First(SpanError(a, urlOk), SpanError(b, urlOk))
  {
    if a == [] {
      assert a + b == b;
    } else {
      assert (a + b)[1..] == a[1..] + b;
      SpanErrorConcat(a[1..], b, urlOk);
    }
    hide InlineError;
  }

  /** Appending one more inline piece to what is printed so far. */
  lemma AppendInline(done: seq<Inline>, x: Inline, urlOk: string -> bool)
    ensures Print(SpanEvents(done + [x])) == Print(SpanEvents(done)) + Print(InlineEvents(x))
    ensures SpanError(done + [x], urlOk) == First(SpanError(done, urlOk), InlineError(x, urlOk))
  {
    hide InlineEvents, InlineError, Print;
    SpanEventsConcat(done, [x]);
    SpanErrorConcat(done, [x], urlOk);
    OneSpan(x, urlOk);
    PrintConcat(SpanEvents(done), InlineEvents(x));
  }

  lemma OneSpan(x: Inline, urlOk: string -> bool)
    ensures SpanEvents([x]) == InlineEvents(x) && SpanError([x], urlOk) == InlineError(x, urlOk)
  {
    hide InlineEvents, InlineError;
    assert SpanEvents([x]) == InlineEvents(x) + SpanEvents([x][1..]);
    assert SpanError([x], urlOk) == First(InlineError(x, urlOk), SpanError([x][1..], urlOk));
  }

  lemma ErrorReached(done: seq<Inline>, x: Inline, rest: seq<Inline>, urlOk: string -> bool)
    requires SpanError(done, urlOk).None? && InlineError(x, urlOk).Some?
    ensures SpanError(done + [x] + rest, urlOk) == InlineError(x, urlOk)
  {
    SpanErrorConcat(done + [x], rest, urlOk);
    AppendInline(done, x, urlOk);
    hide InlineError, SpanError;
  }

  method RenderToken(token: Inline, urlOk: string -> bool) returns (r: Result<string, RenderError>)
    requires !token.Plain?
    ensures r == Output(InlineError(token, urlOk), InlineEvents(token))
  {
    match token {
      case Image(alt, url) =>
        var text := Strip(alt);
        if text == "" { return Err(MissingAlternative); }
        if !urlOk(url) { return Err(UnsafeUrl); }
        PrintImage(alt, url);
        return Ok("<img src=\"" + Escape(url) + "\" alt=\"" + Escape(text) + "\">");
      case Link(text, url) =>
        if !urlOk(url) { return Err(UnsafeUrl); }
        PrintLink(text, url);
        return Ok("<a href=\"" + Escape(url) + "\" rel=\"noopener noreferrer\">" + Escape(text) + "</a>");
      case Code(text) =>
        PrintCode(text);
        return Ok("<code>" + Escape(text) + "</code>");
    }
  }

  /** Past a token, the pieces so far are one plain text and the token longer. */
  lemma SpansStep(value: string, cursor: nat, i: nat, done: seq<Inline>)
    requires cursor <= i < |value| && TokenAt(value, i).Some?
    ensures var (token, after) := TokenAt(value, i).value; var plain := Plain(value[cursor..i]);
            var rest := Spans(value, after, after);
            done + Spans(value, cursor, i) == done + [plain] + [token] + rest == (done + [plain] + [token]) + rest
  {
    hide TokenAt;
    var (token, after) := TokenAt(value, i).value;
    assert Spans(value, cursor, i) == [Plain(value[cursor..i]), token] + Spans(value, after, after);
    assert [Plain(value[cursor..i]), token] == [Plain(value[cursor..i])] + [token];
  }

  /** The output with one more plain text and token appended. */
  lemma AppendToken(done: seq<Inline>, text: string, token: Inline, rest: seq<Inline>, urlOk: string -> bool)
    requires SpanError(done, urlOk).None?
    ensures var next := done + [Plain(text)] + [token];
            && Print(SpanEvents(next)) == Print(SpanEvents(done)) + Escape(text) + Print(InlineEvents(token))
            && SpanError(next, urlOk) == InlineError(token, urlOk)
            && (InlineError(token, urlOk).Some? ==> SpanError(next + rest, urlOk) == InlineError(token, urlOk))
  {
    var plain := Plain(text);
    assert InlineError(plain, urlOk).None? && InlineEvents(plain) == Letters(text);
    hide InlineError, InlineEvents, SpanError, SpanEvents, Print, Escape;
    AppendInline(done, plain, urlOk);
    PrintLetters(text);
    AppendInline(done + [plain], token, urlOk);
    if InlineError(token, urlOk).Some? { ErrorReached(done + [plain], token, rest, urlOk); }
  }

  method RenderInline(value: string, urlOk: string -> bool) returns (r: Result<string, RenderError>)
    ensures r == Output(ProseError(value, urlOk), Prosed(value))
  {
    NoSpans(urlOk);
    hide Inlines, SpanError, SpanEvents, Print, TokenAt, Escape, InlineError, InlineEvents;
    var rendered := "";
    var cursor, i := 0, 0;
    ghost var done: seq<Inline> := [];
    InlinesFrom(value, done);
    while i < |value|
      invariant cursor <= i <= |value|
      invariant Inlines(value) == done + Spans(value, cursor, i)
      invariant SpanError(done, urlOk) == None && rendered == Print(SpanEvents(done))
    {
      var found := TokenAt(value, i);
      if found.None? {
        i := i + 1;
      } else {
        var (token, after) := found.value;
        SpansStep(value, cursor, i, done);
        AppendToken(done, value[cursor..i], token, Spans(value, after, after), urlOk);
        rendered := rendered + Escape(value[cursor..i]);
        var markup := RenderToken(token, urlOk);
        if markup.Err? { return markup; }
        rendered := rendered + markup.value;
        done := done + [Plain(value[cursor..i])] + [token];
        cursor, i := after, after;
      }
    }
    AppendPlain(done, value[cursor..], urlOk);
    return Ok(rendered + Escape(value[cursor..]));
  }

  lemma NoSpans(urlOk: string -> bool)
    ensures SpanError([], urlOk) == None && Print(SpanEvents([])) == ""
  {}

  lemma InlinesFrom(value: string, done: seq<Inline>)
    requires done == []
    ensures Inlines(value) == done + Spans(value, 0, 0)
  {}

  lemma AppendPlain(done: seq<Inline>, text: string, urlOk: string -> bool)
    requires SpanError(done, urlOk) == None
    ensures Print(SpanEvents(done + [Plain(text)])) == Print(SpanEvents(done)) + Escape(text)
    ensures SpanError(done + [Plain(text)], urlOk) == None
  {
    var plain := Plain(text);
    assert InlineError(plain, urlOk).None? && InlineEvents(plain) == Letters(text);
    hide InlineError, InlineEvents, SpanError, SpanEvents, Print, Escape;
    AppendInline(done, plain, urlOk);
    PrintLetters(text);
  }

  // ---- Blocks ----

  lemma {:induction false} EachConcat(name: string, attrs: seq<Attr>, a: seq<string>, b: seq<string>,
                                      urlOk: string -> bool)
    ensures EachIn(name, attrs, a + b) == EachIn(name, attrs, a) + EachIn(name, attrs, b)
    ensures EachError(a + b, urlOk) == First(EachError(a, urlOk), EachError(b, urlOk))
  {
    hide Element, Prosed, ProseError;
    if a == [] {
      assert a + b == b;
    } else {
      assert (a + b)[1..] == a[1..] + b;
      EachConcat(name, attrs, a[1..], b, urlOk);
      assert EachIn(name, attrs, a + b) == Element(name, attrs, Prosed(a[0])) + EachIn(name, attrs, a[1..] + b);
    }
  }

  /** Appending one more element; `markup` is what its text renders to. */
  lemma AppendEach(name: string, attrs: seq<Attr>, texts: seq<string>, n: nat, urlOk: string -> bool)
    requires n < |texts|
    ensures Print(EachIn(name, attrs, texts[..n + 1]))
            == Print(EachIn(name, attrs, texts[..n]))
              + (OpenTag(name, attrs) + Print(Prosed(texts[n])) + CloseTag(name))
    ensures EachError(texts[..n + 1], urlOk) == First(EachError(texts[..n], urlOk), ProseError(texts[n], urlOk))
    ensures EachError(texts, urlOk) == First(EachError(texts[..n + 1], urlOk), EachError(texts[n + 1..], urlOk))
  {
    hide Print, PrintAttrs, Element, Prosed, ProseError;
    var x := texts[n];
    assert texts[..n + 1] == texts[..n] + [x] && texts == texts[..n + 1] + texts[n + 1..];
    EachConcat(name, attrs, texts[..n], [x], urlOk);
    EachConcat(name, attrs, texts[..n + 1], texts[n + 1..], urlOk);
    OneEach(name, attrs, x, urlOk);
    PrintConcat(EachIn(name, attrs, texts[..n]), Element(name, attrs, Prosed(x)));
    PrintElement(name, attrs, Prosed(x));
    hide EachIn, EachError;
  }

  lemma OneEach(name: string, attrs: seq<Attr>, x: string, urlOk: string -> bool)
    ensures EachIn(name, attrs, [x]) == Element(name, attrs, Prosed(x)) && EachError([x], urlOk) == ProseError(x, urlOk)
  {
    hide Element, Prosed, ProseError;
    assert EachIn(name, attrs, [x]) == Element(name, attrs, Prosed(x)) + EachIn(name, attrs, [x][1..]);
    assert EachError([x], urlOk) == First(ProseError(x, urlOk), EachError([x][1..], urlOk));
  }

  method RenderEach(name: string, attrs: seq<Attr>, texts: seq<string>, urlOk: string -> bool)
    returns (r: Result<string, RenderError>)
    ensures r == Output(EachError(texts, urlOk), EachIn(name, attrs, texts))
  {
    var rendered := "";
    for n := 0 to |texts|
      invariant EachError(texts[..n], urlOk).None? && rendered == Print(EachIn(name, attrs, texts[..n]))
    {
      var inner := RenderInline(texts[n], urlOk);
      AppendEach(name, attrs, texts, n, urlOk);
      if inner.Err? { return inner; }
      rendered := rendered + (OpenTag(name, attrs) + inner.value + CloseTag(name));
      hide Print, PrintAttrs, EachIn, EachError, Prosed, ProseError;
    }
    assert texts[..|texts|] == texts;
    return Ok(rendered);
  }

  lemma {:induction false} RowsConcat(a: seq<seq<string>>, b: seq<seq<string>>, urlOk: string -> bool)
    ensures RowEvents(a + b) == RowEvents(a) + RowEvents(b)
    ensures RowsError(a + b, urlOk) == First(RowsError(a, urlOk), RowsError(b, urlOk))
  {
    hide Element, EachIn, EachError;
    if a == [] {
      assert a + b == b;
    } else {
      assert (a + b)[1..] == a[1..] + b;
      RowsConcat(a[1..], b, urlOk);
      assert RowEvents(a + b) == Element("tr", [], EachIn("td", [], a[0])) + RowEvents(a[1..] + b);
    }
  }

  lemma Cut<T>(xs: seq<T>, n: nat)
    requires n < |xs|
    ensures xs[..n + 1] == xs[..n] + [xs[n]] && xs == xs[..n + 1] + xs[n + 1..]
  {}

  lemma AppendRow(rows: seq<seq<string>>, n: nat)
    requires n < |rows|
    ensures Print(RowEvents(rows[..n + 1]))
            == Print(RowEvents(rows[..n])) + ("<tr>" + Print(EachIn("td", [], rows[n])) + "</tr>")
  {
    hide *;
    var x := rows[n];
    var row := Element("tr", [], EachIn("td", [], x));
    Cut(rows, n);
    RowsConcat(rows[..n], [x], s => true);
    OneRow(x, s => true);
    PrintConcat(RowEvents(rows[..n]), row);
    PrintElement("tr", [], EachIn("td", [], x));
    RowTags();
  }

  lemma AppendRowError(rows: seq<seq<string>>, n: nat, urlOk: string -> bool)
    requires n < |rows|
    ensures RowsError(rows[..n + 1], urlOk) == First(RowsError(rows[..n], urlOk), EachError(rows[n], urlOk))
    ensures RowsError(rows, urlOk) == First(RowsError(rows[..n + 1], urlOk), RowsError(rows[n + 1..], urlOk))
  {
    hide *;
    Cut(rows, n);
    RowsConcat(rows[..n], [rows[n]], urlOk);
    RowsConcat(rows[..n + 1], rows[n + 1..], urlOk);
    OneRow(rows[n], urlOk);
  }

  lemma RowTags()
    ensures OpenTag("tr", []) == "<tr>" && CloseTag("tr") == "</tr>"
  {}

  lemma ItemTags()
    ensures OpenTag("li", []) == "<li>" && CloseTag("li") == "</li>"
    ensures OpenTag("ul", []) == "<ul>" && CloseTag("ul") == "</ul>"
  {}

  lemma OneRow(x: seq<string>, urlOk: string -> bool)
    ensures RowEvents([x]) == Element("tr", [], EachIn("td", [], x)) && RowsError([x], urlOk) == EachError(x, urlOk)
  {
    hide Element, EachIn, EachError;
    assert RowEvents([x]) == Element("tr", [], EachIn("td", [], x)) + RowEvents([x][1..]);
    assert RowsError([x], urlOk) == First(EachError(x, urlOk), RowsError([x][1..], urlOk));
  }

  method RenderRows(rows: seq<seq<string>>, urlOk: string -> bool) returns (r: Result<string, RenderError>)
    ensures r == Output(RowsError(rows, urlOk), RowEvents(rows))
  {
    var rendered := "";
    for n := 0 to |rows|
      invariant RowsError(rows[..n], urlOk).None? && rendered == Print(RowEvents(rows[..n]))
    {
      var cells := RenderEach("td", [], rows[n], urlOk);
      AppendRow(rows, n);
      AppendRowError(rows, n, urlOk);
      if cells.Err? { return cells; }
      hide Print, PrintAttrs, EachIn, EachError, RowEvents, RowsError;
      rendered := rendered + ("<tr>" + cells.value + "</tr>");
    }
    assert rows[..|rows|] == rows;
    return Ok(rendered);
  }

  // ---- One method a construct; each reports the line after its block ----

  predicate RendersBlock(lines: seq<string>, i: nat, next: nat, r: Result<string, RenderError>, urlOk: string -> bool)
    requires i < |lines|
  {
    && BlockAt(lines, i).Some? && BlockAt(lines, i).value.1 == next
    && r == Output(BlockError(BlockAt(lines, i).value.0, urlOk), BlockEvents(BlockAt(lines, i).value.0))
  }

  /** An element printed around content that is printed already. */
  lemma PrintPlain(name: string, inner: seq<Event>)
    ensures Print(Element(name, [], inner)) == "<" + name + ">" + Print(inner) + ("</" + name + ">")
  {
    PrintElement(name, [], inner);
    PlainTag(name);
    hide Print, OpenTag;
  }

  method RenderFence(lines: seq<string>, i: nat, urlOk: string -> bool)
    returns (r: Result<string, RenderError>, next: nat)
    requires i < |lines| && IsFence(lines[i])
    ensures r.Ok? ==> RendersBlock(lines, i, next, r, urlOk)
    ensures r.Err? ==> BlockAt(lines, i).Some? && BlockError(BlockAt(lines, i).value.0, urlOk) == Some(r.error)
  {
    var language := Strip(lines[i][3..]);
    next := i + 1;
    if language != "" && !LanguageName(language) { return Err(BadLanguage), next; }
    var code: seq<string> := [];
    while next < |lines| && !IsFence(lines[next])
      invariant i + 1 <= next <= |lines|
      invariant FenceEnd(lines, i + 1) == FenceEnd(lines, next)
      invariant code == lines[i + 1..next]
    {
      code := code + [lines[next]];
      next := next + 1;
    }
    if next == |lines| { return Err(MissingFence), next; }
    var text := JoinWith(code, "\n");
    var class_ := if language != "" then " class=\"language-" + Escape(language) + "\"" else "";
    PrintFence(language, code, text);
    hide Print, PrintAttrs, Escape;
    return Ok("<pre><code" + class_ + ">" + Escape(text) + "</code></pre>"), next + 1;
  }

  lemma PrintFence(language: string, code: seq<string>, text: string)
    requires text == JoinWith(code, "\n")
    ensures Print(BlockEvents(Fenced(language, code, true)))
            == "<pre><code" + ClassText(language) + ">" + Escape(text) + "</code></pre>"
  {
    hide Print, PrintAttrs, Escape, OpenTag, CloseTag, Letters;
    var attrs := LanguageAttrs(language);
    PrintPlain("pre", Element("code", attrs, Letters(text)));
    PrintElement("code", attrs, Letters(text));
    CodeTags(language);
    PrintLetters(text);
    FenceMarkup(ClassText(language), Escape(text));
  }

  function ClassText(language: string): string {
    if language != "" then " class=\"language-" + Escape(language) + "\"" else ""
  }

  lemma CodeTags(language: string)
    ensures OpenTag("code", LanguageAttrs(language)) == "<" + "code" + ClassText(language) + ">"
    ensures CloseTag("code") == "</" + "code" + ">"
  {
    if language != "" { PrintLanguage(language); }
    hide Escape;
  }

  lemma FenceMarkup(class_: string, text: string)
    ensures "<" + "pre" + ">" + ("<" + "code" + class_ + ">" + text + ("</" + "code" + ">")) + ("</" + "pre" + ">")
            == "<pre><code" + class_ + ">" + text + "</code></pre>"
  {
    assert "<" + "pre" + ">" + ("<" + "code") == "<pre><code";
    assert ("</" + "code" + ">") + ("</" + "pre" + ">") == "</code></pre>";
    RegroupFence("<" + "pre" + ">", "<" + "code", class_, ">", text, "</" + "code" + ">", "</" + "pre" + ">");
  }

  lemma RegroupFence(a: string, b: string, c: string, d: string, e: string, f: string, g: string)
    ensures a + (b + c + d + e + f) + g == (a + b) + c + d + e + (f + g)
  {}

  lemma ClassEscaped()
    ensures Escape("language-") == "language-"
  {
    assert Unmarked("language-");
    hide Unmarked;
    EscapeUnmarked("language-");
    hide Escape;
  }

  lemma ClassOpening()
    ensures " " + "class" + "=\"" + "language-" == " class=\"language-"
  {}

  lemma PrintLanguage(language: string)
    ensures PrintAttrs([Attr("class", "language-" + language)]) == " class=\"language-" + Escape(language) + "\""
  {
    hide Escape, PrintAttrs;
    ClassEscaped();
    ClassOpening();
    EscapeConcat("language-", language);
    PrintOneAttr("class", "language-" + language);
    RegroupLanguage(" " + "class" + "=\"", "language-", Escape(language), "\"");
  }

  lemma RegroupLanguage(a: string, b: string, c: string, d: string)
    ensures a + (b + c) + d == (a + b) + c + d
  {}

  method RenderTable(lines: seq<string>, i: nat, urlOk: string -> bool)
    returns (r: Result<string, RenderError>, next: nat)
    requires i + 1 < |lines| && !IsFence(lines[i]) && IsDivider(lines[i + 1])
    ensures RendersBlock(lines, i, next, r, urlOk)
  {
    var headers := Cells(lines[i]);
    var rows;
    rows, next := ReadRows(lines, i + 2);
    assert BlockAt(lines, i) == Some((Table(headers, rows), next));
    hide BlockAt, RowsEnd, Cells, IsDivider, Print, EachIn, EachError, RowEvents, RowsError;
    var head := RenderEach("th", [Attr("scope", "col")], headers, urlOk);
    if head.Err? { return head, next; }
    var body := RenderRows(rows, urlOk);
    if body.Err? { return body, next; }
    PrintTable(headers, rows);
    return Ok("<table><thead><tr>" + head.value + "</tr></thead><tbody>" + body.value + "</tbody></table>"), next;
  }

  method ReadRows(lines: seq<string>, i: nat) returns (rows: seq<seq<string>>, next: nat)
    requires i <= |lines|
    ensures next == RowsEnd(lines, i) && rows == RowsOf(lines, i, next)
  {
    hide Cells, IsRow;
    rows, next := [], i;
    while next < |lines| && IsRow(lines[next])
      invariant i <= next <= |lines|
      invariant RowsEnd(lines, i) == RowsEnd(lines, next)
      invariant rows == RowsOf(lines, i, next)
    {
      rows := rows + [Cells(lines[next])];
      next := next + 1;
    }
  }

  lemma PrintTable(head: seq<string>, rows: seq<seq<string>>)
    ensures Print(BlockEvents(Table(head, rows)))
            == "<table><thead><tr>" + Print(EachIn("th", [Attr("scope", "col")], head)) + "</tr></thead><tbody>"
              + Print(RowEvents(rows))
               + "</tbody></table>"
  {
    hide Print, EachIn, RowEvents, Element;
    var cells := EachIn("th", [Attr("scope", "col")], head);
    var top, bottom := Element("thead", [], Element("tr", [], cells)), Element("tbody", [], RowEvents(rows));
    PrintPlain("table", top + bottom);
    PrintConcat(top, bottom);
    PrintPlain("thead", Element("tr", [], cells));
    PrintPlain("tr", cells);
    PrintPlain("tbody", RowEvents(rows));
    TableMarkup(Print(cells), Print(RowEvents(rows)));
  }

  lemma TableMarkup(head: string, body: string)
    ensures var top := "<" + "thead" + ">" + ("<" + "tr" + ">" + head + ("</" + "tr" + ">")) + ("</" + "thead" + ">");
            var bottom := "<" + "tbody" + ">" + body + ("</" + "tbody" + ">");
            "<" + "table" + ">" + (top + bottom) + ("</" + "table" + ">")
            == "<table><thead><tr>" + head + "</tr></thead><tbody>" + body + "</tbody></table>"
  {
    TableOpening();
    TableMiddle();
    TableClosing();
    RegroupTable("<" + "table" + ">", "<" + "thead" + ">", "<" + "tr" + ">", head, "</" + "tr" + ">",
                 "</" + "thead" + ">",
                 "<" + "tbody" + ">", body, "</" + "tbody" + ">", "</" + "table" + ">");
  }

  lemma TableOpening()
    ensures ("<" + "table" + ">") + ("<" + "thead" + ">") + ("<" + "tr" + ">") == "<table><thead><tr>"
  {}

  lemma TableMiddle()
    ensures ("</" + "tr" + ">") + ("</" + "thead" + ">") + ("<" + "tbody" + ">") == "</tr></thead><tbody>"
  {}

  lemma TableClosing()
    ensures ("</" + "tbody" + ">") + ("</" + "table" + ">") == "</tbody></table>"
  {}

  lemma RegroupTable(a: string, b: string, c: string, h: string, d: string, e: string, f: string, t: string, g: string,
                     k: string)
    ensures a + ((b + (c + h + d) + e) + (f + t + g)) + k == (a + b + c) + h + (d + e + f) + t + (g + k)
  {}

  method RenderHeading(lines: seq<string>, i: nat, urlOk: string -> bool) returns (r: Result<string, RenderError>)
    requires i < |lines| && !IsFence(lines[i]) && !(i + 1 < |lines| && IsDivider(lines[i + 1]))
             && IsHeadingLine(lines[i])
    ensures RendersBlock(lines, i, i + 1, r, urlOk)
  {
    var level := Hashes(lines[i]);
    var text := Strip(lines[i][level..]);
    r := RenderInline(text, urlOk);
    PrintPlain(HeadingName(level), Prosed(text));
    if r.Ok? { r := Ok("<" + HeadingName(level) + ">" + r.value + ("</" + HeadingName(level) + ">")); }
    hide Print, Prosed, ProseError, Hashes, Strip, IsDivider, HeadingName;
  }

  lemma ItemAt(lines: seq<string>, i: nat, k: nat)
    requires i <= |lines| && i + k < ItemsEnd(lines, i)
    ensures IsItem(lines[i + k]) && ItemsOf(lines, i, ItemsEnd(lines, i))[k] == ItemText(lines[i + k])
  {
    hide IsItem, ItemText, ItemsEnd;
  }

  /** The consecutive items from line `i` on, each rendered as it is reached. */
  method RenderItems(lines: seq<string>, i: nat, urlOk: string -> bool)
    returns (r: Result<string, RenderError>, next: nat)
    requires i <= |lines|
    ensures r.Ok? ==> next == ItemsEnd(lines, i)
    ensures r == Output(EachError(ItemsOf(lines, i, ItemsEnd(lines, i)), urlOk),
                        EachIn("li", [], ItemsOf(lines, i, ItemsEnd(lines, i))))
  {
    hide ItemsEnd, ItemsOf, IsItem, ItemText, Prosed, ProseError, Print, EachIn, EachError;
    ghost var end, items := ItemsEnd(lines, i), ItemsOf(lines, i, ItemsEnd(lines, i));
    ItemsEndIs(lines, i);
    NoItems(lines, i, urlOk);
    next := i;
    var rendered := "";
    ghost var n := 0;
    while next < |lines| && IsItem(lines[next])
      invariant next == i + n <= end
      invariant EachError(items[..n], urlOk) == None && rendered == Print(EachIn("li", [], items[..n]))
    {
      ItemAt(lines, i, n);
      var inner := RenderInline(ItemText(lines[next]), urlOk);
      OneMoreItem(items, n, rendered, inner, urlOk);
      if inner.Err? { return inner, next; }
      rendered := rendered + ("<li>" + inner.value + "</li>");
      next, n := next + 1, n + 1;
    }
    return Ok(rendered), next;
  }

  lemma NoItems(lines: seq<string>, i: nat, urlOk: string -> bool)
    requires i <= |lines|
    ensures var items := ItemsOf(lines, i, ItemsEnd(lines, i));
            |items| == ItemsEnd(lines, i) - i && items[..0] == [] && items[..ItemsEnd(lines, i) - i] == items
    ensures Print(EachIn("li", [], [])) == "" && EachError([], urlOk) == None
  {}

  lemma {:induction false} ItemsEndIs(lines: seq<string>, i: nat)
    requires i <= |lines|
    ensures var j := ItemsEnd(lines, i); j < |lines| ==> !IsItem(lines[j])
    decreases |lines| - i
  {
    if i < |lines| && IsItem(lines[i]) { ItemsEndIs(lines, i + 1); }
  }

  lemma OneMoreItem(items: seq<string>, n: nat, rendered: string, inner: Result<string, RenderError>,
                    urlOk: string -> bool)
    requires n < |items| && EachError(items[..n], urlOk) == None && rendered == Print(EachIn("li", [], items[..n]))
    requires inner == Output(ProseError(items[n], urlOk), Prosed(items[n]))
    ensures inner.Err? ==> Output(EachError(items, urlOk), EachIn("li", [], items)) == inner
    ensures inner.Ok? ==> EachError(items[..n + 1], urlOk) == None
    ensures inner.Ok? ==> rendered + ("<li>" + inner.value + "</li>") == Print(EachIn("li", [], items[..n + 1]))
  {
    AppendItem(items, n, urlOk);
    hide Print, EachIn, EachError, Prosed, ProseError;
  }

  lemma AppendItem(items: seq<string>, n: nat, urlOk: string -> bool)
    requires n < |items|
    ensures Print(EachIn("li", [], items[..n + 1]))
            == Print(EachIn("li", [], items[..n])) + ("<li>" + Print(Prosed(items[n])) + "</li>")
    ensures EachError(items[..n + 1], urlOk) == First(EachError(items[..n], urlOk), ProseError(items[n], urlOk))
    ensures EachError(items, urlOk) == First(EachError(items[..n + 1], urlOk), EachError(items[n + 1..], urlOk))
  {
    hide *;
    AppendEach("li", [], items, n, urlOk);
    ItemTags();
  }

  method RenderList(lines: seq<string>, i: nat, urlOk: string -> bool)
    returns (r: Result<string, RenderError>, next: nat)
    requires i < |lines| && !IsFence(lines[i]) && !(i + 1 < |lines| && IsDivider(lines[i + 1]))
             && !IsHeadingLine(lines[i]) && IsItem(lines[i])
    ensures r.Ok? ==> RendersBlock(lines, i, next, r, urlOk)
    ensures r.Err? ==> BlockAt(lines, i).Some? && BlockError(BlockAt(lines, i).value.0, urlOk) == Some(r.error)
  {
    r, next := RenderItems(lines, i, urlOk);
    ghost var items := ItemsOf(lines, i, ItemsEnd(lines, i));
    assert BlockAt(lines, i) == Some((Items(items), ItemsEnd(lines, i)));
    hide BlockAt, IsDivider, IsHeadingLine, IsItem, ItemsOf, ItemsEnd, Print, EachIn, EachError, OpenTag, CloseTag;
    PrintElement("ul", [], EachIn("li", [], items));
    ItemTags();
    if r.Ok? { r := Ok("<ul>" + r.value + "</ul>"); }
  }

  // ---- The document ----

  /** The printed blocks, in order. */
  function Printed(blocks: seq<Block>): seq<string> {
    seq(|blocks|, i requires 0 <= i < |blocks| => Print(BlockEvents(blocks[i])))
  }

  lemma {:induction false} PrintDocument(blocks: seq<Block>)
    ensures Print(DocumentEvents(blocks)) == JoinWith(Printed(blocks), "\n")
  {
    hide Print, BlockEvents;
    if |blocks| == 1 {
      assert Printed(blocks) == [Print(BlockEvents(blocks[0]))];
    } else if blocks != [] {
      PrintDocument(blocks[1..]);
      PrintConcat(BlockEvents(blocks[0]) + [Letter('\n')], DocumentEvents(blocks[1..]));
      PrintConcat(BlockEvents(blocks[0]), [Letter('\n')]);
      PrintOne(Letter('\n'));
      assert PrintEvent(Letter('\n')) == "\n";
      assert Printed(blocks)[1..] == Printed(blocks[1..]);
    } else {
      NothingPrinted();
    }
  }

  lemma NothingPrinted()
    ensures Print([]) == ""
  {}

  lemma {:induction false} DocumentErrorConcat(a: seq<Block>, b: seq<Block>, urlOk: string -> bool)
    ensures DocumentError(a + b, urlOk) == First(DocumentError(a, urlOk), DocumentError(b, urlOk))
  {
    hide BlockError;
    if a == [] {
      assert a + b == b;
    } else {
      assert (a + b)[1..] == a[1..] + b;
      DocumentErrorConcat(a[1..], b, urlOk);
    }
  }

  /** What follows is refused, or accepted, with the next block. */
  lemma NextBlock(done: seq<Block>, b: Block, rest: seq<Block>, urlOk: string -> bool)
    requires DocumentError(done, urlOk).None?
    ensures DocumentError(done + [b], urlOk) == BlockError(b, urlOk)
    ensures BlockError(b, urlOk).Some? ==> DocumentError(done + [b] + rest, urlOk) == BlockError(b, urlOk)
    ensures Printed(done + [b]) == Printed(done) + [Print(BlockEvents(b))]
  {
    hide BlockError, BlockEvents, Print;
    DocumentErrorConcat(done, [b], urlOk);
    DocumentErrorConcat(done + [b], rest, urlOk);
    assert DocumentError([b], urlOk) == First(BlockError(b, urlOk), DocumentError([b][1..], urlOk));
  }

  /** Renders the paragraph under way, if there is one. */
  method FlushParagraph(paragraph: seq<string>, urlOk: string -> bool) returns (r: Result<seq<string>, RenderError>)
    ensures r.Ok? ==> DocumentError(Flushed(paragraph), urlOk).None? && r.value == Printed(Flushed(paragraph))
    ensures r.Err? ==> forall rest: seq<Block> :: DocumentError(Flushed(paragraph) + rest, urlOk) == Some(r.error)
  {
    if paragraph == [] { return Ok([]); }
    var text := JoinWith(paragraph, " ");
    var inner := RenderInline(text, urlOk);
    forall rest ensures inner.Err? ==> DocumentError(Flushed(paragraph) + rest, urlOk) == Some(inner.error) {
      NextBlock([], Paragraph(text), rest, urlOk);
      assert [] + [Paragraph(text)] == Flushed(paragraph);
    }
    NextBlock([], Paragraph(text), [], urlOk);
    assert [] + [Paragraph(text)] == Flushed(paragraph);
    PrintPlain("p", Prosed(text));
    assert "<" + "p" + ">" == "<p>" && "</" + "p" + ">" == "</p>";
    hide Print, Prosed, ProseError, DocumentError;
    if inner.Err? { return Err(inner.error); }
    return Ok(["<p>" + inner.value + "</p>"]);
  }

  /** Renders the block that starts at a line; the line after it is only reported when it renders. */
  method RenderBlock(lines: seq<string>, i: nat, urlOk: string -> bool)
    returns (r: Result<string, RenderError>, next: nat)
    requires i < |lines| && BlockAt(lines, i).Some?
    ensures r == Output(BlockError(BlockAt(lines, i).value.0, urlOk), BlockEvents(BlockAt(lines, i).value.0))
    ensures r.Ok? ==> next == BlockAt(lines, i).value.1
  {
    if IsFence(lines[i]) {
      r, next := RenderFence(lines, i, urlOk);
    } else if i + 1 < |lines| && IsDivider(lines[i + 1]) {
      r, next := RenderTable(lines, i, urlOk);
    } else if IsHeadingLine(lines[i]) {
      r := RenderHeading(lines, i, urlOk);
      next := i + 1;
    } else {
      r, next := RenderList(lines, i, urlOk);
    }
    hide BlockError, BlockEvents, Print;
  }

  /**
   * `render_markdown` on normalised lines: the printed document, or the first error of the source. Whatever is returned
   * accounts for every line.
   */
  method RenderMarkdown(lines: seq<string>, urlOk: string -> bool) returns (r: Result<string, RenderError>)
    ensures r == match Rendered(lines, urlOk) case Err(e) => Err(e) case Ok(es) => Ok(Print(es))
    ensures Conserved(lines, urlOk, r)
  {
    RenderingConserves(lines, urlOk);
    hide Conserved, Print, BlockError, BlockEvents, BlockAt, DocumentError, DocumentEvents, Printed, Strip, BlocksFrom,
      Flushed;
    var rendered, paragraph, index := [], [], 0;
    ghost var done: seq<Block> := [];
    Nothing(urlOk);
    while index < |lines|
      invariant index <= |lines|
      invariant Blocks(lines) == done + BlocksFrom(lines, index, paragraph)
      invariant DocumentError(done, urlOk) == None && rendered == Printed(done)
    {
      var found := BlockAt(lines, index);
      if found.Some? || Strip(lines[index]) == "" {
        ghost var own, rest := Own(lines, index), BlocksFrom(lines, After(lines, index), []);
        BlocksStep(lines, index, paragraph, done);
        var flushed := FlushParagraph(paragraph, urlOk);
        FlushedNext(done, Flushed(paragraph), own + rest, urlOk);
        if flushed.Err? { return Err(flushed.error); }
        rendered, done, paragraph := rendered + flushed.value, done + Flushed(paragraph), [];
        if found.Some? {
          var block, next := RenderBlock(lines, index, urlOk);
          NextBlock(done, found.value.0, rest, urlOk);
          if block.Err? { return Err(block.error); }
          rendered, done, index := rendered + [block.value], done + [found.value.0], next;
        } else {
          index := index + 1;
        }
      } else {
        BlocksStep(lines, index, paragraph, done);
        paragraph := paragraph + [Strip(lines[index])];
        index := index + 1;
      }
    }
    BlocksEnd(lines, paragraph);
    var flushed := FlushParagraph(paragraph, urlOk);
    FlushedNext(done, Flushed(paragraph), [], urlOk);
    if flushed.Err? { return Err(flushed.error); }
    PrintDocument(Blocks(lines));
    return Ok(JoinWith(rendered + flushed.value, "\n"));
  }

  /** The block that starts at a line, if one does, and the line after it or after a blank line. */
  ghost function Own(lines: seq<string>, i: nat): seq<Block>
    requires i < |lines|
  {
    if BlockAt(lines, i).Some? then [BlockAt(lines, i).value.0] else []
  }

  ghost function After(lines: seq<string>, i: nat): (j: nat)
    requires i < |lines|
    ensures i < j <= |lines|
  {
    if BlockAt(lines, i).Some? then BlockAt(lines, i).value.1 else i + 1
  }

  lemma BlocksStep(lines: seq<string>, i: nat, paragraph: seq<string>, done: seq<Block>)
    requires i < |lines|
    ensures var own := Own(lines, i); var rest := BlocksFrom(lines, After(lines, i), []);
            var flushed := Flushed(paragraph);
            if BlockAt(lines, i).Some? || Strip(lines[i]) == ""
            then done + BlocksFrom(lines, i, paragraph) == done + (flushed + (own + rest))
              == done + flushed + own + rest
            else BlocksFrom(lines, i, paragraph) == BlocksFrom(lines, i + 1, paragraph + [Strip(lines[i])])
  {
    hide BlockAt, Strip, Flushed;
    if BlockAt(lines, i).Some? || Strip(lines[i]) == "" {
      assert BlocksFrom(lines, i, paragraph)
        == Flushed(paragraph) + Own(lines, i) + BlocksFrom(lines, After(lines, i), []);
    }
  }

  lemma BlocksEnd(lines: seq<string>, paragraph: seq<string>)
    ensures BlocksFrom(lines, |lines|, paragraph) == Flushed(paragraph) == Flushed(paragraph) + []
  {}

  lemma Nothing(urlOk: string -> bool)
    ensures DocumentError([], urlOk) == None && Printed([]) == []
  {}

  lemma FlushedNext(done: seq<Block>, flushed: seq<Block>, rest: seq<Block>, urlOk: string -> bool)
    requires DocumentError(done, urlOk) == None
    ensures DocumentError(done + flushed, urlOk) == DocumentError(flushed, urlOk)
    ensures DocumentError(done + (flushed + rest), urlOk) == DocumentError(flushed + rest, urlOk)
    ensures Printed(done + flushed) == Printed(done) + Printed(flushed)
  {
    DocumentErrorConcat(done, flushed, urlOk);
    DocumentErrorConcat(done, flushed + rest, urlOk);
    hide BlockEvents, Print, DocumentError;
  }
}
