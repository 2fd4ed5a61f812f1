// The safe renderer. Rendering is specified as a document of HTML events, so that what a reader of the output sees
// can be compared with the source, and performed by loops over lines and characters that append to the output.
module Markdown {
  import opened Common
  import opened Text
  import opened Html
  import opened HtmlNesting
  import opened MarkdownSyntax

  datatype RenderError = MissingAlternative | UnsafeUrl | BadLanguage | MissingFence

  // ---- Specification ----

  /** The error that is raised when two pieces are rendered in order. */
  function First(a: Option<RenderError>, b: Option<RenderError>): Option<RenderError> { if a.Some? then a else b }

  function Element(name: string, attrs: seq<Attr>, inner: seq<Event>): seq<Event> {
    [Open(name, attrs)] + inner + [Close(name)]
  }

  function InlineEvents(x: Inline): seq<Event> {
    match x
    case Plain(text) => Letters(text)
    case Code(text) => Element("code", [], Letters(text))
    case Link(text, url) => Element("a", [Attr("href", url), Attr("rel", "noopener noreferrer")], Letters(text))
    case Image(alt, url) => [Open("img", [Attr("src", url), Attr("alt", Strip(alt))])]
  }

  function InlineError(x: Inline, urlOk: string -> bool): Option<RenderError> {
    match x
    case Image(alt, url) => if Blank(alt) then Some(MissingAlternative) else if !urlOk(url) then Some(UnsafeUrl)
      else None
    case Link(_, url) => if !urlOk(url) then Some(UnsafeUrl) else None
    case _ => None
  }

  function SpanEvents(xs: seq<Inline>): seq<Event> {
    if xs == [] then [] else InlineEvents(xs[0]) + SpanEvents(xs[1..])
  }

  function SpanError(xs: seq<Inline>, urlOk: string -> bool): Option<RenderError> {
    if xs == [] then None else First(InlineError(xs[0], urlOk), SpanError(xs[1..], urlOk))
  }

  function Prosed(text: string): seq<Event> { SpanEvents(Inlines(text)) }

  function ProseError(text: string, urlOk: string -> bool): Option<RenderError> { SpanError(Inlines(text), urlOk) }

  /** Each text as an element of its own. */
  function EachIn(name: string, attrs: seq<Attr>, texts: seq<string>): seq<Event> {
    if texts == [] then [] else Element(name, attrs, Prosed(texts[0])) + EachIn(name, attrs, texts[1..])
  }

  function EachError(texts: seq<string>, urlOk: string -> bool): Option<RenderError> {
    if texts == [] then None else First(ProseError(texts[0], urlOk), EachError(texts[1..], urlOk))
  }

  function RowEvents(rows: seq<seq<string>>): seq<Event> {
    if rows == [] then [] else Element("tr", [], EachIn("td", [], rows[0])) + RowEvents(rows[1..])
  }

  function RowsError(rows: seq<seq<string>>, urlOk: string -> bool): Option<RenderError> {
    if rows == [] then None else First(EachError(rows[0], urlOk), RowsError(rows[1..], urlOk))
  }

  const LEVELS: seq<string> := ["h0", "h1", "h2", "h3", "h4", "h5", "h6"]

  function HeadingName(level: nat): string { if level < 7 then LEVELS[level] else "h6" }

  function LanguageAttrs(language: string): seq<Attr> {
    if language == "" then [] else [Attr("class", "language-" + language)]
  }

  function BlockEvents(b: Block): seq<Event> {
    match b
    case Paragraph(text) => Element("p", [], Prosed(text))
    case Heading(level, text) => Element(HeadingName(level), [], Prosed(text))
    case Items(items) => Element("ul", [], EachIn("li", [], items))
    case Table(head, rows) =>
      Element("table", [],
        Element("thead", [], Element("tr", [], EachIn("th", [Attr("scope", "col")], head)))
          + Element("tbody", [], RowEvents(rows)))
    case Fenced(language, lines, _) =>
      Element("pre", [], Element("code", LanguageAttrs(language), Letters(JoinWith(lines, "\n"))))
  }

  function BlockError(b: Block, urlOk: string -> bool): Option<RenderError> {
    match b
    case Paragraph(text) => ProseError(text, urlOk)
    case Heading(_, text) => ProseError(text, urlOk)
    case Items(items) => EachError(items, urlOk)
    case Table(head, rows) => First(EachError(head, urlOk), RowsError(rows, urlOk))
    case Fenced(language, _, closed) =>
      if language != "" && !LanguageName(language) then Some(BadLanguage) else if !closed then Some(MissingFence)
        else None
  }

  /** The blocks one after the other, a line break between two. */
  function DocumentEvents(blocks: seq<Block>): seq<Event> {
    if blocks == [] then []
    else if |blocks| == 1 then BlockEvents(blocks[0])
    else BlockEvents(blocks[0]) + [Letter('\n')] + DocumentEvents(blocks[1..])
  }

  function DocumentError(blocks: seq<Block>, urlOk: string -> bool): Option<RenderError> {
    if blocks == [] then None else First(BlockError(blocks[0], urlOk), DocumentError(blocks[1..], urlOk))
  }

  /** What a reader of the rendered source sees, or the first error of the source. */
  function Rendered(lines: seq<string>, urlOk: string -> bool): Result<seq<Event>, RenderError> {
    var blocks := Blocks(lines);
    var e := DocumentError(blocks, urlOk);
    if e.Some? then Err(e.value) else Ok(DocumentEvents(blocks))
  }
}
