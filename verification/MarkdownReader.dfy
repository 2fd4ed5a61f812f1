// A reader of rendered documents: from the HTML events of an output to the headings, paragraphs, lists, tables and code
// blocks a reader sees, with their links, images and code. It shares no table with the renderer.
module MarkdownReader {
  import opened Common
  import opened Text
  import opened Html
  import opened MarkdownSyntax

  /** What a reader sees; running text is plain stretches with tokens between them. */
  datatype Seen =
    | SeenParagraph(prose: seq<Inline>)
    | SeenHeading(level: nat, prose: seq<Inline>)
    | SeenItems(items: seq<seq<Inline>>)
    | SeenTable(head: seq<seq<Inline>>, rows: seq<seq<seq<Inline>>>)
    | SeenCode(language: string, text: string)

  // ---- Running text ----

  /** How many letters come first. */
  function TextEnd(es: seq<Event>): (n: nat)
    ensures n <= |es| && (forall k | 0 <= k < n :: es[k].Letter?) && (n < |es| ==> !es[n].Letter?)
  {
    if es != [] && es[0].Letter? then 1 + TextEnd(es[1..]) else 0
  }

  function TextOf(es: seq<Event>): string { seq(TextEnd(es), k requires 0 <= k < TextEnd(es) => es[k].c) }

  /** An element with nothing but text in it. */
  function SeeText(name: string, es: seq<Event>): Option<(string, seq<Event>)> {
    var n := TextEnd(es);
    if n < |es| && es[n] == Close(name) then Some((TextOf(es), es[n + 1..])) else None
  }

  function SeeToken(es: seq<Event>): (r: Option<(Inline, seq<Event>)>)
    ensures r.Some? ==> |r.value.1| < |es|
  {
    if es == [] || !es[0].Open? then None
    else if es[0].name == "code" && es[0].attrs == [] then
      match SeeText("code", es[1..])
      case None => None
      case Some((text, rest)) => Some((Code(text), rest))
    else if es[0].name == "a" && |es[0].attrs| == 2 && es[0].attrs[0].key == "href" then
      match SeeText("a", es[1..])
      case None => None
      case Some((text, rest)) => Some((Link(text, es[0].attrs[0].val), rest))
    else if es[0].name == "img" && |es[0].attrs| == 2 && es[0].attrs[0].key == "src" && es[0].attrs[1].key == "alt" then
      Some((Image(es[0].attrs[1].val, es[0].attrs[0].val), es[1..]))
    else None
  }

  function SeeProse(es: seq<Event>): (r: (seq<Inline>, seq<Event>))
    ensures |r.1| <= |es|
    decreases |es|
  {
    var rest := es[TextEnd(es)..];
    match SeeToken(rest)
    case None => ([Plain(TextOf(es))], rest)
    case Some((token, after)) =>
      var (prose, more) := SeeProse(after);
      ([Plain(TextOf(es)), token] + prose, more)
  }

  // ---- Blocks ----

  function SeeElement(name: string, attrs: seq<Attr>, es: seq<Event>): (r: Option<(seq<Inline>, seq<Event>)>)
    ensures r.Some? ==> |r.value.1| < |es|
  {
    if es == [] || es[0] != Open(name, attrs) then None
    else
      var (prose, rest) := SeeProse(es[1..]);
      if rest != [] && rest[0] == Close(name) then Some((prose, rest[1..])) else None
  }

  function SeeEach(name: string, attrs: seq<Attr>, es: seq<Event>): (r: (seq<seq<Inline>>, seq<Event>))
    ensures |r.1| <= |es|
    decreases |es|
  {
    match SeeElement(name, attrs, es)
    case None => ([], es)
    case Some((prose, rest)) =>
      var (others, more) := SeeEach(name, attrs, rest);
      ([prose] + others, more)
  }

  function SeeRows(es: seq<Event>): (r: (seq<seq<seq<Inline>>>, seq<Event>))
    ensures |r.1| <= |es|
    decreases |es|
  {
    if es == [] || es[0] != Open("tr", []) then ([], es)
    else
      var (cells, rest) := SeeEach("td", [], es[1..]);
      if rest == [] || rest[0] != Close("tr") then ([], es)
      else
        var (rows, more) := SeeRows(rest[1..]);
        ([cells] + rows, more)
  }

  /** The rest after the given events, if they come first. */
  function After(expected: seq<Event>, es: seq<Event>): Option<seq<Event>> {
    if expected <= es then Some(es[|expected|..]) else None
  }

  function SeeTable(es: seq<Event>): Option<(Seen, seq<Event>)> {
    match After([Open("table", []), Open("thead", []), Open("tr", [])], es)
    case None => None
    case Some(inner) =>
      var (head, rest) := SeeEach("th", [Attr("scope", "col")], inner);
      match After([Close("tr"), Close("thead"), Open("tbody", [])], rest)
      case None => None
      case Some(body) =>
        var (rows, end) := SeeRows(body);
        match After([Close("tbody"), Close("table")], end)
        case None => None
        case Some(more) => Some((SeenTable(head, rows), more))
  }

  function SeeItems(es: seq<Event>): Option<(Seen, seq<Event>)> {
    match After([Open("ul", [])], es)
    case None => None
    case Some(inner) =>
      var (items, rest) := SeeEach("li", [], inner);
      match After([Close("ul")], rest)
      case None => None
      case Some(more) => Some((SeenItems(items), more))
  }

  function SeeCode(es: seq<Event>): Option<(Seen, seq<Event>)> {
    if |es| < 2 || es[0] != Open("pre", []) || !es[1].Open? || es[1].name != "code" then None
    else
      var language :=
        if es[1].attrs == [] then Some("")
        else if |es[1].attrs| == 1 && es[1].attrs[0].key == "class" && "language-" <= es[1].attrs[0].val
        then Some(es[1].attrs[0].val[9..])
        else None;
      match SeeText("code", es[2..])
      case None => None
      case Some((text, rest)) =>
        if language.Some? && rest != [] && rest[0] == Close("pre")
          then Some((SeenCode(language.value, text), rest[1..]))
        else None
  }

  function Level(name: string): Option<nat> {
    if |name| == 2 && name[0] == 'h' && '1' <= name[1] <= '6' then Some((name[1] - '0') as nat) else None
  }

  function SeeBlock(es: seq<Event>): Option<(Seen, seq<Event>)> {
    if es == [] || !es[0].Open? then None
    else if es[0].name == "p" then
      match SeeElement("p", [], es) case None => None case Some((prose, rest)) => Some((SeenParagraph(prose), rest))
    else if Level(es[0].name).Some? then
      match SeeElement(es[0].name, [], es)
      case None => None
      case Some((prose, rest)) => Some((SeenHeading(Level(es[0].name).value, prose), rest))
    else if es[0].name == "ul" then SeeItems(es)
    else if es[0].name == "table" then SeeTable(es)
    else SeeCode(es)
  }

  /** The blocks of a document, a line break between two. */
  function SeeAll(es: seq<Event>): Option<seq<Seen>>
    decreases |es|
  {
    if es == [] then Some([])
    else match SeeBlock(es)
      case None => None
      case Some((b, rest)) =>
        if rest == [] then Some([b])
        else if rest[0] != Letter('\n') || |rest| >= |es| || |rest| == 1 then None
        else match SeeAll(rest[1..])
          case None => None
          case Some(more) => Some([b] + more)
  }
}
