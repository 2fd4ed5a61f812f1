/** The reader sees exactly the blocks that were rendered. */
module MarkdownReading {
  import opened Common
  import opened Text
  import opened Html
  import opened MarkdownSyntax
  import opened Markdown
  import opened MarkdownReader

  /** As it is shown: the text that stands for an image is stripped. */
  function Shown(x: Inline): Inline { if x.Image? then Image(Strip(x.alt), x.url) else x }

  function ShownAll(xs: seq<Inline>): seq<Inline> { seq(|xs|, k requires 0 <= k < |xs| => Shown(xs[k])) }

  /** Plain stretches with single tokens between them. */
  predicate Alternating(xs: seq<Inline>)
    decreases |xs|
  {
    xs != [] && xs[0].Plain? && (|xs| == 1 || (!xs[1].Plain? && Alternating(xs[2..])))
  }

  lemma {:induction false} SpansAlternate(s: string, from: nat, i: nat)
    requires from <= i <= |s|
    ensures Alternating(Spans(s, from, i))
    decreases |s| - i
  {
    if i < |s| {
      match TokenAt(s, i) {
        case None => SpansAlternate(s, from, i + 1);
        case Some((token, j)) =>
          SpansAlternate(s, j, j);
          assert Spans(s, from, i)[2..] == Spans(s, j, j);
      }
    }
    hide TokenAt;
  }

  /** Something other than text comes next, or nothing. */
  predicate Marked(rest: seq<Event>) { rest == [] || !rest[0].Letter? }

  /** An element is closed next. */
  predicate Closing(rest: seq<Event>) { rest != [] && rest[0].Close? }

  lemma {:induction false} LettersSeen(text: string, rest: seq<Event>)
    requires Marked(rest)
    ensures TextEnd(Letters(text) + rest) == |text| && TextOf(Letters(text) + rest) == text
  {
    var es := Letters(text) + rest;
    if text == "" {
      assert es == rest;
    } else {
      var tail := Letters(text[1..]) + rest;
      assert es[0] == Letter(text[0]);
      assert es[1..] == tail;
      LettersSeen(text[1..], rest);
      assert forall k | 0 <= k < |text| :: es[k] == Letter(text[k]);
    }
  }

  lemma TextSeen(name: string, text: string, rest: seq<Event>)
    ensures SeeText(name, Letters(text) + [Close(name)] + rest) == Some((text, rest))
  {
    var after := [Close(name)] + rest;
    LettersSeen(text, after);
    assert Letters(text) + [Close(name)] + rest == Letters(text) + after;
    assert (Letters(text) + after)[|text| + 1..] == rest;
  }

  lemma ElementSplits(name: string, attrs: seq<Attr>, inner: seq<Event>, rest: seq<Event>)
    ensures var es := Element(name, attrs, inner) + rest;
            es != [] && es[0] == Open(name, attrs) && es[1..] == inner + [Close(name)] + rest
            && es[1..] == inner + ([Close(name)] + rest)
  {}

  lemma TokenSeen(x: Inline, rest: seq<Event>)
    requires !x.Plain?
    ensures SeeToken(InlineEvents(x) + rest) == Some((Shown(x), rest))
  {
    match x
    case Code(text) =>
      ElementSplits("code", [], Letters(text), rest);
      TextSeen("code", text, rest);
      hide SeeText, Letters, Element;
    case Link(text, url) =>
      ElementSplits("a", [Attr("href", url), Attr("rel", "noopener noreferrer")], Letters(text), rest);
      TextSeen("a", text, rest);
      hide SeeText, Letters, Element;
    case Image(alt, url) =>
      var es := InlineEvents(x) + rest;
      assert es[0] == InlineEvents(x)[0] && es[1..] == rest;
      hide SeeText, Strip;
  }

  lemma NothingSeen(rest: seq<Event>)
    requires Closing(rest)
    ensures SeeToken(rest) == None
  {}

  lemma {:induction false} ProseSeen(xs: seq<Inline>, rest: seq<Event>)
    requires Alternating(xs) && Closing(rest)
    ensures SeeProse(SpanEvents(xs) + rest) == (ShownAll(xs), rest)
    decreases |xs|
  {
    if |xs| == 1 {
      assert xs == [xs[0]];
      PlainSeen(xs[0].text, rest);
    } else {
      ProseSeen(xs[2..], rest);
      StretchSeen(xs, rest);
    }
  }

  lemma PlainSeen(text: string, rest: seq<Event>)
    requires Closing(rest)
    ensures SeeProse(SpanEvents([Plain(text)]) + rest) == (ShownAll([Plain(text)]), rest)
  {
    hide SeeToken, Letters, TextEnd, TextOf;
    SpanStep([Plain(text)]);
    assert SpanEvents([Plain(text)]) == Letters(text);
    LettersSeen(text, rest);
    PlainTail(text, rest);
    NothingSeen(rest);
    assert ShownAll([Plain(text)]) == [Plain(text)];
  }

  lemma StretchSeen(xs: seq<Inline>, rest: seq<Event>)
    requires |xs| >= 2 && xs[0].Plain? && !xs[1].Plain?
    requires SeeProse(SpanEvents(xs[2..]) + rest) == (ShownAll(xs[2..]), rest)
    ensures SeeProse(SpanEvents(xs) + rest) == (ShownAll(xs), rest)
  {
    hide SeeToken, Letters, TextEnd, TextOf, SpanEvents, InlineEvents;
    var text, token, others := xs[0].text, xs[1], xs[2..];
    var after := SpanEvents(others) + rest;
    SpansSplit(xs, rest);
    TokenSeen(token, after);
    TokenMarked(token, after);
    LettersSeen(text, InlineEvents(token) + after);
    PlainTail(text, InlineEvents(token) + after);
    assert ShownAll(xs) == [Plain(text), Shown(token)] + ShownAll(others);
  }

  lemma PlainTail(text: string, rest: seq<Event>)
    ensures |Letters(text)| == |text| && (Letters(text) + rest)[|text|..] == rest
  {}

  lemma SpansSplit(xs: seq<Inline>, rest: seq<Event>)
    requires |xs| >= 2 && xs[0].Plain?
    ensures SpanEvents(xs) + rest == Letters(xs[0].text) + (InlineEvents(xs[1]) + (SpanEvents(xs[2..]) + rest))
  {
    hide InlineEvents, SpanEvents, Letters;
    assert xs[1..][1..] == xs[2..] && xs[1..][0] == xs[1];
    SpanStep(xs);
    SpanStep(xs[1..]);
    Associate(Letters(xs[0].text), InlineEvents(xs[1]) + SpanEvents(xs[2..]), rest);
    Associate(InlineEvents(xs[1]), SpanEvents(xs[2..]), rest);
  }

  lemma SpanStep(xs: seq<Inline>)
    requires xs != []
    ensures SpanEvents(xs) == InlineEvents(xs[0]) + SpanEvents(xs[1..])
    ensures xs[0].Plain? ==> InlineEvents(xs[0]) == Letters(xs[0].text)
  {}

  lemma Associate(a: seq<Event>, b: seq<Event>, c: seq<Event>)
    ensures (a + b) + c == a + (b + c)
  {}

  lemma TokenMarked(x: Inline, rest: seq<Event>)
    requires !x.Plain?
    ensures Marked(InlineEvents(x) + rest)
  {}

  lemma ElementSeen(name: string, attrs: seq<Attr>, text: string, rest: seq<Event>)
    ensures SeeElement(name, attrs, Element(name, attrs, Prosed(text)) + rest) == Some((ShownAll(Inlines(text)), rest))
  {
    ElementSplits(name, attrs, Prosed(text), rest);
    SpansAlternate(text, 0, 0);
    hide Element, SeeProse, SpanEvents, ShownAll, Inlines;
    ProseSeen(Inlines(text), [Close(name)] + rest);
    assert ([Close(name)] + rest)[1..] == rest;
  }

  function ShownEach(texts: seq<string>): seq<seq<Inline>> {
    seq(|texts|, k requires 0 <= k < |texts| => ShownAll(Inlines(texts[k])))
  }

  lemma {:induction false} EachSeen(name: string, attrs: seq<Attr>, texts: seq<string>, rest: seq<Event>)
    requires Closing(rest)
    ensures SeeEach(name, attrs, EachIn(name, attrs, texts) + rest) == (ShownEach(texts), rest)
    decreases |texts|
  {
    hide Element, ShownAll, Prosed, Inlines, SeeElement;
    if texts == [] {
      assert EachIn(name, attrs, texts) + rest == rest;
      EachEnds(name, attrs, rest);
    } else {
      var first := Element(name, attrs, Prosed(texts[0]));
      var after := EachIn(name, attrs, texts[1..]) + rest;
      Associate(first, EachIn(name, attrs, texts[1..]), rest);
      ElementSeen(name, attrs, texts[0], after);
      EachSeen(name, attrs, texts[1..], rest);
      hide EachIn;
      assert ShownEach(texts) == [ShownAll(Inlines(texts[0]))] + ShownEach(texts[1..]);
    }
  }

  lemma EachEnds(name: string, attrs: seq<Attr>, rest: seq<Event>)
    requires Closing(rest)
    ensures SeeEach(name, attrs, rest) == ([], rest)
  {}

  function ShownRows(rows: seq<seq<string>>): seq<seq<seq<Inline>>> {
    seq(|rows|, k requires 0 <= k < |rows| => ShownEach(rows[k]))
  }

  lemma {:induction false} RowsSeen(rows: seq<seq<string>>, rest: seq<Event>)
    requires Closing(rest)
    ensures SeeRows(RowEvents(rows) + rest) == (ShownRows(rows), rest)
    decreases |rows|
  {
    hide ShownEach, EachIn, SeeEach;
    if rows == [] {
      assert RowEvents(rows) + rest == rest;
    } else {
      var cells := EachIn("td", [], rows[0]);
      var after := RowEvents(rows[1..]) + rest;
      var es := RowEvents(rows) + rest;
      Associate(Element("tr", [], cells), RowEvents(rows[1..]), rest);
      RowStep(rows);
      hide RowEvents;
      ElementSplits("tr", [], cells, after);
      EachSeen("td", [], rows[0], [Close("tr")] + after);
      assert ([Close("tr")] + after)[1..] == after;
      RowsSeen(rows[1..], rest);
      hide Element;
      assert ShownRows(rows) == [ShownEach(rows[0])] + ShownRows(rows[1..]);
    }
  }

  lemma RowStep(rows: seq<seq<string>>)
    requires rows != []
    ensures RowEvents(rows) == Element("tr", [], EachIn("td", [], rows[0])) + RowEvents(rows[1..])
  {}

  function ShownBlock(b: Block): Seen {
    match b
    case Paragraph(text) => SeenParagraph(ShownAll(Inlines(text)))
    case Heading(level, text) => SeenHeading(level, ShownAll(Inlines(text)))
    case Items(items) => SeenItems(ShownEach(items))
    case Table(head, rows) => SeenTable(ShownEach(head), ShownRows(rows))
    case Fenced(language, lines, _) => SeenCode(language, JoinWith(lines, "\n"))
  }

  lemma AfterAll(expected: seq<Event>, rest: seq<Event>)
    ensures After(expected, expected + rest) == Some(rest)
  {}

  lemma ItemsSeen(items: seq<string>, rest: seq<Event>)
    ensures SeeItems(Element("ul", [], EachIn("li", [], items)) + rest) == Some((SeenItems(ShownEach(items)), rest))
  {
    hide EachIn, SeeEach, ShownEach;
    var inner := EachIn("li", [], items);
    assert Element("ul", [], inner) + rest == [Open("ul", [])] + (inner + ([Close("ul")] + rest));
    AfterAll([Open("ul", [])], inner + ([Close("ul")] + rest));
    EachSeen("li", [], items, [Close("ul")] + rest);
    AfterAll([Close("ul")], rest);
    hide After, Element;
  }

  lemma TableSeen(head: seq<string>, rows: seq<seq<string>>, rest: seq<Event>)
    ensures SeeTable(BlockEvents(Table(head, rows)) + rest) == Some((SeenTable(ShownEach(head), ShownRows(rows)), rest))
  {
    hide EachIn, SeeEach, ShownEach, RowEvents, SeeRows, ShownRows;
    var attrs := [Attr("scope", "col")];
    var cells, body := EachIn("th", attrs, head), RowEvents(rows);
    var last := [Close("tbody"), Close("table")] + rest;
    var middle := [Close("tr"), Close("thead"), Open("tbody", [])] + (body + last);
    TableEvents(cells, body, rest);
    AfterAll([Open("table", []), Open("thead", []), Open("tr", [])], cells + middle);
    EachSeen("th", attrs, head, middle);
    AfterAll([Close("tr"), Close("thead"), Open("tbody", [])], body + last);
    RowsSeen(rows, last);
    AfterAll([Close("tbody"), Close("table")], rest);
    hide After, Element;
  }

  lemma TableEvents(cells: seq<Event>, body: seq<Event>, rest: seq<Event>)
    ensures Element("table", [], Element("thead", [], Element("tr", [], cells)) + Element("tbody", [], body)) + rest
            == [Open("table", []), Open("thead", []), Open("tr", [])]
               + (cells + ([Close("tr"), Close("thead"), Open("tbody", [])]
                           + (body + ([Close("tbody"), Close("table")] + rest))))
  {}

  lemma CodeSeen(language: string, text: string, rest: seq<Event>)
    ensures SeeCode(Element("pre", [], Element("code", LanguageAttrs(language), Letters(text))) + rest)
            == Some((SeenCode(language, text), rest))
  {
    var code := Open("code", LanguageAttrs(language));
    var es := Element("pre", [], Element("code", LanguageAttrs(language), Letters(text))) + rest;
    var inner := Letters(text) + [Close("code")] + ([Close("pre")] + rest);
    assert es == [Open("pre", []), code] + inner;
    assert es[0] == Open("pre", []) && es[1] == code && es[2..] == inner;
    TextSeen("code", text, [Close("pre")] + rest);
    if language != "" { assert ("language-" + language)[9..] == language; }
    assert ([Close("pre")] + rest)[1..] == rest;
    hide SeeText, Letters, Element;
  }

  lemma BlockSeen(b: Block, rest: seq<Event>)
    requires b.Heading? ==> 1 <= b.level <= 6
    ensures SeeBlock(BlockEvents(b) + rest) == Some((ShownBlock(b), rest))
  {
    hide SeeElement, SeeItems, SeeTable, SeeCode, Prosed, EachIn, RowEvents, Letters;
    match b
    case Paragraph(text) =>
      ElementSplits("p", [], Prosed(text), rest);
      ElementSeen("p", [], text, rest);
    case Heading(level, text) =>
      LevelNamed(level);
      ElementSplits(HeadingName(level), [], Prosed(text), rest);
      ElementSeen(HeadingName(level), [], text, rest);
    case Items(items) =>
      ElementSplits("ul", [], EachIn("li", [], items), rest);
      ItemsSeen(items, rest);
    case Table(head, rows) =>
      var head_ := Element("thead", [], Element("tr", [], EachIn("th", [Attr("scope", "col")], head)));
      ElementSplits("table", [], head_ + Element("tbody", [], RowEvents(rows)), rest);
      TableSeen(head, rows, rest);
    case Fenced(language, lines, _) =>
      var text := JoinWith(lines, "\n");
      ElementSplits("pre", [], Element("code", LanguageAttrs(language), Letters(text)), rest);
      CodeSeen(language, text, rest);
  }

  lemma LevelNamed(level: nat)
    requires 1 <= level <= 6
    ensures Level(HeadingName(level)) == Some(level) && HeadingName(level) != "p"
  {}

  function ShownDocument(blocks: seq<Block>): seq<Seen> {
    seq(|blocks|, k requires 0 <= k < |blocks| => ShownBlock(blocks[k]))
  }

  lemma BlockNonempty(b: Block)
    ensures BlockEvents(b) != []
  {}

  /** Read back, a document is its blocks as they are shown. */
  lemma {:induction false} DocumentSeen(blocks: seq<Block>)
    requires forall k | 0 <= k < |blocks| :: blocks[k].Heading? ==> 1 <= blocks[k].level <= 6
    ensures SeeAll(DocumentEvents(blocks)) == Some(ShownDocument(blocks))
    decreases |blocks|
  {
    hide BlockEvents, SeeBlock, ShownBlock, SeeAll, DocumentEvents, ShownDocument;
    if blocks == [] {
      NothingShown();
    } else if |blocks| == 1 {
      OneSeen(blocks[0]);
      assert blocks == [blocks[0]];
    } else {
      DocumentSeen(blocks[1..]);
      OneMoreSeen(blocks);
    }
  }

  lemma NothingShown()
    ensures SeeAll(DocumentEvents([])) == Some(ShownDocument([]))
  {
    assert ShownDocument([]) == [];
  }

  lemma OneSeen(b: Block)
    requires b.Heading? ==> 1 <= b.level <= 6
    ensures SeeAll(DocumentEvents([b])) == Some(ShownDocument([b]))
  {
    hide BlockEvents, SeeBlock, ShownBlock;
    BlockNonempty(b);
    BlockSeen(b, []);
    assert BlockEvents(b) + [] == BlockEvents(b);
    assert DocumentEvents([b]) == BlockEvents(b);
    SeeLast(BlockEvents(b), ShownBlock(b));
    assert ShownDocument([b]) == [ShownBlock(b)];
  }

  lemma SeeLast(es: seq<Event>, b: Seen)
    requires es != [] && SeeBlock(es) == Some((b, []))
    ensures SeeAll(es) == Some([b])
  {
    hide SeeBlock;
  }

  lemma SeeNext(es: seq<Event>, b: Seen, more: seq<Event>, others: seq<Seen>)
    requires more != [] && |more| + 1 < |es| && SeeBlock(es) == Some((b, [Letter('\n')] + more))
    requires SeeAll(more) == Some(others)
    ensures SeeAll(es) == Some([b] + others)
  {
    hide SeeBlock;
    assert ([Letter('\n')] + more)[1..] == more;
  }

  lemma OneMoreSeen(blocks: seq<Block>)
    requires |blocks| > 1 && (blocks[0].Heading? ==> 1 <= blocks[0].level <= 6)
    requires SeeAll(DocumentEvents(blocks[1..])) == Some(ShownDocument(blocks[1..]))
    ensures SeeAll(DocumentEvents(blocks)) == Some(ShownDocument(blocks))
  {
    hide BlockEvents, SeeBlock, ShownBlock, DocumentEvents;
    var more := DocumentEvents(blocks[1..]);
    var rest := [Letter('\n')] + more;
    DocumentSplits(blocks);
    DocumentNonempty(blocks[1..]);
    BlockNonempty(blocks[0]);
    BlockSeen(blocks[0], rest);
    SeeNext(BlockEvents(blocks[0]) + rest, ShownBlock(blocks[0]), more, ShownDocument(blocks[1..]));
    assert ShownDocument(blocks) == [ShownBlock(blocks[0])] + ShownDocument(blocks[1..]);
  }

  lemma DocumentSplits(blocks: seq<Block>)
    requires |blocks| > 1
    ensures DocumentEvents(blocks) == BlockEvents(blocks[0]) + ([Letter('\n')] + DocumentEvents(blocks[1..]))
  {
    hide BlockEvents;
    Associate(BlockEvents(blocks[0]), [Letter('\n')], DocumentEvents(blocks[1..]));
  }

  lemma DocumentNonempty(blocks: seq<Block>)
    requires blocks != []
    ensures DocumentEvents(blocks) != []
  {
    BlockNonempty(blocks[0]);
    hide BlockEvents;
  }
}
