/** What every rendered document is: well-formed, read back as itself, and faithful to its code blocks. */
module MarkdownOutput {
  import opened Common
  import opened Text
  import opened Html
  import opened HtmlReading
  import opened HtmlNesting
  import opened MarkdownSyntax
  import opened Markdown

  lemma InlineWalks(x: Inline, stack: Stack, urlOk: string -> bool)
    requires Prose(Top(stack)) && InlineError(x, urlOk).None?
    ensures Walk(InlineEvents(x), stack, urlOk) == Some(stack)
  {
    match x
    case Plain(text) => WalkLetters(text, stack, urlOk);
    case Code(text) =>
      WalkLetters(text, ["code"] + stack, urlOk);
      WalkElement("code", [], Letters(text), stack, urlOk);
    case Link(text, url) =>
      WalkLetters(text, ["a"] + stack, urlOk);
      WalkElement("a", [Attr("href", url), Attr("rel", "noopener noreferrer")], Letters(text), stack, urlOk);
    case Image(alt, url) =>
      StripTwice(alt);
      WalkOne(InlineEvents(x)[0], stack, urlOk);
      hide Walk;
  }

  lemma StripTwice(s: string)
    ensures Blank(Strip(s)) <==> Blank(s)
  {
    var d := DropLeft(s, IsSpace);
    if Strip(s) != "" {
      KeptFirst(d);
      DropLeftFirst(s);
      assert DropLeft(Strip(s), IsSpace) == Strip(s);
      DropRightLast(d);
      assert DropRight(Strip(s), IsSpace) == Strip(s);
    }
  }

  lemma {:induction false} DropLeftFirst(s: string)
    ensures var d := DropLeft(s, IsSpace); d != "" ==> !IsSpace(d[0])
  {
    if s != "" && IsSpace(s[0]) { DropLeftFirst(s[1..]); }
  }

  lemma {:induction false} DropRightLast(s: string)
    ensures var d := DropRight(s, IsSpace); d != "" ==> !IsSpace(d[|d| - 1])
  {
    if s != "" && IsSpace(s[|s| - 1]) { DropRightLast(s[..|s| - 1]); }
  }

  lemma {:induction false} KeptFirst(s: string)
    ensures DropRight(s, IsSpace) <= s
  {
    if s != "" && IsSpace(s[|s| - 1]) { KeptFirst(s[..|s| - 1]); }
  }

  lemma {:induction false} SpansWalk(xs: seq<Inline>, stack: Stack, urlOk: string -> bool)
    requires Prose(Top(stack)) && SpanError(xs, urlOk).None?
    ensures Walk(SpanEvents(xs), stack, urlOk) == Some(stack)
  {
    hide InlineEvents, InlineError, Prose, Walk;
    if xs == [] {
      WalkNothing(stack, urlOk);
    } else {
      InlineWalks(xs[0], stack, urlOk);
      SpansWalk(xs[1..], stack, urlOk);
      WalkConcat(InlineEvents(xs[0]), SpanEvents(xs[1..]), stack, urlOk);
    }
  }

  lemma WalkNothing(stack: Stack, urlOk: string -> bool)
    ensures Walk([], stack, urlOk) == Some(stack)
  {}

  /** Elements that may stand one after the other in the same place. */
  lemma {:induction false} EachWalks(name: string, attrs: seq<Attr>, texts: seq<string>, stack: Stack,
                                     urlOk: string -> bool)
    requires MayContain(stack, name) && Attributes(stack, name, attrs, urlOk) && Prose(name)
             && EachError(texts, urlOk).None?
    ensures Walk(EachIn(name, attrs, texts), stack, urlOk) == Some(stack)
  {
    hide MayContain, Attributes, Inlines;
    if texts == [] {
      WalkNothing(stack, urlOk);
    } else {
      SpansWalk(Inlines(texts[0]), [name] + stack, urlOk);
      hide Walk, SpanEvents, SpanError;
      WalkElement(name, attrs, Prosed(texts[0]), stack, urlOk);
      EachWalks(name, attrs, texts[1..], stack, urlOk);
      WalkConcat(Element(name, attrs, Prosed(texts[0])), EachIn(name, attrs, texts[1..]), stack, urlOk);
    }
  }

  lemma {:induction false} RowsWalk(rows: seq<seq<string>>, urlOk: string -> bool)
    requires RowsError(rows, urlOk).None?
    ensures Walk(RowEvents(rows), ["tbody", "table"], urlOk) == Some(["tbody", "table"])
  {
    var stack := ["tbody", "table"];
    if rows == [] {
      WalkNothing(stack, urlOk);
    } else {
      hide Walk;
      EachWalks("td", [], rows[0], ["tr"] + stack, urlOk);
      WalkElement("tr", [], EachIn("td", [], rows[0]), stack, urlOk);
      RowsWalk(rows[1..], urlOk);
      WalkConcat(Element("tr", [], EachIn("td", [], rows[0])), RowEvents(rows[1..]), stack, urlOk);
      hide EachIn, MayContain, Attributes;
    }
  }

  lemma TableWalks(head: seq<string>, rows: seq<seq<string>>, urlOk: string -> bool)
    requires EachError(head, urlOk).None? && RowsError(rows, urlOk).None?
    ensures Walk(BlockEvents(Table(head, rows)), [], urlOk) == Some([])
  {
    var attrs := [Attr("scope", "col")];
    hide Walk, EachIn, RowEvents, EachError, RowsError;
    var stack := ["tr", "thead", "table"];
    assert ["tr"] + ["thead", "table"] == stack && ["thead"] + ["table"] == ["thead", "table"]
      && ["table"] + [] == ["table"];
    assert ["tbody"] + ["table"] == ["tbody", "table"];
    EachWalks("th", attrs, head, stack, urlOk);
    var top := Element("tr", [], EachIn("th", attrs, head));
    WalkElement("tr", [], EachIn("th", attrs, head), ["thead", "table"], urlOk);
    WalkElement("thead", [], top, ["table"], urlOk);
    RowsWalk(rows, urlOk);
    WalkElement("tbody", [], RowEvents(rows), ["table"], urlOk);
    WalkConcat(Element("thead", [], top), Element("tbody", [], RowEvents(rows)), ["table"], urlOk);
    WalkElement("table", [], Element("thead", [], top) + Element("tbody", [], RowEvents(rows)), [], urlOk);
  }

  /** Headings have one of the six levels. */
  predicate LevelOk(b: Block) { b.Heading? ==> 1 <= b.level <= 6 }

  lemma BlockWalks(b: Block, urlOk: string -> bool)
    requires LevelOk(b) && BlockError(b, urlOk).None?
    ensures Walk(BlockEvents(b), [], urlOk) == Some([])
  {
    hide Walk, SpanEvents, SpanError, EachIn, EachError;
    match b
    case Paragraph(text) =>
      SpansWalk(Inlines(text), ["p"] + [], urlOk);
      WalkElement("p", [], Prosed(text), [], urlOk);
    case Heading(level, text) =>
      assert IsHeading(HeadingName(level));
      SpansWalk(Inlines(text), [HeadingName(level)] + [], urlOk);
      WalkElement(HeadingName(level), [], Prosed(text), [], urlOk);
    case Items(items) =>
      EachWalks("li", [], items, ["ul"] + [], urlOk);
      WalkElement("ul", [], EachIn("li", [], items), [], urlOk);
    case Table(head, rows) => TableWalks(head, rows, urlOk);
    case Fenced(language, lines, _) =>
      var text := JoinWith(lines, "\n");
      var attrs := LanguageAttrs(language);
      if language != "" { assert ("language-" + language)[9..] == language; }
      assert ["pre"] + [] == ["pre"];
      WalkLetters(text, ["code"] + ["pre"], urlOk);
      WalkElement("code", attrs, Letters(text), ["pre"], urlOk);
      WalkElement("pre", [], Element("code", attrs, Letters(text)), [], urlOk);
  }

  lemma {:induction false} DocumentWalks(blocks: seq<Block>, urlOk: string -> bool)
    requires (forall i | 0 <= i < |blocks| :: LevelOk(blocks[i])) && DocumentError(blocks, urlOk).None?
    ensures WellFormed(DocumentEvents(blocks), urlOk)
  {
    hide BlockEvents, BlockError, Walk, LevelOk;
    if blocks == [] {
      WalkNothing([], urlOk);
    } else {
      BlockWalks(blocks[0], urlOk);
      if |blocks| > 1 {
        DocumentWalks(blocks[1..], urlOk);
        WalkOne(Letter('\n'), [], urlOk);
        WalkConcat(BlockEvents(blocks[0]) + [Letter('\n')], DocumentEvents(blocks[1..]), [], urlOk);
        WalkConcat(BlockEvents(blocks[0]), [Letter('\n')], [], urlOk);
      }
    }
  }

  lemma BlockLevelOk(lines: seq<string>, i: nat)
    requires i < |lines|
    ensures BlockAt(lines, i).Some? ==> LevelOk(BlockAt(lines, i).value.0)
  {}

  lemma {:induction false} BlocksLevelOk(lines: seq<string>, i: nat, paragraph: seq<string>)
    requires i <= |lines|
    ensures forall k | 0 <= k < |BlocksFrom(lines, i, paragraph)| :: LevelOk(BlocksFrom(lines, i, paragraph)[k])
    decreases |lines| - i
  {
    if i < |lines| {
      BlockLevelOk(lines, i);
      hide BlockAt, LevelOk;
      match BlockAt(lines, i) {
        case Some((block, j)) => BlocksLevelOk(lines, j, []);
        case None =>
          if Blank(lines[i]) {
            BlocksLevelOk(lines, i + 1, []);
          } else {
            BlocksLevelOk(lines, i + 1, paragraph + [Strip(lines[i])]);
          }
      }
    }
  }

  /** Every source that renders gives a document of the fixed tags, balanced and placed as they may be. */
  lemma RenderedIsWellFormed(lines: seq<string>, urlOk: string -> bool)
    requires Rendered(lines, urlOk).Ok?
    ensures WellFormed(Rendered(lines, urlOk).value, urlOk)
  {
    hide DocumentEvents, DocumentError, BlocksFrom, LevelOk, WellFormed;
    var blocks := Blocks(lines);
    BlocksLevelOk(lines, 0, []);
    assert DocumentError(blocks, urlOk).None?;
    DocumentWalks(blocks, urlOk);
  }

  /** Well-formed documents use nameable tags and attributes only. */
  lemma {:induction false} WalkNames(es: seq<Event>, stack: Stack, urlOk: string -> bool)
    requires Walk(es, stack, urlOk).Some? && forall i | 0 <= i < |stack| :: IsName(stack[i])
    ensures forall i | 0 <= i < |es| :: Nameable(es[i])
  {
    if es != [] {
      var next := Enter(es[0], stack, urlOk).value;
      EnterNames(es[0], stack, urlOk);
      hide Enter;
      WalkNames(es[1..], next, urlOk);
      forall i | 0 <= i < |es| ensures Nameable(es[i]) {
        if i > 0 { assert es[i] == es[1..][i - 1]; }
      }
    }
  }

  lemma EnterNames(e: Event, stack: Stack, urlOk: string -> bool)
    requires Enter(e, stack, urlOk).Some? && forall i | 0 <= i < |stack| :: IsName(stack[i])
    ensures Nameable(e) && var next := Enter(e, stack, urlOk).value; forall i | 0 <= i < |next| :: IsName(next[i])
  {
  }

  /**
   * A reader who knows only HTML recovers exactly the document from the printed output: whatever the source holds, raw
   * HTML included, is seen as text unless it is one of the constructs of the subset.
   */
  lemma OutputReadsBack(lines: seq<string>, urlOk: string -> bool)
    requires Rendered(lines, urlOk).Ok?
    ensures Read(Print(Rendered(lines, urlOk).value)) == Some(Rendered(lines, urlOk).value)
  {
    RenderedIsWellFormed(lines, urlOk);
    var es := Rendered(lines, urlOk).value;
    hide Rendered, Nameable, Read, Print;
    WalkNames(es, [], urlOk);
    PrintReadsBack(es);
  }

  // ---- Code blocks ----

  lemma {:induction false} SplitJoined(lines: seq<string>)
    requires lines != [] && forall i | 0 <= i < |lines| :: '\n' !in lines[i]
    ensures SplitAt(JoinWith(lines, "\n"), '\n') == lines
  {
    var s := JoinWith(lines, "\n");
    if |lines| == 1 {
      FindAbsent(s, 0, '\n');
    } else {
      var rest := JoinWith(lines[1..], "\n");
      assert s == lines[0] + "\n" + rest;
      FindFirst(lines[0], rest, '\n', 0);
      assert s[..|lines[0]|] == lines[0] && s[|lines[0]| + 1..] == rest;
      SplitJoined(lines[1..]);
    }
  }

  lemma FindAbsent(s: string, i: nat, c: char)
    requires i <= |s| && c !in s
    ensures FindChar(s, i, c) == |s|
  {
    forall k | 0 <= k < |s| ensures s[k] != c { assert s[k] in s; }
  }

  lemma {:induction false} FindFirst(a: string, b: string, c: char, i: nat)
    requires i <= |a| && c !in a
    ensures FindChar(a + [c] + b, i, c) == |a|
    decreases |a| - i
  {
    var s := a + [c] + b;
    if i < |a| {
      assert s[i] == a[i] && a[i] in a;
      FindFirst(a, b, c, i + 1);
    } else {
      assert s[i] == c;
    }
  }

  /**
   * A closed fence holds exactly the lines up to the next fence, and whoever unescapes its printed content and splits
   * it at line breaks gets those lines back; an empty block alone looks like one with a single empty line.
   */
  lemma FenceKeepsLines(lines: seq<string>, i: nat)
    requires i < |lines| && IsFence(lines[i]) && forall k | 0 <= k < |lines| :: '\n' !in lines[k]
    ensures var j := FenceEnd(lines, i + 1);
            && BlockAt(lines, i).Some? && BlockAt(lines, i).value.0.Fenced?
            && BlockAt(lines, i).value.0.lines == lines[i + 1..j] && (BlockAt(lines, i).value.0.closed <==> j < |lines|)
            && (forall k | i < k < j :: !IsFence(lines[k])) && (j < |lines| ==> IsFence(lines[j]))
            && (var text := JoinWith(lines[i + 1..j], "\n");
                && Unescape(Escape(text)) == Some(text)
                && SplitAt(text, '\n') == if j == i + 1 then [""] else lines[i + 1..j])
  {
    var j := FenceEnd(lines, i + 1);
    FenceEndIs(lines, i + 1);
    UnescapeEscape(JoinWith(lines[i + 1..j], "\n"));
    if j > i + 1 { SplitJoined(lines[i + 1..j]); }
    hide Unescape, Escape, SplitAt, JoinWith, IsFence;
  }

  lemma {:induction false} FenceEndIs(lines: seq<string>, i: nat)
    requires i <= |lines|
    ensures var j := FenceEnd(lines, i);
            (forall k | i <= k < j :: !IsFence(lines[k])) && (j < |lines| ==> IsFence(lines[j]))
    decreases |lines| - i
  {
    if i < |lines| && !IsFence(lines[i]) { FenceEndIs(lines, i + 1); }
  }
}
