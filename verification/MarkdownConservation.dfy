// Nothing of a source is lost: its lines fall into pieces, in order and without gaps, and a reader of the rendered
// output sees exactly these pieces. The pieces are described on the lines alone.
module MarkdownConservation {
  import opened Common
  import opened Text
  import opened TextPatterns
  import opened Html
  import opened HtmlReading
  import opened HtmlNesting
  import opened MarkdownSyntax
  import opened MarkdownPatterns
  import opened Markdown
  import opened MarkdownOutput
  import opened MarkdownReader
  import opened MarkdownReading

  /** A stretch of lines: a blank line, the text of a paragraph, or a construct with its texts. */
  datatype Piece =
    | Gap
    | Para(text: string)
    | Head(level: nat, text: string)
    | List(items: seq<string>)
    | Grid(head: seq<string>, rows: seq<seq<string>>)
    | Pre(language: string, text: string, closed: bool)

  // ---- Lines ----

  predicate FenceLine(line: string) { |line| >= 3 && line[0] == '`' && line[1] == '`' && line[2] == '`' }

  ghost predicate DividerLine(line: string) { exists cells, before, after :: DividerCut(line, cells, before, after) }

  ghost predicate HeadingLine(line: string) { exists n: nat, m: nat :: HeadingCut(line, n, m) }

  ghost predicate ItemLine(line: string) { exists n: nat, m: nat :: ItemCut(line, n, m) }

  predicate RowLine(line: string) { Worded(line) && exists k | 0 <= k < |line| :: line[k] == '|' }

  ghost predicate TableStart(lines: seq<string>, i: nat) { i + 1 < |lines| && DividerLine(lines[i + 1]) }

  ghost predicate StartsNothing(lines: seq<string>, i: nat)
    requires i < |lines|
  {
    !FenceLine(lines[i]) && !TableStart(lines, i) && !HeadingLine(lines[i]) && !ItemLine(lines[i])
  }

  ghost predicate TextLine(lines: seq<string>, i: nat)
    requires i < |lines|
  {
    StartsNothing(lines, i) && Worded(lines[i])
  }

  // ---- Pieces ----

  function Stripped(lines: seq<string>, i: nat, j: nat): seq<string>
    requires i <= j <= |lines|
  {
    seq(j - i, k requires 0 <= k < j - i => Strip(lines[i + k]))
  }

  /** A maximal run of lines with words that start nothing; its text is theirs, stripped, with single spaces between. */
  ghost predicate ReadsPara(lines: seq<string>, i: nat, j: nat, text: string)
    requires i <= j <= |lines|
  {
    && i < j && (forall k | i <= k < j :: TextLine(lines, k)) && (j < |lines| ==> !TextLine(lines, j))
    && text == JoinWith(Stripped(lines, i, j), " ")
  }

  ghost predicate ReadsHead(lines: seq<string>, i: nat, j: nat, level: nat, text: string)
    requires i <= j <= |lines|
  {
    && j == i + 1 && !FenceLine(lines[i]) && !TableStart(lines, i)
    && exists m: nat :: HeadingCut(lines[i], level, m) && text == Strip(lines[i][m..])
  }

  ghost predicate ItemIs(line: string, text: string) {
    exists n: nat, m: nat :: ItemCut(line, n, m) && text == Strip(line[m..])
  }

  ghost predicate ReadsList(lines: seq<string>, i: nat, j: nat, items: seq<string>)
    requires i <= j <= |lines|
  {
    && i < j && !FenceLine(lines[i]) && !TableStart(lines, i) && !HeadingLine(lines[i])
    && |items| == j - i && (forall k | 0 <= k < |items| :: ItemIs(lines[i + k], items[k]))
    && (j < |lines| ==> !ItemLine(lines[j]))
  }

  ghost predicate ReadsGrid(lines: seq<string>, i: nat, j: nat, head: seq<string>, rows: seq<seq<string>>)
    requires i <= j <= |lines|
  {
    && i + 2 <= j && !FenceLine(lines[i]) && TableStart(lines, i)
    && (forall k | i + 2 <= k < j :: RowLine(lines[k])) && (j < |lines| ==> !RowLine(lines[j]))
    && CellsOf(lines[i], head)
    && |rows| == j - i - 2 && forall k | 0 <= k < |rows| :: CellsOf(lines[i + 2 + k], rows[k])
  }

  /** A fence, the lines up to the next one, and that one, if there is one. */
  ghost predicate ReadsPre(lines: seq<string>, i: nat, j: nat, language: string, text: string, closed: bool)
    requires i <= j <= |lines|
  {
    && i < j && FenceLine(lines[i]) && language == Strip(lines[i][3..])
    && var e := if closed then j - 1 else j;
       && i < e && (forall k | i < k < e :: !FenceLine(lines[k]))
       && (if closed then FenceLine(lines[e]) else j == |lines|)
       && text == JoinWith(lines[i + 1..e], "\n")
  }

  ghost predicate Reads(lines: seq<string>, i: nat, j: nat, p: Piece)
    requires i <= j <= |lines|
  {
    match p
    case Gap => j == i + 1 && StartsNothing(lines, i) && !Worded(lines[i])
    case Para(text) => ReadsPara(lines, i, j, text)
    case Head(level, text) => ReadsHead(lines, i, j, level, text)
    case List(items) => ReadsList(lines, i, j, items)
    case Grid(head, rows) => ReadsGrid(lines, i, j, head, rows)
    case Pre(language, text, closed) => ReadsPre(lines, i, j, language, text, closed)
  }

  /** The pieces stand one after the other, from line `from` to the end: every line belongs to exactly one. */
  ghost predicate Divides(lines: seq<string>, from: nat, cuts: seq<nat>, pieces: seq<Piece>) {
    && |cuts| == |pieces| + 1 && cuts[0] == from && cuts[|pieces|] == |lines|
    && forall k | 0 <= k < |pieces| :: Stands(lines, cuts, pieces, k)
  }

  ghost predicate Stands(lines: seq<string>, cuts: seq<nat>, pieces: seq<Piece>, k: nat) {
    && k < |pieces| < |cuts| && cuts[k] <= cuts[k + 1] <= |lines|
    && Reads(lines, cuts[k], cuts[k + 1], pieces[k])
  }

  // ---- The blocks are the pieces ----

  /** What the block of a piece is; gaps leave none. */
  ghost predicate Makes(p: Piece, b: Block) {
    match p
    case Gap => false
    case Para(text) => b == Paragraph(text)
    case Head(level, text) => b == Heading(level, text)
    case List(items) => b == Items(items)
    case Grid(head, rows) => b == Table(head, rows)
    case Pre(language, text, closed) =>
      b.Fenced? && b.language == language && JoinWith(b.lines, "\n") == text && b.closed == closed
  }

  function Solid(pieces: seq<Piece>): seq<Piece> {
    if pieces == [] then [] else (if pieces[0].Gap? then [] else [pieces[0]]) + Solid(pieces[1..])
  }

  ghost predicate MakeAll(pieces: seq<Piece>, blocks: seq<Block>) {
    |Solid(pieces)| == |blocks| && forall k | 0 <= k < |blocks| :: Makes(Solid(pieces)[k], blocks[k])
  }

  lemma FenceIs(line: string)
    ensures IsFence(line) <==> FenceLine(line)
  {
    if FenceLine(line) { assert line[..3] == "```"; }
  }

  lemma RowIs(line: string)
    ensures IsRow(line) <==> RowLine(line)
  {
    BlankIs(line);
    hide Blank, Worded;
  }

  /** What kind of line each is does not depend on how it is scanned. */
  lemma KindsAre(line: string)
    ensures IsFence(line) <==> FenceLine(line)
    ensures IsDivider(line) <==> DividerLine(line)
    ensures IsHeadingLine(line) <==> HeadingLine(line)
    ensures IsItem(line) <==> ItemLine(line)
    ensures Blank(line) <==> !Worded(line)
    ensures IsRow(line) <==> RowLine(line)
  {
    FenceIs(line);
    DividerPattern(line);
    HeadingPattern(line);
    ItemPattern(line);
    BlankIs(line);
    RowIs(line);
    hide IsFence, IsDivider, IsHeadingLine, IsItem, Blank, IsRow, HeadingCut, ItemCut, DividerCut;
  }

  /** The construct that starts at a line, if one does, reads as the block found there. */
  lemma ConstructRead(lines: seq<string>, i: nat) returns (p: Piece)
    requires i < |lines| && BlockAt(lines, i).Some?
    ensures var (b, j) := BlockAt(lines, i).value; Reads(lines, i, j, p) && Makes(p, b)
  {
    KindsAre(lines[i]);
    if i + 1 < |lines| { KindsAre(lines[i + 1]); }
    hide IsDivider, IsHeadingLine, IsItem, IsRow, FenceLine, DividerLine, HeadingLine, ItemLine, RowLine;
    if IsFence(lines[i]) {
      p := FenceRead(lines, i);
    } else if TableStart(lines, i) {
      p := GridRead(lines, i);
    } else if IsHeadingLine(lines[i]) {
      p := HeadRead(lines, i);
    } else {
      p := ListRead(lines, i);
    }
    hide Reads, Makes;
  }

  lemma FenceRead(lines: seq<string>, i: nat) returns (p: Piece)
    requires i < |lines| && IsFence(lines[i])
    ensures BlockAt(lines, i).Some?
    ensures var (b, j) := BlockAt(lines, i).value; Reads(lines, i, j, p) && Makes(p, b)
  {
    var e := FenceEnd(lines, i + 1);
    FenceEndIs(lines, i + 1);
    forall k | 0 <= k < |lines| ensures IsFence(lines[k]) <==> FenceLine(lines[k]) { FenceIs(lines[k]); }
    p := Pre(Strip(lines[i][3..]), JoinWith(lines[i + 1..e], "\n"), e < |lines|);
    hide IsFence, FenceLine, JoinWith, Strip;
  }

  lemma HeadRead(lines: seq<string>, i: nat) returns (p: Piece)
    requires i < |lines| && !FenceLine(lines[i]) && !TableStart(lines, i) && IsHeadingLine(lines[i])
    ensures BlockAt(lines, i).Some?
    ensures var (b, j) := BlockAt(lines, i).value; Reads(lines, i, j, p) && Makes(p, b)
  {
    FenceIs(lines[i]);
    if i + 1 < |lines| { DividerPattern(lines[i + 1]); }
    HeadingPattern(lines[i]);
    var n: nat, m: nat :| HeadingCut(lines[i], n, m);
    p := Head(n, Strip(lines[i][m..]));
    hide IsFence, IsDivider, IsHeadingLine, HeadingCut, FenceLine, Strip, DividerCut;
    assert Reads(lines, i, i + 1, p);
  }

  lemma {:induction false} RowsEndIs(lines: seq<string>, i: nat)
    requires i <= |lines|
    ensures var j := RowsEnd(lines, i);
            (forall k | i <= k < j :: RowLine(lines[k])) && (j < |lines| ==> !RowLine(lines[j]))
    decreases |lines| - i
  {
    if i < |lines| {
      RowIs(lines[i]);
      if IsRow(lines[i]) { RowsEndIs(lines, i + 1); }
    }
    hide IsRow, RowLine;
  }

  lemma GridRead(lines: seq<string>, i: nat) returns (p: Piece)
    requires i < |lines| && !IsFence(lines[i]) && TableStart(lines, i)
    ensures BlockAt(lines, i).Some?
    ensures var (b, j) := BlockAt(lines, i).value; Reads(lines, i, j, p) && Makes(p, b)
  {
    hide IsFence, FenceLine, IsDivider, DividerCut, Cells, CellsOf, RowLine, RowsEnd;
    FenceIs(lines[i]);
    DividerPattern(lines[i + 1]);
    RowsEndIs(lines, i + 2);
    CellsPattern(lines[i]);
    var j := RowsEnd(lines, i + 2);
    var rows := RowsOf(lines, i + 2, j);
    forall k | 0 <= k < |rows| ensures CellsOf(lines[i + 2 + k], rows[k]) { CellsPattern(lines[i + 2 + k]); }
    p := Grid(Cells(lines[i]), rows);
  }

  lemma {:induction false} ItemsEndIs(lines: seq<string>, i: nat)
    requires i <= |lines|
    ensures var j := ItemsEnd(lines, i); j < |lines| ==> !ItemLine(lines[j])
    decreases |lines| - i
  {
    if i < |lines| {
      ItemPattern(lines[i]);
      if IsItem(lines[i]) { ItemsEndIs(lines, i + 1); }
    }
    hide IsItem, ItemCut;
  }

  lemma ItemRead(line: string)
    requires IsItem(line)
    ensures ItemIs(line, ItemText(line))
  {
    ItemPattern(line);
    var n: nat, m: nat :| ItemCut(line, n, m);
    hide IsItem, ItemCut, ItemText, Strip;
    assert ItemText(line) == Strip(line[m..]);
  }

  lemma ListRead(lines: seq<string>, i: nat) returns (p: Piece)
    requires i < |lines| && BlockAt(lines, i).Some? && !IsFence(lines[i]) && !TableStart(lines, i)
    requires !IsHeadingLine(lines[i])
    ensures var (b, j) := BlockAt(lines, i).value; Reads(lines, i, j, p) && Makes(p, b)
  {
    hide IsFence, FenceLine, IsDivider, DividerCut, IsHeadingLine, HeadingCut, IsItem, ItemIs, ItemText;
    FenceIs(lines[i]);
    if i + 1 < |lines| { DividerPattern(lines[i + 1]); }
    HeadingPattern(lines[i]);
    ItemsEndIs(lines, i);
    var j := ItemsEnd(lines, i);
    assert IsItem(lines[i]);
    var items := ItemsOf(lines, i, j);
    forall k | 0 <= k < |items| ensures ItemIs(lines[i + k], items[k]) { ItemRead(lines[i + k]); }
    p := List(items);
  }

  lemma NoConstruct(lines: seq<string>, i: nat)
    requires i < |lines|
    ensures BlockAt(lines, i).None? <==> StartsNothing(lines, i)
    ensures Blank(lines[i]) <==> !Worded(lines[i])
  {
    KindsAre(lines[i]);
    if i + 1 < |lines| { KindsAre(lines[i + 1]); }
    hide IsFence, IsDivider, IsHeadingLine, IsItem, IsRow, Blank, FenceLine, DividerLine, HeadingLine, ItemLine, Worded;
  }

  // ---- The division ----

  lemma PrependPiece(lines: seq<string>, i: nat, j: nat, p: Piece, cuts: seq<nat>, pieces: seq<Piece>,
                     blocks: seq<Block>,
                     own: seq<Block>)
    requires i <= j <= |lines| && Reads(lines, i, j, p) && Divides(lines, j, cuts, pieces) && MakeAll(pieces, blocks)
    requires if p.Gap? then own == [] else |own| == 1 && Makes(p, own[0])
    ensures Divides(lines, i, [i] + cuts, [p] + pieces) && MakeAll([p] + pieces, own + blocks)
  {
    hide Reads, Makes;
    var all, next := [p] + pieces, [i] + cuts;
    assert all[1..] == pieces;
    assert Solid(all) == (if p.Gap? then [] else [p]) + Solid(pieces);
    forall k | 0 <= k < |all| ensures Stands(lines, next, all, k) {
      if k > 0 { assert Stands(lines, cuts, pieces, k - 1); }
    }
    hide Solid;
    forall k | 0 <= k < |own + blocks| ensures Makes(Solid(all)[k], (own + blocks)[k]) {
      if k >= |own| { assert Makes(Solid(pieces)[k - |own|], blocks[k - |own|]); }
    }
  }

  /** Lines `p` to `i` are those of a paragraph under way. */
  ghost predicate UnderWay(lines: seq<string>, p: nat, i: nat, paragraph: seq<string>) {
    p <= i <= |lines| && (forall k | p <= k < i :: TextLine(lines, k)) && paragraph == Stripped(lines, p, i)
  }

  /** The paragraph that ends here, if one is under way, is a piece of its own. */
  lemma FlushedRead(lines: seq<string>, p: nat, i: nat, paragraph: seq<string>, cuts: seq<nat>, pieces: seq<Piece>,
                    blocks: seq<Block>) returns (cuts': seq<nat>, pieces': seq<Piece>)
    requires UnderWay(lines, p, i, paragraph) && (i < |lines| ==> !TextLine(lines, i))
    requires Divides(lines, i, cuts, pieces) && MakeAll(pieces, blocks)
    ensures Divides(lines, p, cuts', pieces') && MakeAll(pieces', Flushed(paragraph) + blocks)
  {
    hide TextLine, JoinWith, Strip, MakeAll, Divides;
    if p == i {
      cuts', pieces' := cuts, pieces;
      assert Flushed(paragraph) + blocks == blocks;
    } else {
      var text := JoinWith(paragraph, " ");
      assert Reads(lines, p, i, Para(text));
      assert Flushed(paragraph) == [Paragraph(text)];
      PrependPiece(lines, p, i, Para(text), cuts, pieces, blocks, [Paragraph(text)]);
      cuts', pieces' := [p] + cuts, [Para(text)] + pieces;
    }
  }

  /** A construct ends the paragraph under way and is a piece itself. */
  lemma ConstructCase(lines: seq<string>, p: nat, i: nat, paragraph: seq<string>, c: seq<nat>, q: seq<Piece>)
    returns (cuts: seq<nat>, pieces: seq<Piece>)
    requires UnderWay(lines, p, i, paragraph) && i < |lines| && BlockAt(lines, i).Some?
    requires var j := BlockAt(lines, i).value.1; Divides(lines, j, c, q) && MakeAll(q, BlocksFrom(lines, j, []))
    ensures Divides(lines, p, cuts, pieces) && MakeAll(pieces, BlocksFrom(lines, i, paragraph))
  {
    NoConstruct(lines, i);
    hide BlockAt, Reads, Makes, StartsNothing, Worded, Blank, Strip, Flushed, Divides, MakeAll;
    var (b, j) := BlockAt(lines, i).value;
    var rest := BlocksFrom(lines, j, []);
    assert BlocksFrom(lines, i, paragraph) == Flushed(paragraph) + [b] + rest;
    hide BlocksFrom;
    var own := ConstructRead(lines, i);
    NoGap(own, b);
    PrependPiece(lines, i, j, own, c, q, rest, [b]);
    cuts, pieces := FlushedRead(lines, p, i, paragraph, [i] + c, [own] + q, [b] + rest);
    Regrouped(Flushed(paragraph), [b], rest);
  }

  /** So does a blank line. */
  lemma GapCase(lines: seq<string>, p: nat, i: nat, paragraph: seq<string>, c: seq<nat>, q: seq<Piece>)
    returns (cuts: seq<nat>, pieces: seq<Piece>)
    requires UnderWay(lines, p, i, paragraph) && i < |lines| && BlockAt(lines, i).None? && Blank(lines[i])
    requires Divides(lines, i + 1, c, q) && MakeAll(q, BlocksFrom(lines, i + 1, []))
    ensures Divides(lines, p, cuts, pieces) && MakeAll(pieces, BlocksFrom(lines, i, paragraph))
  {
    NoConstruct(lines, i);
    hide BlockAt, Reads, Makes, StartsNothing, Worded, Blank, Strip, Flushed, Divides, MakeAll;
    var rest := BlocksFrom(lines, i + 1, []);
    assert BlocksFrom(lines, i, paragraph) == Flushed(paragraph) + rest;
    hide BlocksFrom;
    GapRead(lines, i);
    PrependPiece(lines, i, i + 1, Gap, c, q, rest, []);
    assert [] + rest == rest;
    cuts, pieces := FlushedRead(lines, p, i, paragraph, [i] + c, [Gap] + q, rest);
  }

  lemma EndCase(lines: seq<string>, p: nat, paragraph: seq<string>) returns (cuts: seq<nat>, pieces: seq<Piece>)
    requires UnderWay(lines, p, |lines|, paragraph)
    ensures Divides(lines, p, cuts, pieces) && MakeAll(pieces, BlocksFrom(lines, |lines|, paragraph))
  {
    assert Divides(lines, |lines|, [|lines|], []) && MakeAll([], []);
    hide Divides, MakeAll;
    cuts, pieces := FlushedRead(lines, p, |lines|, paragraph, [|lines|], [], []);
    assert Flushed(paragraph) + [] == Flushed(paragraph);
  }

  /** A line of text goes on with the paragraph. */
  lemma TextCase(lines: seq<string>, p: nat, i: nat, paragraph: seq<string>)
    requires UnderWay(lines, p, i, paragraph) && i < |lines| && BlockAt(lines, i).None? && !Blank(lines[i])
    ensures UnderWay(lines, p, i + 1, paragraph + [Strip(lines[i])])
    ensures BlocksFrom(lines, i, paragraph) == BlocksFrom(lines, i + 1, paragraph + [Strip(lines[i])])
  {
    NoConstruct(lines, i);
    hide BlockAt, StartsNothing, Worded, Blank, Strip;
    assert Stripped(lines, p, i + 1) == paragraph + [Strip(lines[i])];
  }

  /** The blocks from a line on are the pieces the lines divide into. */
  lemma {:induction false} BlocksRead(lines: seq<string>, p: nat, i: nat, paragraph: seq<string>)
    returns (cuts: seq<nat>, pieces: seq<Piece>)
    requires UnderWay(lines, p, i, paragraph)
    ensures Divides(lines, p, cuts, pieces) && MakeAll(pieces, BlocksFrom(lines, i, paragraph))
    decreases |lines| - i
  {
    hide BlockAt, Blank, Divides, MakeAll, TextLine, BlocksFrom, Strip;
    if i == |lines| {
      cuts, pieces := EndCase(lines, p, paragraph);
    } else if BlockAt(lines, i).Some? {
      var j := BlockAt(lines, i).value.1;
      var c, q := BlocksRead(lines, j, j, []);
      cuts, pieces := ConstructCase(lines, p, i, paragraph, c, q);
    } else if Blank(lines[i]) {
      var c, q := BlocksRead(lines, i + 1, i + 1, []);
      cuts, pieces := GapCase(lines, p, i, paragraph, c, q);
    } else {
      TextCase(lines, p, i, paragraph);
      cuts, pieces := BlocksRead(lines, p, i + 1, paragraph + [Strip(lines[i])]);
    }
  }

  lemma NoGap(p: Piece, b: Block)
    requires Makes(p, b)
    ensures !p.Gap?
  {}

  lemma GapRead(lines: seq<string>, i: nat)
    requires i < |lines| && StartsNothing(lines, i) && !Worded(lines[i])
    ensures Reads(lines, i, i + 1, Gap)
  {}

  lemma Regrouped(a: seq<Block>, b: seq<Block>, c: seq<Block>)
    ensures a + b + c == a + (b + c)
  {}

  // ---- The lines divide in one way ----

  lemma PreUnique(lines: seq<string>, i: nat, j: nat, p: Piece, k: nat, q: Piece)
    requires p.Pre? && q.Pre? && i <= j <= |lines| && i <= k <= |lines| && Reads(lines, i, j, p)
             && Reads(lines, i, k, q)
    ensures j == k && p == q
  {
    var e := if p.closed then j - 1 else j;
    var f := if q.closed then k - 1 else k;
    assert i < e <= |lines| && i < f <= |lines|;
    assert e < |lines| ==> FenceLine(lines[e]);
    assert f < |lines| ==> FenceLine(lines[f]);
    assert e == f;
    hide FenceLine, Strip, JoinWith;
  }

  lemma HeadUnique(lines: seq<string>, i: nat, j: nat, p: Piece, k: nat, q: Piece)
    requires p.Head? && q.Head? && i <= j <= |lines| && i <= k <= |lines| && Reads(lines, i, j, p)
             && Reads(lines, i, k, q)
    ensures j == k && p == q
  {
    HeadingPattern(lines[i]);
    hide HeadingCut, Strip;
  }

  lemma ListUnique(lines: seq<string>, i: nat, j: nat, p: Piece, k: nat, q: Piece)
    requires p.List? && q.List? && i <= j <= |lines| && i <= k <= |lines| && Reads(lines, i, j, p)
             && Reads(lines, i, k, q)
    ensures j == k && p == q
  {
    forall n | i <= n < j ensures ItemIs(lines[n], p.items[n - i]) { assert lines[n] == lines[i + (n - i)]; }
    forall n | i <= n < k ensures ItemIs(lines[n], q.items[n - i]) { assert lines[n] == lines[i + (n - i)]; }
    assert j == k;
    forall n | 0 <= n < j - i ensures p.items[n] == q.items[n] {
      assert ItemIs(lines[i + n], p.items[n]) && ItemIs(lines[i + n], q.items[n]);
      ItemPattern(lines[i + n]);
    }
    hide ItemCut, Strip;
  }

  lemma GridUnique(lines: seq<string>, i: nat, j: nat, p: Piece, k: nat, q: Piece)
    requires p.Grid? && q.Grid? && i <= j <= |lines| && i <= k <= |lines| && Reads(lines, i, j, p)
             && Reads(lines, i, k, q)
    ensures j == k && p == q
  {
    assert j == k;
    CellsUnique(lines[i], p.head, q.head);
    forall n | 0 <= n < j - i - 2 ensures p.rows[n] == q.rows[n] {
      assert CellsOf(lines[i + 2 + n], p.rows[n]) && CellsOf(lines[i + 2 + n], q.rows[n]);
      CellsUnique(lines[i + 2 + n], p.rows[n], q.rows[n]);
    }
    hide CellsOf, RowLine, TableStart;
  }

  lemma ParaUnique(lines: seq<string>, i: nat, j: nat, p: Piece, k: nat, q: Piece)
    requires p.Para? && q.Para? && i <= j <= |lines| && i <= k <= |lines| && Reads(lines, i, j, p)
             && Reads(lines, i, k, q)
    ensures j == k && p == q
  {
    assert j == k;
    hide TextLine, JoinWith;
  }

  /** A line starts one kind of piece, of one length and with one text. */
  lemma ReadsUnique(lines: seq<string>, i: nat, j: nat, p: Piece, k: nat, q: Piece)
    requires i <= j <= |lines| && i <= k <= |lines| && Reads(lines, i, j, p) && Reads(lines, i, k, q)
    ensures i < j && j == k && p == q
  {
    KindOf(lines, i, j, p);
    KindOf(lines, i, k, q);
    hide Reads, FenceLine, TableStart, HeadingLine, ItemLine, Worded;
    match p {
      case Gap =>
      case Para(_) => ParaUnique(lines, i, j, p, k, q);
      case Head(_, _) => HeadUnique(lines, i, j, p, k, q);
      case List(_) => ListUnique(lines, i, j, p, k, q);
      case Grid(_, _) => GridUnique(lines, i, j, p, k, q);
      case Pre(_, _, _) => PreUnique(lines, i, j, p, k, q);
    }
  }

  /** The kind of a piece is told by its first line and the one after it. */
  lemma KindOf(lines: seq<string>, i: nat, j: nat, p: Piece)
    requires i <= j <= |lines| && Reads(lines, i, j, p)
    ensures i < j && (p.Gap? ==> j == i + 1)
    ensures p.Pre? <==> FenceLine(lines[i])
    ensures p.Grid? <==> !FenceLine(lines[i]) && TableStart(lines, i)
    ensures p.Head? <==> !FenceLine(lines[i]) && !TableStart(lines, i) && HeadingLine(lines[i])
    ensures p.List? <==> !FenceLine(lines[i]) && !TableStart(lines, i) && !HeadingLine(lines[i]) && ItemLine(lines[i])
    ensures p.Para? <==> StartsNothing(lines, i) && Worded(lines[i])
  {
    if p.List? { assert ItemIs(lines[i + 0], p.items[0]); }
    if p.Para? { assert TextLine(lines, i); }
    if p.Head? {
      var m: nat :| HeadingCut(lines[i], p.level, m);
      assert HeadingLine(lines[i]);
    }
    hide HeadingCut, ItemCut, DividerLine, FenceLine, Worded, Strip, JoinWith, CellsOf, RowLine;
  }

  /** So a source divides into pieces in one way only, and what its output must show is settled by its lines. */
  lemma {:induction false} DivisionUnique(lines: seq<string>, from: nat, cuts: seq<nat>, pieces: seq<Piece>,
                                          others: seq<nat>,
                                          different: seq<Piece>)
    requires Divides(lines, from, cuts, pieces) && Divides(lines, from, others, different)
    ensures cuts == others && pieces == different
    decreases |pieces|
  {
    hide Reads;
    if pieces != [] && different != [] {
      assert Stands(lines, cuts, pieces, 0) && Stands(lines, others, different, 0);
      ReadsUnique(lines, from, cuts[1], pieces[0], others[1], different[0]);
      DividesRest(lines, from, cuts, pieces);
      DividesRest(lines, from, others, different);
      DivisionUnique(lines, cuts[1], cuts[1..], pieces[1..], others[1..], different[1..]);
    } else if pieces != [] {
      assert Stands(lines, cuts, pieces, 0);
      ReadsUnique(lines, from, cuts[1], pieces[0], cuts[1], pieces[0]);
    } else if different != [] {
      assert Stands(lines, others, different, 0);
      ReadsUnique(lines, from, others[1], different[0], others[1], different[0]);
    }
  }

  lemma DividesRest(lines: seq<string>, from: nat, cuts: seq<nat>, pieces: seq<Piece>)
    requires Divides(lines, from, cuts, pieces) && pieces != []
    ensures Divides(lines, cuts[1], cuts[1..], pieces[1..])
  {
    hide Reads;
    forall k | 0 <= k < |pieces| - 1 ensures Stands(lines, cuts[1..], pieces[1..], k) {
      assert Stands(lines, cuts, pieces, k + 1);
    }
  }

  // ---- What is sound, and what is shown ----

  predicate SoundToken(x: Inline, urlOk: string -> bool) {
    match x
    case Plain(_) => true
    case Code(_) => true
    case Link(_, url) => urlOk(url)
    case Image(alt, url) => Worded(alt) && urlOk(url)
  }

  /** The text, taken apart at its leftmost tokens, links to acceptable addresses and describes its images. */
  ghost predicate SoundText(text: string, urlOk: string -> bool) {
    exists xs :: Leftmost(text, 0, xs) && forall k | 0 <= k < |xs| :: SoundToken(xs[k], urlOk)
  }

  predicate LanguageWord(s: string) {
    s != "" && forall k | 0 <= k < |s| ::
      'A' <= s[k] <= 'Z' || 'a' <= s[k] <= 'z' || '0' <= s[k] <= '9' || s[k] == '_' || s[k] == '+' || s[k] == '-'
  }

  ghost predicate SoundEach(texts: seq<string>, urlOk: string -> bool) {
    forall k | 0 <= k < |texts| :: SoundText(texts[k], urlOk)
  }

  ghost predicate Sound(p: Piece, urlOk: string -> bool) {
    match p
    case Gap => true
    case Para(text) => SoundText(text, urlOk)
    case Head(_, text) => SoundText(text, urlOk)
    case List(items) => SoundEach(items, urlOk)
    case Grid(head, rows) => SoundEach(head, urlOk) && forall k | 0 <= k < |rows| :: SoundEach(rows[k], urlOk)
    case Pre(language, _, closed) => closed && (language == "" || LanguageWord(language))
  }

  /** The first piece that is not sound. */
  ghost predicate FirstUnsound(pieces: seq<Piece>, urlOk: string -> bool, p: Piece) {
    exists k | 0 <= k < |pieces| ::
      pieces[k] == p && !Sound(p, urlOk) && forall j | 0 <= j < k :: Sound(pieces[j], urlOk)
  }

  predicate ShownAs(x: Inline, y: Inline) {
    if x.Image? then y.Image? && y.url == x.url && y.alt == Strip(x.alt) else y == x
  }

  /** What is seen is the text, taken apart at its leftmost tokens. */
  ghost predicate ShowsText(prose: seq<Inline>, text: string) {
    exists xs :: Leftmost(text, 0, xs) && |prose| == |xs| && forall k | 0 <= k < |xs| :: ShownAs(xs[k], prose[k])
  }

  ghost predicate ShowsEach(seen: seq<seq<Inline>>, texts: seq<string>) {
    |seen| == |texts| && forall k | 0 <= k < |seen| :: ShowsText(seen[k], texts[k])
  }

  ghost predicate Shows(seen: Seen, p: Piece) {
    match p
    case Gap => false
    case Para(text) => seen.SeenParagraph? && ShowsText(seen.prose, text)
    case Head(level, text) => seen.SeenHeading? && seen.level == level && ShowsText(seen.prose, text)
    case List(items) => seen.SeenItems? && ShowsEach(seen.items, items)
    case Grid(head, rows) =>
      && seen.SeenTable? && ShowsEach(seen.head, head)
      && |seen.rows| == |rows| && forall k | 0 <= k < |rows| :: ShowsEach(seen.rows[k], rows[k])
    case Pre(language, text, _) => seen == SeenCode(language, text)
  }

  /** A reader of the output sees the pieces that are not blank, in order. */
  ghost predicate ShowsAll(html: string, pieces: seq<Piece>) {
    match Read(html)
    case None => false
    case Some(es) =>
      match SeeAll(es)
      case None => false
      case Some(seen) =>
        |seen| == |Solid(pieces)| && forall k | 0 <= k < |seen| :: Shows(seen[k], Solid(pieces)[k])
  }

  // ---- Tokens are found only one way ----

  lemma {:induction false} LeftmostUnique(s: string, from: nat, xs: seq<Inline>, ys: seq<Inline>)
    requires from <= |s| && Leftmost(s, from, xs) && Leftmost(s, from, ys)
    ensures xs == ys
    decreases |xs|
  {
    hide TokenAt;
    SameStretch(s, from, xs, ys);
    var i := from + |xs[0].text|;
    if i < |s| {
      var next := TokenAt(s, i).value.1;
      LeftmostUnique(s, next, xs[2..], ys[2..]);
      SameFrom(xs, ys);
    }
  }

  lemma SameFrom(xs: seq<Inline>, ys: seq<Inline>)
    requires |xs| >= 2 && |ys| >= 2 && xs[0] == ys[0] && xs[1] == ys[1] && xs[2..] == ys[2..]
    ensures xs == ys
  {
    assert xs == [xs[0], xs[1]] + xs[2..];
    assert ys == [ys[0], ys[1]] + ys[2..];
  }

  lemma SameStretch(s: string, from: nat, xs: seq<Inline>, ys: seq<Inline>)
    requires from <= |s| && Leftmost(s, from, xs) && Leftmost(s, from, ys)
    ensures xs[0] == ys[0] && (|xs| == 1 <==> |ys| == 1)
    ensures |xs| > 1 ==> xs[1] == ys[1]
    ensures |xs| == 1 <==> from + |xs[0].text| == |s|
  {
    hide TokenAt;
    NotEarlier(s, from, xs, ys);
    NotEarlier(s, from, ys, xs);
  }

  lemma NotEarlier(s: string, from: nat, xs: seq<Inline>, ys: seq<Inline>)
    requires from <= |s| && Leftmost(s, from, xs) && Leftmost(s, from, ys)
    ensures |xs[0].text| >= |ys[0].text|
  {
    hide TokenAt;
  }

  lemma InlinesLeftmost(text: string)
    ensures Leftmost(text, 0, Inlines(text))
  {
    SpansLeftmost(text, 0, 0);
  }

  lemma TextShown(text: string)
    ensures ShowsText(ShownAll(Inlines(text)), text)
  {
    InlinesLeftmost(text);
    var xs := Inlines(text);
    hide Leftmost, Inlines, Strip;
    assert forall k | 0 <= k < |xs| :: ShownAs(xs[k], ShownAll(xs)[k]);
  }

  lemma EachShown(texts: seq<string>)
    ensures ShowsEach(ShownEach(texts), texts)
  {
    forall k | 0 <= k < |texts| ensures ShowsText(ShownEach(texts)[k], texts[k]) { TextShown(texts[k]); }
  }

  lemma BlockShown(p: Piece, b: Block)
    requires Makes(p, b)
    ensures Shows(ShownBlock(b), p)
  {
    match b
    case Paragraph(text) => TextShown(text);
    case Heading(_, text) => TextShown(text);
    case Items(items) => EachShown(items);
    case Table(head, rows) =>
      EachShown(head);
      forall k | 0 <= k < |rows| ensures ShowsEach(ShownRows(rows)[k], rows[k]) { EachShown(rows[k]); }
    case Fenced(_, _, _) =>
    hide ShowsText, ShownAll, Inlines, JoinWith;
  }

  // ---- What is refused ----

  /** What the renderer complains about is there. */
  ghost predicate Explains(e: RenderError, p: Piece, urlOk: string -> bool) {
    match e
    case MissingFence => p.Pre? && !p.closed && (p.language == "" || LanguageWord(p.language))
    case BadLanguage => p.Pre? && p.language != "" && !LanguageWord(p.language)
    case MissingAlternative => !p.Pre? && exists x :: Holds(p, x) && x.Image? && !Worded(x.alt)
    case UnsafeUrl => !p.Pre? && exists x :: Holds(p, x) && (x.Image? || x.Link?) && !urlOk(x.url)
  }

  /** The token is one of the piece's texts'. */
  ghost predicate Holds(p: Piece, x: Inline) {
    exists text, xs :: text in Texts(p) && Leftmost(text, 0, xs) && x in xs
  }

  ghost function Texts(p: Piece): set<string> {
    match p
    case Gap => {}
    case Para(text) => {text}
    case Head(_, text) => {text}
    case List(items) => set t | t in items
    case Grid(head, rows) => (set t | t in head) + (set r, t | r in rows && t in r :: t)
    case Pre(_, _, _) => {}
  }

  lemma TokenError(x: Inline, urlOk: string -> bool)
    ensures InlineError(x, urlOk).None? <==> SoundToken(x, urlOk)
    ensures InlineError(x, urlOk).Some? ==> ErrorOf(InlineError(x, urlOk).value, x, urlOk)
  {
    if x.Image? { BlankIs(x.alt); }
    hide Blank, Worded;
  }

  predicate ErrorOf(e: RenderError, x: Inline, urlOk: string -> bool) {
    || (e == MissingAlternative && x.Image? && !Worded(x.alt))
    || (e == UnsafeUrl && (x.Image? || x.Link?) && !urlOk(x.url))
  }

  lemma {:induction false} SpanErrorIs(xs: seq<Inline>, urlOk: string -> bool)
    ensures SpanError(xs, urlOk).None? <==> forall k | 0 <= k < |xs| :: SoundToken(xs[k], urlOk)
    ensures SpanError(xs, urlOk).Some? ==> exists x :: x in xs && ErrorOf(SpanError(xs, urlOk).value, x, urlOk)
  {
    hide InlineError, SoundToken, ErrorOf;
    if xs != [] {
      TokenError(xs[0], urlOk);
      SpanErrorIs(xs[1..], urlOk);
      assert forall k | 1 <= k < |xs| :: xs[k] == xs[1..][k - 1];
      assert forall x | x in xs[1..] :: x in xs;
    }
  }

  lemma ProseErrorIs(text: string, urlOk: string -> bool)
    ensures ProseError(text, urlOk).None? <==> SoundText(text, urlOk)
    ensures ProseError(text, urlOk).Some? ==>
            exists xs, x :: Leftmost(text, 0, xs) && x in xs && ErrorOf(ProseError(text, urlOk).value, x, urlOk)
  {
    InlinesLeftmost(text);
    var xs := Inlines(text);
    SpanErrorIs(xs, urlOk);
    forall ys | Leftmost(text, 0, ys) ensures ys == xs { LeftmostUnique(text, 0, xs, ys); }
    hide SpanError, Leftmost, SoundToken, ErrorOf, Spans;
  }

  lemma {:induction false} EachErrorIs(texts: seq<string>, urlOk: string -> bool)
    ensures EachError(texts, urlOk).None? <==> SoundEach(texts, urlOk)
    ensures EachError(texts, urlOk).Some? ==>
            exists k | 0 <= k < |texts| :: ProseError(texts[k], urlOk) == EachError(texts, urlOk)
  {
    hide ProseError, SoundText;
    if texts != [] {
      ProseErrorIs(texts[0], urlOk);
      EachErrorIs(texts[1..], urlOk);
      assert forall k | 1 <= k < |texts| :: texts[k] == texts[1..][k - 1];
    }
  }

  lemma {:induction false} RowsErrorIs(rows: seq<seq<string>>, urlOk: string -> bool)
    ensures RowsError(rows, urlOk).None? <==> forall k | 0 <= k < |rows| :: SoundEach(rows[k], urlOk)
    ensures RowsError(rows, urlOk).Some? ==>
            exists k | 0 <= k < |rows| :: EachError(rows[k], urlOk) == RowsError(rows, urlOk)
  {
    hide EachError, SoundEach;
    if rows != [] {
      EachErrorIs(rows[0], urlOk);
      RowsErrorIs(rows[1..], urlOk);
      assert forall k | 1 <= k < |rows| :: rows[k] == rows[1..][k - 1];
    }
  }

  lemma TextExplains(p: Piece, text: string, urlOk: string -> bool)
    requires text in Texts(p) && !p.Pre? && ProseError(text, urlOk).Some?
    ensures Explains(ProseError(text, urlOk).value, p, urlOk)
  {
    ProseErrorIs(text, urlOk);
    var e := ProseError(text, urlOk).value;
    hide Leftmost, Texts, ProseError, Worded, SoundText;
    var xs, x :| Leftmost(text, 0, xs) && x in xs && ErrorOf(e, x, urlOk);
    assert Holds(p, x);
  }

  lemma BlockErrorIs(p: Piece, b: Block, urlOk: string -> bool)
    requires Makes(p, b)
    ensures BlockError(b, urlOk).None? <==> Sound(p, urlOk)
    ensures BlockError(b, urlOk).Some? ==> Explains(BlockError(b, urlOk).value, p, urlOk)
  {
    hide ProseError, EachError, RowsError, SoundText, JoinWith, Explains;
    match b
    case Paragraph(text) =>
      ProseErrorIs(text, urlOk);
      if ProseError(text, urlOk).Some? { TextExplains(p, text, urlOk); }
    case Heading(_, text) =>
      ProseErrorIs(text, urlOk);
      if ProseError(text, urlOk).Some? { TextExplains(p, text, urlOk); }
    case Items(items) =>
      EachErrorIs(items, urlOk);
      if EachError(items, urlOk).Some? { EachExplains(p, items, urlOk); }
    case Table(head, rows) => GridErrorIs(p, head, rows, urlOk);
    case Fenced(_, _, _) => PreErrorIs(p, b, urlOk);
  }

  lemma EachExplains(p: Piece, texts: seq<string>, urlOk: string -> bool)
    requires !p.Pre? && EachError(texts, urlOk).Some? && forall t | t in texts :: t in Texts(p)
    ensures Explains(EachError(texts, urlOk).value, p, urlOk)
  {
    EachErrorIs(texts, urlOk);
    hide EachError, ProseError, Texts, Explains, SoundEach;
    var k :| 0 <= k < |texts| && ProseError(texts[k], urlOk) == EachError(texts, urlOk);
    assert texts[k] in texts;
    TextExplains(p, texts[k], urlOk);
  }

  lemma GridErrorIs(p: Piece, head: seq<string>, rows: seq<seq<string>>, urlOk: string -> bool)
    requires p == Grid(head, rows)
    ensures var e := First(EachError(head, urlOk), RowsError(rows, urlOk));
            (e.None? <==> Sound(p, urlOk)) && (e.Some? ==> Explains(e.value, p, urlOk))
  {
    EachErrorIs(head, urlOk);
    RowsErrorIs(rows, urlOk);
    hide EachError, RowsError, Explains, SoundEach, ProseError;
    if EachError(head, urlOk).Some? {
      EachExplains(p, head, urlOk);
    } else if RowsError(rows, urlOk).Some? {
      var k :| 0 <= k < |rows| && EachError(rows[k], urlOk) == RowsError(rows, urlOk);
      forall t | t in rows[k] ensures t in Texts(p) { assert rows[k] in rows; }
      EachExplains(p, rows[k], urlOk);
    }
  }

  lemma PreErrorIs(p: Piece, b: Block, urlOk: string -> bool)
    requires Makes(p, b) && b.Fenced?
    ensures BlockError(b, urlOk).None? <==> Sound(p, urlOk)
    ensures BlockError(b, urlOk).Some? ==> Explains(BlockError(b, urlOk).value, p, urlOk)
  {
    assert LanguageName(b.language) <==> LanguageWord(b.language);
    hide JoinWith;
  }

  lemma {:induction false} DocumentErrorIs(pieces: seq<Piece>, blocks: seq<Block>, urlOk: string -> bool)
    requires MakeAll(pieces, blocks)
    ensures DocumentError(blocks, urlOk).None? <==> forall k | 0 <= k < |pieces| :: Sound(pieces[k], urlOk)
    ensures DocumentError(blocks, urlOk).Some? ==>
            exists p :: FirstUnsound(pieces, urlOk, p) && Explains(DocumentError(blocks, urlOk).value, p, urlOk)
    decreases |pieces|
  {
    hide BlockError, Sound, Makes, Explains;
    if pieces != [] {
      var p, rest := pieces[0], pieces[1..];
      var more := if p.Gap? then blocks else blocks[1..];
      RestMade(pieces, blocks);
      DocumentErrorIs(rest, more, urlOk);
      if p.Gap? { GapSound(urlOk); } else { BlockErrorIs(p, blocks[0], urlOk); }
      assert forall k | 1 <= k < |pieces| :: pieces[k] == rest[k - 1];
      if Sound(p, urlOk) {
        if DocumentError(more, urlOk).Some? {
          var q :| FirstUnsound(rest, urlOk, q) && Explains(DocumentError(more, urlOk).value, q, urlOk);
          LaterUnsound(pieces, urlOk, q);
        }
      } else {
        assert FirstUnsound(pieces, urlOk, p);
      }
    }
  }

  lemma GapSound(urlOk: string -> bool)
    ensures Sound(Gap, urlOk)
  {}

  lemma LaterUnsound(pieces: seq<Piece>, urlOk: string -> bool, q: Piece)
    requires pieces != [] && Sound(pieces[0], urlOk) && FirstUnsound(pieces[1..], urlOk, q)
    ensures FirstUnsound(pieces, urlOk, q)
  {
    hide Sound;
    var rest := pieces[1..];
    var k :| 0 <= k < |rest| && rest[k] == q && !Sound(q, urlOk) && forall j | 0 <= j < k :: Sound(rest[j], urlOk);
    assert pieces[k + 1] == q;
    forall j | 0 <= j < k + 1 ensures Sound(pieces[j], urlOk) {
      if j > 0 { assert pieces[j] == rest[j - 1]; }
    }
  }

  lemma RestMade(pieces: seq<Piece>, blocks: seq<Block>)
    requires pieces != [] && MakeAll(pieces, blocks)
    ensures if pieces[0].Gap? then MakeAll(pieces[1..], blocks)
            else blocks != [] && Makes(pieces[0], blocks[0]) && MakeAll(pieces[1..], blocks[1..])
  {
    hide Makes;
    var rest := pieces[1..];
    if pieces[0].Gap? {
      assert Solid(pieces) == Solid(rest);
    } else {
      assert Solid(pieces) == [pieces[0]] + Solid(rest);
      assert Solid(pieces)[0] == pieces[0];
      forall k | 0 <= k < |blocks| - 1 ensures Makes(Solid(rest)[k], blocks[1..][k]) {
        assert Makes(Solid(pieces)[k + 1], blocks[k + 1]);
      }
    }
  }

  // ---- Conservation ----

  /**
   * The lines divide into pieces; the output is refused for the first piece that is not sound, with what is wrong with
   * it, and otherwise shows every piece that is not a blank line, in order and nothing else.
   */
  ghost predicate Conserved(lines: seq<string>, urlOk: string -> bool, r: Result<string, RenderError>) {
    exists cuts, pieces :: Divides(lines, 0, cuts, pieces) && Accounts(pieces, urlOk, r)
  }

  ghost predicate Accounts(pieces: seq<Piece>, urlOk: string -> bool, r: Result<string, RenderError>) {
    match r
    case Ok(html) => (forall k | 0 <= k < |pieces| :: Sound(pieces[k], urlOk)) && ShowsAll(html, pieces)
    case Err(e) => exists p :: FirstUnsound(pieces, urlOk, p) && Explains(e, p, urlOk)
  }

  lemma DocumentShown(lines: seq<string>, urlOk: string -> bool, pieces: seq<Piece>)
    requires Rendered(lines, urlOk).Ok? && MakeAll(pieces, Blocks(lines))
    ensures ShowsAll(Print(Rendered(lines, urlOk).value), pieces)
  {
    OutputReadsBack(lines, urlOk);
    var blocks := Blocks(lines);
    BlocksLevelOk(lines, 0, []);
    forall k | 0 <= k < |blocks| ensures blocks[k].Heading? ==> 1 <= blocks[k].level <= 6 {
      assert LevelOk(BlocksFrom(lines, 0, [])[k]);
    }
    DocumentSeen(blocks);
    hide Print, Read, SeeAll, DocumentEvents, DocumentError, Shows, BlocksFrom, Makes, Solid;
    forall k | 0 <= k < |blocks| ensures Shows(ShownDocument(blocks)[k], Solid(pieces)[k]) {
      assert Makes(Solid(pieces)[k], blocks[k]);
      BlockShown(Solid(pieces)[k], blocks[k]);
    }
  }

  /** Every source renders to an output that accounts for every one of its lines. */
  lemma RenderingConserves(lines: seq<string>, urlOk: string -> bool)
    ensures Conserved(lines, urlOk, match Rendered(lines, urlOk) case Err(e) => Err(e) case Ok(es) => Ok(Print(es)))
  {
    hide Print, DocumentError, DocumentEvents, Sound, Explains, MakeAll, Divides, ShowsAll, BlocksFrom, FirstUnsound;
    assert UnderWay(lines, 0, 0, []);
    var cuts, pieces := BlocksRead(lines, 0, 0, []);
    DocumentErrorIs(pieces, Blocks(lines), urlOk);
    if Rendered(lines, urlOk).Ok? { DocumentShown(lines, urlOk, pieces); }
    assert Accounts(pieces, urlOk, match Rendered(lines, urlOk) case Err(e) => Err(e) case Ok(es) => Ok(Print(es)));
  }
}
