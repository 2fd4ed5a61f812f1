/** The Markdown subset: what each line is, the inline tokens, and the blocks a source falls into. */
module MarkdownSyntax {
  import opened Common
  import opened Text

  // ---- Lines ----

  predicate IsFence(line: string) { "```" <= line }

  predicate Ruled(cell: string) { IsRule(Strip(cell)) }

  predicate IsRule(t: string) {
    var l := if t != "" && t[0] == ':' then t[1..] else t;
    var m := if l != "" && l[|l| - 1] == ':' then l[..|l| - 1] else l;
    |m| >= 3 && forall i | 0 <= i < |m| :: m[i] == '-'
  }

  /** The pieces between occurrences of `c`. */
  function SplitAt(s: string, c: char): (r: seq<string>)
    ensures |r| >= 1
    decreases |s|
  {
    var i := FindChar(s, 0, c);
    if i == |s| then [s] else [s[..i]] + SplitAt(s[i + 1..], c)
  }

  /** A table divider: ruled cells separated by bars, with a bar before and after left out or not. */
  predicate IsDivider(line: string) {
    var t := Strip(line);
    var l := if t != "" && t[0] == '|' then t[1..] else t;
    var m := if l != "" && l[|l| - 1] == '|' then l[..|l| - 1] else l;
    AllRuled(SplitAt(m, '|'))
  }

  predicate AllRuled(cells: seq<string>) { |cells| >= 2 && forall i | 0 <= i < |cells| :: Ruled(cells[i]) }

  predicate IsBar(c: char) { c == '|' }

  function Cells(line: string): seq<string> {
    var pieces := SplitAt(DropRight(DropLeft(Strip(line), IsBar), IsBar), '|');
    seq(|pieces|, i requires 0 <= i < |pieces| => Strip(pieces[i]))
  }

  predicate IsRow(line: string) { '|' in line && !Blank(line) }

  function Hashes(line: string): (n: nat)
    ensures n <= |line|
  {
    if line != "" && line[0] == '#' then 1 + Hashes(line[1..]) else 0
  }

  /** Whitespace and at least one more character. */
  predicate Tail(rest: string) { |rest| >= 2 && IsSpace(rest[0]) }

  predicate IsHeadingLine(line: string) { 1 <= Hashes(line) <= 6 && Tail(line[Hashes(line)..]) }

  predicate IsItem(line: string) {
    var t := DropLeft(line, IsSpace);
    t != "" && t[0] in {'-', '*'} && Tail(t[1..])
  }

  function ItemText(line: string): string
    requires IsItem(line)
  {
    Strip(DropLeft(line, IsSpace)[1..])
  }

  // ---- Inline tokens ----

  datatype Inline = Plain(text: string) | Code(text: string) | Link(text: string, url: string)
    | Image(alt: string, url: string)

  function UrlEnd(s: string, i: nat): (j: nat)
    requires i <= |s|
    ensures i <= j <= |s|
    decreases |s| - i
  {
    if i < |s| && s[i] != ')' && !IsSpace(s[i]) then UrlEnd(s, i + 1) else i
  }

  /** A bracketed text and a parenthesised address from position `i`, with the position after them. */
  function Reference(s: string, i: nat): (r: Option<(string, string, nat)>)
    ensures r.Some? ==> i < r.value.2 <= |s|
  {
    if i >= |s| || s[i] != '[' then None
    else
      var j := FindChar(s, i + 1, ']');
      if j + 1 >= |s| || s[j + 1] != '(' then None
      else
        var k := UrlEnd(s, j + 2);
        if k == |s| || s[k] != ')' || k == j + 2 then None
        else Some((s[i + 1..j], s[j + 2..k], k + 1))
  }

  /** The token that starts at position `i`, with the position after it. */
  function TokenAt(s: string, i: nat): (r: Option<(Inline, nat)>)
    requires i < |s|
    ensures r.Some? ==> i < r.value.1 <= |s| && !r.value.0.Plain?
  {
    if s[i] == '!' then
      match Reference(s, i + 1) { case None => None case Some((alt, url, j)) => Some((Image(alt, url), j)) }
    else if s[i] == '[' then
      match Reference(s, i) {
        case None => None
        case Some((text, url, j)) => if text == "" then None else Some((Link(text, url), j))
      }
    else if s[i] == '`' then
      var j := FindChar(s, i + 1, '`');
      if j == |s| || j == i + 1 then None else Some((Code(s[i + 1..j]), j + 1))
    else None
  }

  /** Leftmost tokens from `from` on, and the plain text between them; no token starts in `from..i`. */
  function Spans(s: string, from: nat, i: nat): (r: seq<Inline>)
    requires from <= i <= |s|
    decreases |s| - i
  {
    if i == |s| then [Plain(s[from..])]
    else match TokenAt(s, i)
      case None => Spans(s, from, i + 1)
      case Some((token, j)) => [Plain(s[from..i]), token] + Spans(s, j, j)
  }

  function Inlines(s: string): seq<Inline> { Spans(s, 0, 0) }

  // ---- Blocks ----

  datatype Block =
    | Paragraph(text: string)
    | Heading(level: nat, text: string)
    | Items(items: seq<string>)
    | Table(head: seq<string>, rows: seq<seq<string>>)
    | Fenced(language: string, lines: seq<string>, closed: bool)

  function FenceEnd(lines: seq<string>, i: nat): (j: nat)
    requires i <= |lines|
    ensures i <= j <= |lines|
    decreases |lines| - i
  {
    if i < |lines| && !IsFence(lines[i]) then FenceEnd(lines, i + 1) else i
  }

  function RowsEnd(lines: seq<string>, i: nat): (j: nat)
    requires i <= |lines|
    ensures i <= j <= |lines|
    decreases |lines| - i
  {
    if i < |lines| && IsRow(lines[i]) then RowsEnd(lines, i + 1) else i
  }

  function ItemsEnd(lines: seq<string>, i: nat): (j: nat)
    requires i <= |lines|
    ensures i <= j <= |lines| && (forall k | i <= k < j :: IsItem(lines[k]))
            && (i < |lines| && IsItem(lines[i]) ==> i < j)
    decreases |lines| - i
  {
    if i < |lines| && IsItem(lines[i]) then ItemsEnd(lines, i + 1) else i
  }

  function Flushed(paragraph: seq<string>): seq<Block> {
    if paragraph == [] then [] else [Paragraph(JoinWith(paragraph, " "))]
  }

  function RowsOf(lines: seq<string>, i: nat, j: nat): seq<seq<string>>
    requires i <= j <= |lines|
  {
    seq(j - i, n requires 0 <= n < j - i => Cells(lines[i + n]))
  }

  function ItemsOf(lines: seq<string>, i: nat, j: nat): seq<string>
    requires i <= j <= |lines| && forall k | i <= k < j :: IsItem(lines[k])
  {
    seq(j - i, n requires 0 <= n < j - i => ItemText(lines[i + n]))
  }

  /** The block that starts at a line, with the line after it; None for blank and paragraph lines. */
  function BlockAt(lines: seq<string>, i: nat): (r: Option<(Block, nat)>)
    requires i < |lines|
    ensures r.Some? ==> i < r.value.1 <= |lines|
  {
    var line := lines[i];
    if IsFence(line) then
      var j := FenceEnd(lines, i + 1);
      Some((Fenced(Strip(line[3..]), lines[i + 1..j], j < |lines|), Min(j + 1, |lines|)))
    else if i + 1 < |lines| && IsDivider(lines[i + 1]) then
      var j := RowsEnd(lines, i + 2);
      Some((Table(Cells(line), RowsOf(lines, i + 2, j)), j))
    else if IsHeadingLine(line) then Some((Heading(Hashes(line), Strip(line[Hashes(line)..])), i + 1))
    else if IsItem(line) then
      var j := ItemsEnd(lines, i);
      Some((Items(ItemsOf(lines, i, j)), j))
    else None
  }

  /** The blocks from line `i` on, after the lines of a paragraph under way. */
  function BlocksFrom(lines: seq<string>, i: nat, paragraph: seq<string>): seq<Block>
    requires i <= |lines|
    decreases |lines| - i
  {
    if i == |lines| then Flushed(paragraph)
    else match BlockAt(lines, i)
      case Some((block, j)) => Flushed(paragraph) + [block] + BlocksFrom(lines, j, [])
      case None =>
        if Blank(lines[i]) then Flushed(paragraph) + BlocksFrom(lines, i + 1, [])
        else BlocksFrom(lines, i + 1, paragraph + [Strip(lines[i])])
  }

  function Blocks(lines: seq<string>): seq<Block> { BlocksFrom(lines, 0, []) }

  // ---- What the scanning means ----

  /** All of `s[i..j]` are whitespace. */
  predicate SpaceIn(s: string, i: nat, j: nat)
    requires j <= |s|
  {
    forall k | i <= k < j :: IsSpace(s[k])
  }

  lemma {:induction false} HashesAre(line: string)
    ensures var n := Hashes(line); (forall k | 0 <= k < n :: line[k] == '#') && (n < |line| ==> line[n] != '#')
  {
    if line != "" && line[0] == '#' {
      HashesAre(line[1..]);
      var n := Hashes(line[1..]);
      assert forall k | 1 <= k < 1 + n :: line[k] == line[1..][k - 1];
    }
  }

  /**
   * A line is a heading exactly when one to six hash signs, then whitespace, then at least one more character make it
   * up; the text after any such cut, stripped, is the heading text.
   */
  ghost predicate HeadingCut(line: string, n: nat, m: nat) {
    1 <= n <= 6 && n < m < |line| && (forall k | 0 <= k < n :: line[k] == '#') && SpaceIn(line, n, m)
  }

  lemma HeadingPattern(line: string)
    ensures IsHeadingLine(line) <==> exists n: nat, m: nat :: HeadingCut(line, n, m)
    ensures forall n: nat, m: nat | HeadingCut(line, n, m) :: n == Hashes(line) && Strip(line[m..]) == Strip(line[n..])
  {
    HashesAre(line);
    if IsHeadingLine(line) {
      var n := Hashes(line);
      assert line[n..][0] == line[n];
      assert HeadingCut(line, n, n + 1);
    }
    forall n: nat, m: nat | HeadingCut(line, n, m)
      ensures n == Hashes(line) && Strip(line[m..]) == Strip(line[n..]) && IsHeadingLine(line)
    {
      assert IsSpace(line[n]);
      SkipSpace(line, n, m);
      assert line[n..][0] == line[n];
    }
    hide Strip;
  }

  lemma {:induction false} SkipSpace(s: string, i: nat, j: nat)
    requires i <= j <= |s| && SpaceIn(s, i, j)
    ensures DropLeft(s[i..], IsSpace) == DropLeft(s[j..], IsSpace)
    ensures Strip(s[i..]) == Strip(s[j..])
    decreases j - i
  {
    if i < j {
      SkipSpace(s, i + 1, j);
      assert s[i..][0] == s[i] && s[i..][1..] == s[i + 1..];
    }
  }

  /**
   * A line is a list item exactly when it is whitespace, a dash or star, whitespace, and at least one more character.
   */
  ghost predicate ItemCut(line: string, n: nat, m: nat) {
    n + 1 < m < |line| && SpaceIn(line, 0, n) && line[n] in {'-', '*'} && SpaceIn(line, n + 1, m)
  }

  lemma {:induction false} DropLeftCut(s: string)
    ensures var t := DropLeft(s, IsSpace); var n := |s| - |t|;
            n >= 0 && t == s[n..] && SpaceIn(s, 0, n) && (t != "" ==> !IsSpace(t[0]))
  {
    if s != "" && IsSpace(s[0]) {
      var rest := s[1..];
      DropLeftCut(rest);
      hide DropLeft, IsSpace;
      var n := |rest| - |DropLeft(rest, IsSpace)|;
      assert rest[n..] == s[n + 1..];
      forall k | 0 <= k < n + 1 ensures IsSpace(s[k]) {
        if k > 0 { assert s[k] == rest[k - 1]; }
      }
    } else {
      assert s == s[0..];
    }
  }

  lemma ItemPattern(line: string)
    ensures IsItem(line) <==> exists n: nat, m: nat :: ItemCut(line, n, m)
    ensures forall n: nat, m: nat | ItemCut(line, n, m) :: IsItem(line) && Strip(line[m..]) == ItemText(line)
  {
    DropLeftCut(line);
    var t := DropLeft(line, IsSpace);
    if IsItem(line) {
      var n: nat := |line| - |t|;
      assert t[1..][0] == line[n + 1];
      assert ItemCut(line, n, n + 2);
    }
    forall n: nat, m: nat | ItemCut(line, n, m) ensures IsItem(line) && Strip(line[m..]) == ItemText(line) {
      SkipSpace(line, 0, n);
      assert line[0..] == line;
      assert !IsSpace(line[n]) && DropLeft(line[n..], IsSpace) == line[n..];
      assert line[n..][1..] == line[n + 1..] && line[n + 1..][0] == line[n + 1];
      SkipSpace(line, n + 1, m);
    }
    hide Strip;
  }

  /** The source of an inline piece. */
  function Written(x: Inline): string {
    match x
    case Plain(text) => text
    case Code(text) => "`" + text + "`"
    case Link(text, url) => "[" + text + "](" + url + ")"
    case Image(alt, url) => "![" + alt + "](" + url + ")"
  }

  function WrittenAll(xs: seq<Inline>): string {
    if xs == [] then "" else Written(xs[0]) + WrittenAll(xs[1..])
  }

  lemma FiveCuts(s: string, a: nat, b: nat, c: nat, d: nat, e: nat)
    requires a <= b <= c <= d <= e < |s|
    ensures s[a..e + 1] == s[a..b] + s[b..c] + s[c..d] + s[d..e] + s[e..e + 1]
  {}

  lemma ReferenceWritten(s: string, i: nat)
    requires Reference(s, i).Some?
    ensures var (text, url, j) := Reference(s, i).value; s[i..j] == "[" + text + "](" + url + ")"
  {
    var j := FindChar(s, i + 1, ']');
    var k := UrlEnd(s, j + 2);
    FiveCuts(s, i, i + 1, j, j + 2, k);
    assert s[i..i + 1] == "[" && s[j..j + 2] == "](" && s[k..k + 1] == ")";
  }

  lemma TokenWritten(s: string, i: nat)
    requires i < |s| && TokenAt(s, i).Some?
    ensures var (token, j) := TokenAt(s, i).value; s[i..j] == Written(token)
  {
    if s[i] == '!' {
      ImageWritten(s, i);
    } else if s[i] == '[' {
      ReferenceWritten(s, i);
    } else {
      CodeWritten(s, i);
    }
    hide Reference, FindChar;
  }

  lemma ImageWritten(s: string, i: nat)
    requires i < |s| && s[i] == '!' && Reference(s, i + 1).Some?
    ensures var (alt, url, j) := Reference(s, i + 1).value; s[i..j] == Written(Image(alt, url))
  {
    ReferenceWritten(s, i + 1);
    hide Reference;
    var (alt, url, j) := Reference(s, i + 1).value;
    assert s[i..j] == "!" + s[i + 1..j];
    assert "!" + ("[" + alt + "](" + url + ")") == "![" + alt + "](" + url + ")" by { Marked(alt, url); }
  }

  lemma Marked(alt: string, url: string)
    ensures "!" + ("[" + alt + "](" + url + ")") == "![" + alt + "](" + url + ")"
  {
    assert "!" + "[" == "![";
    Grouped("!", "[", alt, "](", url, ")");
  }

  lemma Grouped(a: string, b: string, c: string, d: string, e: string, f: string)
    ensures a + (b + c + d + e + f) == (a + b) + c + d + e + f
  {}

  lemma CodeWritten(s: string, i: nat)
    requires i < |s| && s[i] == '`'
    ensures var j := FindChar(s, i + 1, '`'); j < |s| ==> s[i..j + 1] == "`" + s[i + 1..j] + "`"
  {
    var j := FindChar(s, i + 1, '`');
    if j < |s| {
      assert s[i..j + 1] == s[i..i + 1] + s[i + 1..j] + s[j..j + 1];
      assert s[i..i + 1] == [s[i]] && s[j..j + 1] == [s[j]];
    }
  }

  lemma WrittenTwo(x: Inline, y: Inline, rest: seq<Inline>)
    ensures WrittenAll([x, y] + rest) == Written(x) + (Written(y) + WrittenAll(rest))
  {
    assert ([x, y] + rest)[1..] == [y] + rest && ([y] + rest)[1..] == rest;
    hide Written;
  }

  lemma WrittenOne(x: Inline)
    ensures WrittenAll([x]) == Written(x)
  {
    assert WrittenAll([x]) == Written(x) + WrittenAll([]);
    hide Written;
  }

  lemma CutTwice(s: string, a: nat, b: nat, c: nat)
    requires a <= b <= c <= |s|
    ensures s[a..] == s[a..b] + (s[b..c] + s[c..])
  {}

  /** Splitting text into inline pieces loses nothing: written out again they are the text. */
  lemma {:induction false} SpansWritten(s: string, from: nat, i: nat)
    requires from <= i <= |s|
    ensures WrittenAll(Spans(s, from, i)) == s[from..]
    decreases |s| - i
  {
    hide TokenAt, WrittenAll;
    if i == |s| {
      WrittenOne(Plain(s[from..]));
    } else {
      match TokenAt(s, i) {
        case None => SpansWritten(s, from, i + 1);
        case Some((token, j)) =>
          SpansWritten(s, j, j);
          TokenWritten(s, i);
          WrittenTwo(Plain(s[from..i]), token, Spans(s, j, j));
          CutTwice(s, from, i, j);
      }
    }
  }

  /** A piece of plain text holds no token: none starts in it where it stands. */
  ghost predicate NoTokenIn(s: string, from: nat, to: nat) {
    to <= |s| && forall k: nat | from <= k < to :: TokenAt(s, k).None?
  }

  /** The pieces from `from` on are maximal plain stretches without a token and, between them, the leftmost tokens. */
  ghost predicate Leftmost(s: string, from: nat, xs: seq<Inline>)
    requires from <= |s|
    decreases |xs|
  {
    && xs != [] && xs[0].Plain?
    && (var i := from + |xs[0].text|;
        && i <= |s| && xs[0].text == s[from..i] && NoTokenIn(s, from, i)
        && (if |xs| == 1 then i == |s|
            else
              i < |s| && TokenAt(s, i).Some? && TokenAt(s, i).value.0 == xs[1]
              && Leftmost(s, TokenAt(s, i).value.1, xs[2..])))
  }

  lemma {:induction false} SpansLeftmost(s: string, from: nat, i: nat)
    requires from <= i <= |s| && NoTokenIn(s, from, i)
    ensures Leftmost(s, from, Spans(s, from, i))
    decreases |s| - i
  {
    hide TokenAt;
    if i < |s| {
      match TokenAt(s, i) {
        case None => SpansLeftmost(s, from, i + 1);
        case Some((token, j)) =>
          SpansLeftmost(s, j, j);
          assert Spans(s, from, i)[2..] == Spans(s, j, j);
      }
    }
  }
}
