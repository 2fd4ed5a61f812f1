/** What the scanning functions of the renderer find, stated as decompositions of the text. */
module MarkdownPatterns {
  import opened Common
  import opened Text
  import opened TextPatterns
  import opened MarkdownSyntax

  // ---- Splitting ----

  /** The pieces are the text between the separators: none holds one, and joined by it they are the text again. */
  lemma {:induction false} SplitPieces(s: string, c: char)
    ensures var r := SplitAt(s, c); JoinWith(r, [c]) == s && forall k | 0 <= k < |r| :: c !in r[k]
    decreases |s|
  {
    var i := FindChar(s, 0, c);
    if i == |s| {
      assert SplitAt(s, c) == [s];
    } else {
      var rest := s[i + 1..];
      SplitPieces(rest, c);
      var r := SplitAt(s, c);
      assert r[0] == s[..i] && r[1..] == SplitAt(rest, c);
      assert s == s[..i] + [c] + rest;
      assert forall k | 1 <= k < |r| :: r[k] == SplitAt(rest, c)[k - 1];
    }
  }

  lemma {:induction false} SplitOfJoined(parts: seq<string>, c: char)
    requires parts != [] && forall k | 0 <= k < |parts| :: c !in parts[k]
    ensures SplitAt(JoinWith(parts, [c]), c) == parts
  {
    var s := JoinWith(parts, [c]);
    if |parts| == 1 {
      assert forall k | 0 <= k < |s| :: s[k] in s;
    } else {
      var rest := JoinWith(parts[1..], [c]);
      assert s == parts[0] + [c] + rest;
      FirstAt(parts[0], rest, c, 0);
      SplitOfJoined(parts[1..], c);
      SplitStep(parts[0], rest, c);
    }
  }

  lemma SplitStep(a: string, rest: string, c: char)
    requires FindChar(a + [c] + rest, 0, c) == |a|
    ensures SplitAt(a + [c] + rest, c) == [a] + SplitAt(rest, c)
  {
    var s := a + [c] + rest;
    assert s[..|a|] == a && s[|a| + 1..] == rest;
  }

  lemma {:induction false} FirstAt(a: string, b: string, c: char, i: nat)
    requires i <= |a| && c !in a
    ensures FindChar(a + [c] + b, i, c) == |a|
    decreases |a| - i
  {
    var s := a + [c] + b;
    if i < |a| {
      assert s[i] == a[i] && a[i] in a;
      FirstAt(a, b, c, i + 1);
    } else {
      assert s[i] == c;
    }
  }

  // ---- Table cells ----

  /**
   * The cells of a table line: without the whitespace and then all bars at its ends, it is their texts between single
   * bars, each stripped.
   */
  ghost predicate CellsOf(line: string, cells: seq<string>) {
    exists t, core, raw :: CellsCut(line, cells, t, core, raw)
  }

  ghost predicate BarsCut(t: string, core: string) { exists i: nat, j: nat :: BarsCutAt(t, core, i, j) }

  predicate BarsCutAt(t: string, core: string, i: nat, j: nat) {
    && i <= j <= |t| && core == t[i..j]
    && (forall k | 0 <= k < |t| && (k < i || j <= k) :: t[k] == '|') && (i < j ==> t[i] != '|' && t[j - 1] != '|')
  }

  lemma BarsCutIs(t: string, core: string)
    ensures Trimmed(t, core, IsBar) <==> BarsCut(t, core)
  {
    if i: nat, j: nat :| TrimmedAt(t, core, IsBar, i, j) { assert BarsCutAt(t, core, i, j); }
    if i: nat, j: nat :| BarsCutAt(t, core, i, j) { assert TrimmedAt(t, core, IsBar, i, j); }
  }

  ghost predicate CellsCut(line: string, cells: seq<string>, t: string, core: string, raw: seq<string>) {
    && Trimmed(line, t, IsSpace) && BarsCut(t, core)
    && raw != [] && JoinWith(raw, "|") == core && |cells| == |raw|
    && forall k | 0 <= k < |raw| :: '|' !in raw[k] && Trimmed(raw[k], cells[k], IsSpace)
  }

  lemma CellsPattern(line: string)
    ensures CellsOf(line, Cells(line))
  {
    hide Trimmed, BarsCut, SplitAt, Strip, DropLeft, DropRight;
    var t := Strip(line);
    var core := DropRight(DropLeft(t, IsBar), IsBar);
    var raw := SplitAt(core, '|');
    StripTrims(line);
    BothTrim(t, IsBar);
    BarsCutIs(t, core);
    SplitPieces(core, '|');
    forall k | 0 <= k < |raw| ensures '|' !in raw[k] && Trimmed(raw[k], Cells(line)[k], IsSpace) { StripTrims(raw[k]); }
    assert ['|'] == "|";
    assert CellsCut(line, Cells(line), t, core, raw);
  }

  /** No other cells fit the line. */
  lemma CellsUnique(line: string, cells: seq<string>, other: seq<string>)
    requires CellsOf(line, cells) && CellsOf(line, other)
    ensures cells == other
  {
    hide Trimmed, BarsCut;
    var t, core, raw :| CellsCut(line, cells, t, core, raw);
    var t', core', raw' :| CellsCut(line, other, t', core', raw');
    TrimmedUnique(line, t, t', IsSpace);
    BarsCutIs(t, core);
    BarsCutIs(t', core');
    TrimmedUnique(t, core, core', IsBar);
    assert ['|'] == "|";
    SplitOfJoined(raw, '|');
    SplitOfJoined(raw', '|');
    forall k | 0 <= k < |raw| ensures cells[k] == other[k] { TrimmedUnique(raw[k], cells[k], other[k], IsSpace); }
  }

  // ---- Inline tokens ----

  /** An address holds no closing parenthesis and no whitespace, and is not empty. */
  predicate Address(url: string) { url != "" && forall k | 0 <= k < |url| :: url[k] != ')' && !IsSpace(url[k]) }

  /** `s[i..j]` is the token's source, and what stands in its brackets may stand there. */
  predicate TokenCut(s: string, i: nat, x: Inline, j: nat) {
    && i <= j <= |s|
    && match x
       case Plain(_) => false
       case Code(text) => s[i..j] == "`" + text + "`" && text != "" && '`' !in text
       case Link(text, url) => s[i..j] == "[" + text + "](" + url + ")" && text != "" && ']' !in text && Address(url)
       case Image(alt, url) => s[i..j] == "![" + alt + "](" + url + ")" && ']' !in alt && Address(url)
  }

  lemma UrlIs(s: string, i: nat)
    requires i <= |s|
    ensures var j := UrlEnd(s, i);
            && (forall k | i <= k < j :: s[k] != ')' && !IsSpace(s[k])) && (j < |s| ==> s[j] == ')' || IsSpace(s[j]))
    decreases |s| - i
  {
    if i < |s| && s[i] != ')' && !IsSpace(s[i]) { UrlIs(s, i + 1); }
  }

  lemma UrlUnique(s: string, i: nat, j: nat)
    requires i <= j < |s| && s[j] == ')' && forall k | i <= k < j :: s[k] != ')' && !IsSpace(s[k])
    ensures UrlEnd(s, i) == j
    decreases j - i
  {
    if i < j { UrlUnique(s, i + 1, j); }
  }

  lemma FindUnique(s: string, i: nat, j: nat, c: char)
    requires i <= j < |s| && s[j] == c && forall k | i <= k < j :: s[k] != c
    ensures FindChar(s, i, c) == j
    decreases j - i
  {
    if i < j { FindUnique(s, i + 1, j, c); }
  }

  /** A bracketed text and a parenthesised address. */
  predicate ReferenceCut(s: string, i: nat, text: string, url: string, j: nat) {
    i <= j <= |s| && s[i..j] == "[" + text + "](" + url + ")" && ']' !in text && Address(url)
  }

  lemma BracketPlaces(text: string, url: string)
    ensures var c := "[" + text + "](" + url + ")"; var m := 1 + |text|;
            && |c| == m + 3 + |url| && c[0] == '[' && c[m] == ']' && c[m + 1] == '(' && c[|c| - 1] == ')'
            && c[1..m] == text && c[m + 2..|c| - 1] == url
  {}

  lemma ReferenceFound(s: string, i: nat, text: string, url: string, j: nat)
    requires ReferenceCut(s, i, text, url, j)
    ensures Reference(s, i) == Some((text, url, j))
  {
    var cut := s[i..j];
    var m := 1 + |text|;
    BracketPlaces(text, url);
    assert forall k | 0 <= k < |cut| :: cut[k] == s[i + k];
    hide Reference;
    PartOf(s, i, j, 1, m);
    PartOf(s, i, j, m + 2, |cut| - 1);
    assert text == s[i + 1..i + m] && url == s[i + m + 2..j - 1];
    ReferenceRead(s, i, i + m, j);
  }

  lemma PartOf(s: string, i: nat, j: nat, a: nat, b: nat)
    requires i <= j <= |s| && a <= b <= j - i
    ensures s[i..j][a..b] == s[i + a..i + b]
  {
    forall k | 0 <= k < b - a ensures s[i..j][a..b][k] == s[i + a..i + b][k] { assert s[i..j][a + k] == s[i + a + k]; }
  }

  /** Reading a reference whose brackets stand at known places. */
  lemma ReferenceRead(s: string, i: nat, m: nat, j: nat)
    requires i < m && m + 3 < j <= |s| && s[i] == '[' && s[m] == ']' && s[m + 1] == '(' && s[j - 1] == ')'
    requires ']' !in s[i + 1..m] && Address(s[m + 2..j - 1])
    ensures Reference(s, i) == Some((s[i + 1..m], s[m + 2..j - 1], j))
  {
    forall k | i + 1 <= k < m ensures s[k] != ']' { assert s[k] == s[i + 1..m][k - i - 1]; }
    FindUnique(s, i + 1, m, ']');
    forall k | m + 2 <= k < j - 1 ensures s[k] != ')' && !IsSpace(s[k]) { assert s[k] == s[m + 2..j - 1][k - m - 2]; }
    UrlUnique(s, m + 2, j - 1);
  }

  lemma ReferenceIs(s: string, i: nat)
    requires Reference(s, i).Some?
    ensures var (text, url, j) := Reference(s, i).value; ReferenceCut(s, i, text, url, j)
  {
    var m := FindChar(s, i + 1, ']');
    UrlIs(s, m + 2);
    ReferenceWritten(s, i);
  }

  /** At most one token starts at a place, and it is found there exactly when its source stands there. */
  lemma TokenPattern(s: string, i: nat, x: Inline, j: nat)
    requires i < |s|
    ensures TokenAt(s, i) == Some((x, j)) <==> TokenCut(s, i, x, j)
  {
    if TokenAt(s, i) == Some((x, j)) { TokenIs(s, i); }
    if TokenCut(s, i, x, j) { TokenFound(s, i, x, j); }
    hide TokenAt, TokenCut;
  }

  lemma TokenIs(s: string, i: nat)
    requires i < |s| && TokenAt(s, i).Some?
    ensures var (x, j) := TokenAt(s, i).value; TokenCut(s, i, x, j)
  {
    TokenWritten(s, i);
    if s[i] == '!' {
      ReferenceIs(s, i + 1);
    } else if s[i] == '[' {
      ReferenceIs(s, i);
    }
    hide Reference;
  }

  lemma TokenFound(s: string, i: nat, x: Inline, j: nat)
    requires i < |s| && TokenCut(s, i, x, j)
    ensures TokenAt(s, i) == Some((x, j))
  {
    match x
    case Code(text) => CodeFound(s, i, text, j);
    case Link(text, url) =>
      BracketPlaces(text, url);
      assert s[i] == s[i..j][0];
      ReferenceFound(s, i, text, url, j);
      hide Reference, Address;
    case Image(alt, url) => ImageFound(s, i, alt, url, j);
  }

  lemma ImageFound(s: string, i: nat, alt: string, url: string, j: nat)
    requires i < |s| && TokenCut(s, i, Image(alt, url), j)
    ensures TokenAt(s, i) == Some((Image(alt, url), j))
  {
    var inner := "[" + alt + "](" + url + ")";
    Marked(alt, url);
    assert s[i] == s[i..j][0] == '!';
    PartOf(s, i, j, 1, j - i);
    assert s[i + 1..j] == inner;
    ReferenceFound(s, i + 1, alt, url, j);
    hide Reference, Address;
  }

  lemma CodeFound(s: string, i: nat, text: string, j: nat)
    requires i < |s| && TokenCut(s, i, Code(text), j)
    ensures TokenAt(s, i) == Some((Code(text), j))
  {
    var cut := "`" + text + "`";
    assert cut[0] == '`' && cut[|cut| - 1] == '`' && cut[1..|cut| - 1] == text;
    assert s[i] == s[i..j][0] && s[j - 1] == s[i..j][j - 1 - i];
    PartOf(s, i, j, 1, j - i - 1);
    assert text == s[i + 1..j - 1];
    forall k | i + 1 <= k < j - 1 ensures s[k] != '`' { assert s[k] == s[i + 1..j - 1][k - i - 1]; }
    FindUnique(s, i + 1, j - 1, '`');
  }

  // ---- Table dividers ----

  /** Three or more dashes, with a colon before and after left out or not. */
  ghost predicate Rule(m: string) { exists p: nat, q: nat :: RuleAt(m, p, q) }

  predicate RuleAt(m: string, p: nat, q: nat) {
    && p <= 1 && |m| - 1 <= q <= |m| && p + 3 <= q
    && (p == 1 ==> m[0] == ':') && (q < |m| ==> m[q] == ':') && forall k | p <= k < q :: m[k] == '-'
  }

  /** A rule with whitespace around it. */
  ghost predicate RuledCell(cell: string) { Rule(Strip(cell)) }

  lemma RuledPattern(cell: string)
    ensures Ruled(cell) <==> RuledCell(cell)
  {
    RuleIs(Strip(cell));
    hide Strip, Rule;
  }

  lemma RuleIs(t: string)
    ensures Rule(t) <==> IsRule(t)
  {
    if Rule(t) { RuleFound(t); }
    if IsRule(t) { RuleRead(t); }
    hide Rule, IsRule;
  }

  /** The text without a colon at its start and one at its end. */
  function Uncoloned(t: string): string {
    var l := if t != "" && t[0] == ':' then t[1..] else t;
    if l != "" && l[|l| - 1] == ':' then l[..|l| - 1] else l
  }

  lemma RuleFound(t: string)
    requires Rule(t)
    ensures IsRule(t)
  {
    var p: nat, q: nat :| RuleAt(t, p, q);
    assert t[p] == '-' && t[q - 1] == '-';
    var l := t[p..];
    assert l == if t != "" && t[0] == ':' then t[1..] else t;
    assert l[|l| - 1] == t[|t| - 1];
    var m := t[p..q];
    assert m == l[..q - p];
    assert m == Uncoloned(t);
    forall i | 0 <= i < |m| ensures m[i] == '-' { assert m[i] == t[p + i]; }
  }

  lemma RuleRead(t: string)
    requires IsRule(t)
    ensures Rule(t)
  {
    var l := if t != "" && t[0] == ':' then t[1..] else t;
    var m := Uncoloned(t);
    var p: nat := |t| - |l|;
    var q := p + |m|;
    assert m == t[p..q];
    forall k | p <= k < q ensures t[k] == '-' { assert t[k] == m[k - p]; }
    assert RuleAt(t, p, q);
  }

  /**
   * A divider is, apart from whitespace around it all, two or more ruled cells between single bars, with a bar before
   * and one after left out or not.
   */
  ghost predicate DividerCut(line: string, cells: seq<string>, before: string, after: string) {
    && |cells| >= 2 && before in {"", "|"} && after in {"", "|"}
    && (forall k | 0 <= k < |cells| :: RuledCell(cells[k]))
    && Strip(line) == Strip(before + JoinWith(cells, "|") + after)
  }

  lemma DividerPattern(line: string)
    ensures IsDivider(line) <==> exists cells, before, after :: DividerCut(line, cells, before, after)
  {
    if IsDivider(line) { DividerIs(line); }
    if cells, before, after :| DividerCut(line, cells, before, after) { DividerFound(line, cells, before, after); }
    hide IsDivider, DividerCut;
  }

  lemma DividerIs(line: string)
    requires IsDivider(line)
    ensures exists cells, before, after :: DividerCut(line, cells, before, after)
  {
    hide IsSpace, Strip, SplitAt, Ruled, RuledCell;
    var t := Strip(line);
    var (before, m, after) := Unbarred(t);
    var cells := SplitAt(m, '|');
    assert AllRuled(cells);
    UnbarredIs(t);
    SplitPieces(m, '|');
    assert ['|'] == "|";
    StripAgain(line);
    forall k | 0 <= k < |cells| ensures RuledCell(cells[k]) { RuledPattern(cells[k]); }
    assert DividerCut(line, cells, before, after);
  }

  /** A bar at the start, if there is one, the rest, and a bar at its end, if there is one. */
  function Unbarred(t: string): (string, string, string) {
    var l := if t != "" && t[0] == '|' then t[1..] else t;
    var m := if l != "" && l[|l| - 1] == '|' then l[..|l| - 1] else l;
    (if t != "" && t[0] == '|' then "|" else "", m, if l != "" && l[|l| - 1] == '|' then "|" else "")
  }

  lemma UnbarredIs(t: string)
    ensures var (before, m, after) := Unbarred(t);
            t == before + m + after && before in {"", "|"} && after in {"", "|"}
  {}

  /** What stands between the first and the last of the parts. */
  function Middle(parts: seq<string>, sep: string): string
    requires |parts| >= 2
  {
    if |parts| == 2 then sep else sep + parts[1] + Middle(parts[1..], sep)
  }

  lemma {:induction false} JoinEnds(parts: seq<string>, sep: string)
    requires |parts| >= 2
    ensures JoinWith(parts, sep) == parts[0] + Middle(parts, sep) + parts[|parts| - 1]
  {
    hide JoinWith, Middle;
    var rest := parts[1..];
    JoinStep(parts, sep);
    if |parts| > 2 {
      JoinEnds(rest, sep);
      Regroup(parts[0], sep, rest[0], Middle(rest, sep), parts[|parts| - 1]);
    }
  }

  lemma JoinStep(parts: seq<string>, sep: string)
    requires |parts| >= 2
    ensures JoinWith(parts, sep) == parts[0] + sep + JoinWith(parts[1..], sep)
    ensures if |parts| == 2 then Middle(parts, sep) == sep && JoinWith(parts[1..], sep) == parts[1]
            else Middle(parts, sep) == sep + parts[1] + Middle(parts[1..], sep)
  {
    if |parts| == 2 { assert parts[1..] == [parts[1]]; }
  }

  lemma Regroup(a: string, sep: string, b: string, m: string, e: string)
    ensures a + sep + (b + m + e) == a + (sep + b + m) + e
  {}

  lemma {:induction false} MiddleSame(parts: seq<string>, other: seq<string>, sep: string)
    requires |parts| == |other| >= 2 && forall k | 0 < k < |parts| - 1 :: parts[k] == other[k]
    ensures Middle(parts, sep) == Middle(other, sep)
  {
    if |parts| > 2 { MiddleSame(parts[1..], other[1..], sep); }
  }

  /** The cells with the whitespace taken off where nothing but it separates them from the ends of the line. */
  function Tightened(cells: seq<string>, left: bool, right: bool): seq<string>
    requires |cells| >= 2
  {
    var n := |cells|;
    var first := if left then DropLeft(cells[0], IsSpace) else cells[0];
    var last := if right then DropRight(cells[n - 1], IsSpace) else cells[n - 1];
    [first] + cells[1..n - 1] + [last]
  }

  lemma RuleEdges(m: string)
    requires Rule(m)
    ensures |m| >= 3 && forall k | 0 <= k < |m| :: m[k] in {':', '-'}
  {
    var p: nat, q: nat :| RuleAt(m, p, q);
  }

  /** A ruled cell holds no bar, is not all whitespace, and is as well ruled without some of its outer whitespace. */
  lemma CellFacts(cell: string)
    requires RuledCell(cell)
    ensures '|' !in cell
    ensures var d := DropLeft(cell, IsSpace); RuledCell(d) && d != "" && d[0] != '|' && !IsSpace(d[0])
    ensures var d := DropRight(cell, IsSpace); RuledCell(d) && d != "" && d[|d| - 1] != '|' && !IsSpace(d[|d| - 1])
  {
    hide IsSpace, Strip, DropLeft, DropRight;
    var m := Strip(cell);
    StripTrims(cell);
    RuleEdges(m);
    var i: nat, j: nat :| TrimmedAt(cell, m, IsSpace, i, j);
    BarIsNoSpace();
    forall k | 0 <= k < |cell| ensures cell[k] != '|' {
      if i <= k < j { assert cell[k] == m[k - i]; }
    }
    var l, r := DropLeft(cell, IsSpace), DropRight(cell, IsSpace);
    LeftTrims(cell, IsSpace);
    RightTrims(cell, IsSpace);
    hide Rule, RuledCell;
    assert |cell| - |l| == i by { assert !IsSpace(cell[i]); }
    assert |r| == j by { assert !IsSpace(cell[j - 1]); }
    assert l[0] == cell[i] && r[|r| - 1] == cell[j - 1];
    CellEdges(cell, m, i, j);
  }

  /** Without the whitespace on one side a ruled cell is stripped to the same rule. */
  lemma CellEdges(cell: string, m: string, i: nat, j: nat)
    requires TrimmedAt(cell, m, IsSpace, i, j) && RuledCell(cell)
    ensures RuledCell(cell[i..]) && RuledCell(cell[..j])
  {
    hide IsSpace, Strip, Rule;
    SameStrip(cell, m, i, j);
    SameStrip(cell[i..], m, 0, j - i);
    SameStrip(cell[..j], m, i, j);
  }

  lemma BarIsNoSpace()
    ensures !IsSpace('|')
  {}

  lemma DividerFound(line: string, cells: seq<string>, before: string, after: string)
    requires DividerCut(line, cells, before, after)
    ensures IsDivider(line)
  {
    hide IsSpace;
    var tight := Tightened(cells, before == "", after == "");
    var n := |cells|;
    TightStrip(cells, before, after);
    TightCells(cells, before == "", after == "");
    assert ['|'] == "|";
    SplitOfJoined(tight, '|');
    JoinEnds(tight, "|");
    hide Strip, Ruled, RuledCell, JoinWith, Tightened, SplitAt, Middle;
    DividerRead(line, before, JoinWith(tight, "|"), after, tight);
  }

  lemma TightCells(cells: seq<string>, left: bool, right: bool)
    requires |cells| >= 2 && forall k | 0 <= k < |cells| :: RuledCell(cells[k])
    ensures var tight := Tightened(cells, left, right); var n := |cells|;
            && |tight| == n && AllRuled(tight) && (forall k | 0 <= k < n :: '|' !in tight[k])
            && tight[0] != "" && tight[0][0] != '|' && tight[n - 1] != "" && tight[n - 1][|tight[n - 1]| - 1] != '|'
  {
    hide DropLeft, DropRight, IsSpace, IsRule, Rule;
    var tight := Tightened(cells, left, right);
    var n := |cells|;
    forall k | 0 <= k < n ensures RuledCell(tight[k]) && '|' !in tight[k] && Ruled(tight[k]) {
      CellFacts(cells[k]);
      RuledPattern(tight[k]);
      CellFacts(tight[k]);
    }
    CellFacts(tight[0]);
    CellFacts(tight[n - 1]);
    RuledNonempty(tight[0]);
    RuledNonempty(tight[n - 1]);
    assert tight[0][0] in tight[0] && tight[n - 1][|tight[n - 1]| - 1] in tight[n - 1];
  }

  lemma RuledNonempty(cell: string)
    requires RuledCell(cell)
    ensures cell != ""
  {
    CellFacts(cell);
    LeftTrims(cell, IsSpace);
  }

  lemma DividerRead(line: string, before: string, m: string, after: string, cells: seq<string>)
    requires before in {"", "|"} && after in {"", "|"} && Strip(line) == before + m + after
    requires m != "" && m[0] != '|' && m[|m| - 1] != '|'
    requires SplitAt(m, '|') == cells && AllRuled(cells)
    ensures IsDivider(line)
  {
    hide *;
    assert Strip(line) == before + (m + after);
    LeadingBar(before, m + after);
    TrailingBar(m, after);
    WithoutBars(line, m + after, m);
  }

  lemma WithoutBars(line: string, l: string, m: string)
    requires var t := Strip(line); l == if t != "" && t[0] == '|' then t[1..] else t
    requires m == (if l != "" && l[|l| - 1] == '|' then l[..|l| - 1] else l) && AllRuled(SplitAt(m, '|'))
    ensures IsDivider(line)
  {}

  lemma LeadingBar(before: string, rest: string)
    requires before in {"", "|"} && rest != "" && rest[0] != '|'
    ensures var t := before + rest; t != "" && (if t[0] == '|' then t[1..] else t) == rest
  {}

  lemma TrailingBar(m: string, after: string)
    requires after in {"", "|"} && m != "" && m[|m| - 1] != '|'
    ensures var l := m + after; l != "" && (if l[|l| - 1] == '|' then l[..|l| - 1] else l) == m
  {}

  lemma TightStrip(cells: seq<string>, before: string, after: string)
    requires |cells| >= 2 && before in {"", "|"} && after in {"", "|"}
    requires RuledCell(cells[0]) && RuledCell(cells[|cells| - 1])
    ensures var tight := Tightened(cells, before == "", after == "");
            Strip(before + JoinWith(cells, "|") + after) == before + JoinWith(tight, "|") + after
  {
    hide IsSpace, Strip, DropLeft, DropRight, JoinWith, Rule, RuledCell, Middle;
    var n := |cells|;
    var tight := Tightened(cells, before == "", after == "");
    JoinEnds(cells, "|");
    JoinEnds(tight, "|");
    assert tight[1..n - 1] == cells[1..n - 1];
    MiddleSame(tight, cells, "|");
    LeftTight(cells[0], before == "");
    RightTight(cells[n - 1], after == "");
    TightPlaces(before, cells[0], tight[0], Middle(cells, "|"), cells[n - 1], tight[n - 1], after);
  }

  lemma LeftTight(cell: string, left: bool)
    requires RuledCell(cell)
    ensures var d := if left then DropLeft(cell, IsSpace) else cell;
            && d != "" && |d| <= |cell| && d == cell[|cell| - |d|..]
            && (forall k | 0 <= k < |cell| - |d| :: IsSpace(cell[k])) && (left ==> !IsSpace(d[0]))
  {
    CellFacts(cell);
    RuledNonempty(cell);
    LeftTrims(cell, IsSpace);
    hide RuledCell, DropLeft, IsSpace;
  }

  lemma RightTight(cell: string, right: bool)
    requires RuledCell(cell)
    ensures var d := if right then DropRight(cell, IsSpace) else cell;
            && d != "" && |d| <= |cell| && d == cell[..|d|]
            && (forall k | |d| <= k < |cell| :: IsSpace(cell[k])) && (right ==> !IsSpace(d[|d| - 1]))
  {
    CellFacts(cell);
    RuledNonempty(cell);
    RightTrims(cell, IsSpace);
    hide RuledCell, DropRight, IsSpace;
  }

  lemma TightPlaces(before: string, a: string, a': string, m: string, b: string, b': string, after: string)
    requires before in {"", "|"} && after in {"", "|"} && a' != "" && b' != "" && |a'| <= |a| && |b'| <= |b|
    requires a' == a[|a| - |a'|..] && (forall k | 0 <= k < |a| - |a'| :: IsSpace(a[k])) && (before != "" ==> a' == a)
    requires b' == b[..|b'|] && (forall k | |b'| <= k < |b| :: IsSpace(b[k])) && (after != "" ==> b' == b)
    requires (before == "" ==> !IsSpace(a'[0])) && (after == "" ==> !IsSpace(b'[|b'| - 1]))
    ensures var u, v := before + (a + m + b) + after, before + (a' + m + b') + after;
            Strip(u) == v
  {
    hide IsSpace, Strip;
    var x, y := a[..|a| - |a'|], b[|b'|..];
    var v := before + (a' + m + b') + after;
    assert a == x + a' && b == b' + y;
    PaddingOut(before, x, a', m, b', y, after);
    forall k | 0 <= k < |x| ensures IsSpace(x[k]) { assert x[k] == a[k]; }
    forall k | 0 <= k < |y| ensures IsSpace(y[k]) { assert y[k] == b[|b'| + k]; }
    BarIsNoSpace();
    assert v[0] == if before == "" then a'[0] else '|';
    assert v[|v| - 1] == if after == "" then b'[|b'| - 1] else '|';
    PaddedStrip(x, v, y);
  }

  lemma PaddingOut(before: string, x: string, a: string, m: string, b: string, y: string, after: string)
    requires (before == "" || x == "") && (after == "" || y == "")
    ensures before + (x + a + m + (b + y)) + after == x + (before + (a + m + b) + after) + y
  {}

  lemma PaddedStrip(x: string, v: string, y: string)
    requires v != "" && !IsSpace(v[0]) && !IsSpace(v[|v| - 1])
    requires (forall k | 0 <= k < |x| :: IsSpace(x[k])) && forall k | 0 <= k < |y| :: IsSpace(y[k])
    ensures Strip(x + v + y) == v
  {
    hide IsSpace, Strip;
    SameStrip(x + v + y, v, |x|, |x + v|);
  }
}
