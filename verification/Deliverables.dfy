/** The deliverables field: a list of labelled links printed one a line, and read back from what a member typed. */
module Deliverables {
  import opened Common
  import opened Text

  datatype Entry = Entry(name: string, url: string)

  datatype FieldError = TooMany | NoLabel | LongLabel | BadUrl

  // ---- Printing ----

  predicate Trimming(c: char) { c == ' ' || c == '|' }

  function Line(e: Entry): string { DropRight(e.name + " | " + e.url, Trimming) }

  function LinesOf(xs: seq<Entry>): seq<string> { seq(|xs|, i requires 0 <= i < |xs| => Line(xs[i])) }

  /** `prepare_value`. */
  function Printed(xs: seq<Entry>): string { JoinWith(LinesOf(xs), "\n") }

  // ---- Reading ----

  function BreakAt(s: string, i: nat): (j: nat)
    requires i <= |s|
    ensures i <= j <= |s|
    ensures forall k | i <= k < j :: !IsLineBreak(s[k])
    ensures j < |s| ==> IsLineBreak(s[j])
    decreases |s| - i
  {
    if i < |s| && !IsLineBreak(s[i]) then BreakAt(s, i + 1) else i
  }

  /** `str.splitlines`: a carriage return and line feed together are one break, and a last break ends the text. */
  function SplitLines(s: string): seq<string>
    decreases |s|
  {
    if s == "" then []
    else
      var i := BreakAt(s, 0);
      if i == |s| then [s]
      else if s[i] == '\r' && i + 1 < |s| && s[i + 1] == '\n' then [s[..i]] + SplitLines(s[i + 2..])
      else [s[..i]] + SplitLines(s[i + 1..])
  }

  /** The stripped lines that are not blank. */
  function Kept(lines: seq<string>): seq<string> {
    if lines == [] then []
    else if Blank(lines[0]) then Kept(lines[1..])
    else [Strip(lines[0])] + Kept(lines[1..])
  }

  function ReadLine(line: string, urlOk: string -> bool): Result<Entry, FieldError> {
    var i := FindChar(line, 0, '|');
    var name := Strip(line[..i]);
    var url := if i < |line| then Strip(line[i + 1..]) else "";
    if name == "" then Err(NoLabel)
    else if |name| > 200 then Err(LongLabel)
    else if url != "" && !urlOk(url) then Err(BadUrl)
    else Ok(Entry(name, url))
  }

  /** The first `n` lines read in order, up to the first error. */
  function ReadLines(lines: seq<string>, n: nat, urlOk: string -> bool): Result<seq<Entry>, FieldError>
    requires n <= |lines|
  {
    if n == 0 then Ok([])
    else match ReadLines(lines, n - 1, urlOk)
      case Err(e) => Err(e)
      case Ok(before) =>
        match ReadLine(lines[n - 1], urlOk)
        case Err(e) => Err(e)
        case Ok(x) => Ok(before + [x])
  }

  function Read(value: string, urlOk: string -> bool): Result<seq<Entry>, FieldError> {
    var lines := Kept(SplitLines(Strip(value)));
    if |lines| > 50 then Err(TooMany) else ReadLines(lines, |lines|, urlOk)
  }

  method ReadEntry(line: string, urlOk: string -> bool) returns (r: Result<Entry, FieldError>)
    ensures r == ReadLine(line, urlOk)
  {
    var i := FindChar(line, 0, '|');
    var name := Strip(line[..i]);
    var url := if i < |line| then Strip(line[i + 1..]) else "";
    if name == "" { return Err(NoLabel); }
    if |name| > 200 { return Err(LongLabel); }
    if url != "" && !urlOk(url) { return Err(BadUrl); }
    return Ok(Entry(name, url));
  }

  /** `to_python`. */
  method ToPython(value: string, urlOk: string -> bool) returns (r: Result<seq<Entry>, FieldError>)
    ensures r == Read(value, urlOk)
  {
    var text := Strip(value);
    if text == "" { return Ok([]); }
    var lines := Kept(SplitLines(text));
    hide Strip, Kept, SplitLines, ReadLine;
    if |lines| > 50 { return Err(TooMany); }
    var deliverables: seq<Entry> := [];
    for n := 0 to |lines|
      invariant ReadLines(lines, n, urlOk) == Ok(deliverables)
    {
      var entry := ReadEntry(lines[n], urlOk);
      if entry.Err? {
        StaysRefused(lines, n + 1, |lines|, urlOk);
        return Err(entry.error);
      }
      deliverables := deliverables + [entry.value];
    }
    return Ok(deliverables);
  }

  lemma {:induction false} StaysRefused(lines: seq<string>, i: nat, n: nat, urlOk: string -> bool)
    requires i <= n <= |lines| && ReadLines(lines, i, urlOk).Err?
    ensures ReadLines(lines, n, urlOk) == ReadLines(lines, i, urlOk)
    decreases n
  {
    if i < n { StaysRefused(lines, i, n - 1, urlOk); }
  }

  // ---- Stripping ----

  predicate Trimmed(s: string) { s == "" || (!IsSpace(s[0]) && !IsSpace(s[|s| - 1])) }

  lemma {:induction false} DropLeftIs(s: string)
    ensures var d := DropLeft(s, IsSpace); |d| <= |s| && d == s[|s| - |d|..] && (d != "" ==> !IsSpace(d[0]))
    ensures s != "" && !IsSpace(s[0]) ==> DropLeft(s, IsSpace) == s
    ensures s != "" && IsSpace(s[0]) ==> |DropLeft(s, IsSpace)| < |s|
  {
    if s != "" && IsSpace(s[0]) { DropLeftIs(s[1..]); }
    hide IsSpace;
  }

  lemma {:induction false} DropRightIs(s: string, drop: char -> bool)
    ensures var d := DropRight(s, drop); d <= s && (d != "" ==> !drop(d[|d| - 1]))
    ensures s != "" && !drop(s[|s| - 1]) ==> DropRight(s, drop) == s
    ensures s != "" && drop(s[|s| - 1]) ==> |DropRight(s, drop)| < |s|
    ensures forall k | 0 <= k < |s| && !drop(s[k]) :: k < |DropRight(s, drop)|
  {
    if s != "" && drop(s[|s| - 1]) { DropRightIs(s[..|s| - 1], drop); }
  }

  /** Stripping trims, keeps what is trimmed already, and is shorter when there is something to trim in front. */
  lemma StripIs(s: string)
    ensures Trimmed(Strip(s)) && |Strip(s)| <= |s|
    ensures Trimmed(s) ==> Strip(s) == s
    ensures s != "" && IsSpace(s[0]) ==> |Strip(s)| < |s|
    ensures Strip(s) == "" ==> forall k | 0 <= k < |s| :: IsSpace(s[k])
  {
    var d := DropLeft(s, IsSpace);
    DropLeftIs(s);
    DropRightIs(d, IsSpace);
    assert d != "" ==> !IsSpace(d[0]) && 0 < |DropRight(d, IsSpace)|;
    if Strip(s) == "" {
      AllSpace(s);
    }
    hide IsSpace;
  }

  lemma {:induction false} AllSpace(s: string)
    ensures DropLeft(s, IsSpace) == "" ==> forall k | 0 <= k < |s| :: IsSpace(s[k])
  {
    if s != "" && IsSpace(s[0]) {
      AllSpace(s[1..]);
      assert forall k | 1 <= k < |s| :: s[k] == s[1..][k - 1];
    }
    hide IsSpace;
  }

  // ---- What is read is tidy ----

  predicate OneLine(s: string) { forall k | 0 <= k < |s| :: !IsLineBreak(s[k]) }

  /** An entry the reader can have produced. */
  predicate Tidy(e: Entry, urlOk: string -> bool) {
    && e.name != "" && Trimmed(e.name) && |e.name| <= 200 && '|' !in e.name && OneLine(e.name)
    && Trimmed(e.url) && OneLine(e.url) && (e.url == "" || urlOk(e.url))
  }

  lemma {:induction false} StripWithin(s: string)
    ensures OneLine(s) ==> OneLine(Strip(s))
    ensures forall c: char :: c !in s ==> c !in Strip(s)
  {
    var d := DropLeft(s, IsSpace);
    DropLeftIs(s);
    DropRightIs(d, IsSpace);
    var r := Strip(s);
    forall k | 0 <= k < |r| ensures r[k] == s[|s| - |d| + k] { assert r[k] == d[k]; }
    hide IsSpace, IsLineBreak, Strip;
  }

  lemma ReadIsTidy(line: string, urlOk: string -> bool)
    requires OneLine(line) && ReadLine(line, urlOk).Ok?
    ensures Tidy(ReadLine(line, urlOk).value, urlOk)
  {
    var i := FindChar(line, 0, '|');
    assert OneLine(line[..i]) && '|' !in line[..i];
    StripIs(line[..i]);
    StripWithin(line[..i]);
    if i < |line| {
      assert OneLine(line[i + 1..]);
      StripIs(line[i + 1..]);
      StripWithin(line[i + 1..]);
    }
    hide Strip, IsLineBreak, IsSpace;
  }

  lemma {:induction false} SplitOneLine(s: string)
    ensures forall k | 0 <= k < |SplitLines(s)| :: OneLine(SplitLines(s)[k])
    decreases |s|
  {
    if s != "" {
      var i := BreakAt(s, 0);
      if i < |s| { SplitOneLine(s[i + 1..]); }
      if i + 1 < |s| { SplitOneLine(s[i + 2..]); }
    }
    hide IsLineBreak;
  }

  lemma {:induction false} KeptOneLine(lines: seq<string>)
    requires forall k | 0 <= k < |lines| :: OneLine(lines[k])
    ensures forall k | 0 <= k < |Kept(lines)| :: OneLine(Kept(lines)[k])
  {
    if lines != [] {
      KeptOneLine(lines[1..]);
      StripWithin(lines[0]);
    }
    hide OneLine, Strip;
  }

  lemma {:induction false} ReadEach(lines: seq<string>, n: nat, urlOk: string -> bool)
    requires n <= |lines| && ReadLines(lines, n, urlOk).Ok?
    ensures var xs := ReadLines(lines, n, urlOk).value;
            |xs| == n && forall k | 0 <= k < n :: ReadLine(lines[k], urlOk) == Ok(xs[k])
  {
    hide ReadLine;
    if n > 0 {
      ReadEach(lines, n - 1, urlOk);
      var before, xs := ReadLines(lines, n - 1, urlOk).value, ReadLines(lines, n, urlOk).value;
      assert xs == before + [ReadLine(lines[n - 1], urlOk).value];
      hide ReadLines;
    }
  }

  lemma {:induction false} ReadAll(lines: seq<string>, xs: seq<Entry>, n: nat, urlOk: string -> bool)
    requires n <= |lines| == |xs| && forall k | 0 <= k < n :: ReadLine(lines[k], urlOk) == Ok(xs[k])
    ensures ReadLines(lines, n, urlOk) == Ok(xs[..n])
  {
    hide ReadLine;
    if n > 0 {
      ReadAll(lines, xs, n - 1, urlOk);
      assert ReadLine(lines[n - 1], urlOk) == Ok(xs[n - 1]);
      assert ReadLines(lines, n, urlOk) == Ok(xs[..n - 1] + [xs[n - 1]]);
      assert xs[..n] == xs[..n - 1] + [xs[n - 1]];
    }
  }

  // ---- Printed lines come back as lines ----

  /** A line that starts with something to see and holds no break. */
  predicate Solid(s: string) { s != "" && !IsSpace(s[0]) && OneLine(s) }

  lemma {:induction false} SplitJoined(lines: seq<string>)
    requires forall k | 0 <= k < |lines| :: lines[k] != "" && OneLine(lines[k])
    ensures SplitLines(JoinWith(lines, "\n")) == lines
  {
    if |lines| == 1 {
      BreakFound(lines[0], "", 0);
      assert lines[0] + "" == lines[0];
    } else if lines != [] {
      var rest := JoinWith(lines[1..], "\n");
      var s := lines[0] + "\n" + rest;
      SplitJoined(lines[1..]);
      BreakFound(lines[0], "\n" + rest, 0);
      assert s == lines[0] + ("\n" + rest);
      var i := |lines[0]|;
      assert s[i] == '\n' && s[..i] == lines[0] && s[i + 1..] == rest;
    }
    hide OneLine;
  }

  lemma {:induction false} BreakFound(a: string, b: string, i: nat)
    requires OneLine(a) && i <= |a| && (b != "" ==> IsLineBreak(b[0]))
    ensures BreakAt(a + b, i) == |a|
    decreases |a| - i
  {
    var s := a + b;
    if i < |a| {
      assert s[i] == a[i];
      BreakFound(a, b, i + 1);
    } else if b != "" {
      assert s[i] == b[0];
    }
  }

  /** Trimming the whole text only reaches into the last line. */
  lemma {:induction false} JoinedTrimmed(lines: seq<string>, drop: char -> bool)
    requires lines != [] && forall k | 0 <= k < |lines| :: lines[k] != "" && !drop(lines[k][0])
    ensures var last := |lines| - 1;
            DropRight(JoinWith(lines, "\n"), drop) == JoinWith(lines[last := DropRight(lines[last], drop)], "\n")
  {
    if |lines| > 1 {
      var rest, tail := lines[1..], JoinWith(lines[1..], "\n");
      JoinedTrimmed(rest, drop);
      var last := |lines| - 1;
      var cut := lines[last := DropRight(lines[last], drop)];
      assert cut[1..] == rest[last - 1 := DropRight(rest[last - 1], drop)];
      DropRightIs(tail, drop);
      JoinStarts(rest);
      DropRightTail(lines[0] + "\n", tail, drop);
    }
  }

  lemma JoinStarts(lines: seq<string>)
    requires lines != [] && lines[0] != ""
    ensures JoinWith(lines, "\n") != "" && JoinWith(lines, "\n")[0] == lines[0][0]
  {}

  lemma {:induction false} DropRightTail(a: string, b: string, drop: char -> bool)
    requires b != "" && !drop(b[0])
    ensures DropRight(a + b, drop) == a + DropRight(b, drop)
  {
    var s := a + b;
    assert s[|s| - 1] == b[|b| - 1];
    if drop(b[|b| - 1]) {
      assert s[..|s| - 1] == a + b[..|b| - 1];
      DropRightTail(a, b[..|b| - 1], drop);
    }
  }

  lemma {:induction false} KeptSolid(lines: seq<string>)
    requires forall k | 0 <= k < |lines| :: lines[k] != "" && !IsSpace(lines[k][0])
    ensures |Kept(lines)| == |lines| && forall k | 0 <= k < |lines| :: Kept(lines)[k] == Strip(lines[k])
  {
    if lines != [] {
      StripIs(lines[0]);
      KeptSolid(lines[1..]);
      assert !Blank(lines[0]);
    }
    hide Strip, IsSpace;
  }

  lemma StripOfCut(s: string)
    requires s != "" && !IsSpace(s[0])
    ensures var cut := DropRight(s, IsSpace);
            cut != "" && cut[0] == s[0] && Strip(cut) == Strip(s) == cut && (OneLine(s) ==> OneLine(cut))
  {
    DropRightIs(s, IsSpace);
    DropLeftIs(s);
    StripIs(DropRight(s, IsSpace));
    hide IsSpace, IsLineBreak;
  }

  /** Solid lines joined come back as these lines stripped. */
  lemma JoinedReadsBack(lines: seq<string>)
    requires forall k | 0 <= k < |lines| :: Solid(lines[k])
    ensures var back := Kept(SplitLines(Strip(JoinWith(lines, "\n"))));
            |back| == |lines| && forall k | 0 <= k < |lines| :: back[k] == Strip(lines[k])
  {
    if lines != [] {
      var s, last := JoinWith(lines, "\n"), |lines| - 1;
      JoinStarts(lines);
      DropLeftIs(s);
      JoinedTrimmed(lines, IsSpace);
      StripOfCut(lines[last]);
      var cut := lines[last := DropRight(lines[last], IsSpace)];
      hide DropLeft, DropRight, IsSpace, IsLineBreak, JoinWith, Kept, SplitLines;
      assert Strip(s) == JoinWith(cut, "\n");
      hide Strip;
      forall k | 0 <= k < |cut|
        ensures cut[k] != "" && OneLine(cut[k]) && !IsSpace(cut[k][0]) && Strip(cut[k]) == Strip(lines[k])
      {
        assert Solid(lines[k]);
      }
      SplitJoined(cut);
      KeptSolid(cut);
    }
  }

  // ---- Round trip ----

  predicate Clean(e: Entry, urlOk: string -> bool) { Tidy(e, urlOk) && (e.url != "" ==> e.url[|e.url| - 1] != '|') }

  /** The printed line of a tidy entry starts with its label and holds no break. */
  lemma LineIsSolid(e: Entry, urlOk: string -> bool)
    requires Tidy(e, urlOk)
    ensures Solid(Line(e))
    ensures e.name <= Line(e)
  {
    var s := e.name + " | " + e.url;
    var n := |e.name|;
    DropRightIs(s, Trimming);
    assert s[n - 1] == e.name[n - 1] && e.name[n - 1] in e.name && !Trimming(s[n - 1]);
    assert s[0] == e.name[0];
    assert OneLine(s) by {
      forall k | 0 <= k < |s| ensures !IsLineBreak(s[k]) {
        if k >= n + 3 { assert s[k] == e.url[k - n - 3]; }
      }
    }
    assert s[..n] == e.name;
    hide IsSpace, IsLineBreak;
  }

  /** A clean entry's line is read as the entry. */
  lemma CleanLineReads(e: Entry, urlOk: string -> bool)
    requires Clean(e, urlOk)
    ensures ReadLine(Strip(Line(e)), urlOk) == Ok(e)
  {
    var n := |e.name|;
    var s := e.name + " | " + e.url;
    if e.url == "" {
      assert s == e.name + " | ";
      TrimsBar(e.name);
      assert Line(e) == e.name;
      StripIs(e.name);
      NoBar(e.name, 0);
      assert e.name[..n] == e.name;
    } else {
      assert s[|s| - 1] == e.url[|e.url| - 1] && IsSpace(' ');
      DropRightIs(s, Trimming);
      assert Line(e) == s && Trimmed(s) by { assert s[0] == e.name[0]; }
      StripIs(s);
      BarFound(e.name + " ", " " + e.url, 0);
      assert s == e.name + " " + "|" + (" " + e.url);
      assert s[..n + 1] == e.name + " " && s[n + 2..] == " " + e.url;
      StripPads(e.name, e.url);
    }
    hide Strip, IsSpace, IsLineBreak, DropRight;
  }

  lemma TrimsBar(name: string)
    requires name != "" && Trimmed(name) && '|' !in name
    ensures DropRight(name + " | ", Trimming) == name
  {
    var a := name + " | ";
    assert a[..|a| - 1] == name + " |" && (name + " |")[..|name| + 1] == name + " " && (name + " ")[..|name|] == name;
    assert name[|name| - 1] in name && IsSpace(' ');
    assert DropRight(a, Trimming) == DropRight(name + " |", Trimming) == DropRight(name + " ", Trimming)
      == DropRight(name, Trimming);
  }

  lemma NoBar(s: string, i: nat)
    requires '|' !in s && i <= |s|
    ensures FindChar(s, i, '|') == |s|
  {
    forall k | 0 <= k < |s| ensures s[k] != '|' { assert s[k] in s; }
  }

  lemma BarFound(a: string, b: string, i: nat)
    requires '|' !in a && i <= |a|
    ensures FindChar(a + "|" + b, i, '|') == |a|
  {
    var s := a + "|" + b;
    forall k | 0 <= k < |a| ensures s[k] != '|' { assert s[k] == a[k] && a[k] in a; }
    assert s[|a|] == '|';
  }

  lemma StripPads(name: string, url: string)
    requires name != "" && Trimmed(name) && url != "" && Trimmed(url)
    ensures Strip(name + " ") == name && Strip(" " + url) == url
  {
    var a, b := name + " ", " " + url;
    assert IsSpace(' ');
    DropLeftIs(a);
    assert a[0] == name[0] && a[..|a| - 1] == name;
    DropRightIs(name, IsSpace);
    assert b[1..] == url;
    DropLeftIs(url);
    DropRightIs(url, IsSpace);
  }

  /** A proper prefix of a printed entry, stripped, is read with a shorter address. */
  lemma PrefixReadsShorter(e: Entry, p: string, urlOk: string -> bool)
    requires Tidy(e, urlOk) && e.url != "" && p <= e.name + " | " + e.url && |p| < |e.name| + 3 + |e.url|
    ensures ReadLine(p, urlOk) != Ok(e)
  {
    var n := |e.name|;
    var s := e.name + " | " + e.url;
    if |p| <= n + 1 {
      assert p == s[..|p|];
      assert '|' !in p by {
        forall k | 0 <= k < |p| ensures p[k] != '|' {
          if k < n { assert s[k] == e.name[k] && e.name[k] in e.name; }
        }
      }
      NoBar(p, 0);
    } else {
      var tail := p[n + 2..];
      BarFound(e.name + " ", tail, 0);
      assert p == e.name + " " + "|" + tail;
      if tail != "" { assert tail[0] == s[n + 2] == ' ' && IsSpace(' '); }
      StripIs(tail);
      assert |Strip(tail)| < |e.url|;
    }
    hide Strip, IsSpace, IsLineBreak, FindChar;
  }

  lemma BarLosesUrl(e: Entry, urlOk: string -> bool)
    requires Tidy(e, urlOk) && !Clean(e, urlOk)
    ensures ReadLine(Strip(Line(e)), urlOk) != Ok(e)
  {
    var s := e.name + " | " + e.url;
    assert s[|s| - 1] == e.url[|e.url| - 1];
    DropRightIs(s, Trimming);
    LineIsSolid(e, urlOk);
    DropLeftIs(Line(e));
    DropRightIs(Line(e), IsSpace);
    assert Strip(Line(e)) <= Line(e) <= s;
    hide Strip, IsSpace, IsLineBreak, DropRight, DropLeft;
    PrefixReadsShorter(e, Strip(Line(e)), urlOk);
  }

  /** The printed list is read line by line. */
  lemma PrintedReads(xs: seq<Entry>, urlOk: string -> bool)
    requires forall k | 0 <= k < |xs| :: Tidy(xs[k], urlOk)
    ensures var back := Kept(SplitLines(Strip(Printed(xs))));
            |back| == |xs| && forall k | 0 <= k < |xs| :: back[k] == Strip(Line(xs[k]))
  {
    var lines := LinesOf(xs);
    forall k | 0 <= k < |lines| ensures Solid(lines[k]) { LineIsSolid(xs[k], urlOk); }
    JoinedReadsBack(lines);
    hide Strip, Kept, SplitLines, Solid, Line, Tidy;
  }

  /** Whatever text is read, it gives at most fifty tidy entries. */
  lemma ReadGivesTidy(value: string, urlOk: string -> bool)
    requires Read(value, urlOk).Ok?
    ensures var xs := Read(value, urlOk).value; |xs| <= 50 && forall k | 0 <= k < |xs| :: Tidy(xs[k], urlOk)
  {
    var lines := Kept(SplitLines(Strip(value)));
    SplitOneLine(Strip(value));
    KeptOneLine(SplitLines(Strip(value)));
    ReadEach(lines, |lines|, urlOk);
    hide Strip, Kept, SplitLines, OneLine, Tidy, ReadLine;
    var xs := Read(value, urlOk).value;
    forall k | 0 <= k < |xs| ensures Tidy(xs[k], urlOk) { ReadIsTidy(lines[k], urlOk); }
  }

  /**
   * A list printed and read again is the same list exactly when it has at most fifty entries and each is clean: a
   * trimmed label of one to 200 characters without a bar, an address that is empty or valid, trimmed and does not end
   * in a bar, and no line break in either.
   */
  lemma RoundTrip(xs: seq<Entry>, urlOk: string -> bool)
    ensures Read(Printed(xs), urlOk) == Ok(xs) <==> |xs| <= 50 && forall k | 0 <= k < |xs| :: Clean(xs[k], urlOk)
  {
    var lines := Kept(SplitLines(Strip(Printed(xs))));
    hide Strip, Kept, SplitLines, Printed, ReadLine, Line, Tidy;
    if Read(Printed(xs), urlOk) == Ok(xs) {
      ReadGivesTidy(Printed(xs), urlOk);
      PrintedReads(xs, urlOk);
      ReadEach(lines, |lines|, urlOk);
      forall k | 0 <= k < |xs| ensures Clean(xs[k], urlOk) {
        assert ReadLine(lines[k], urlOk) == Ok(xs[k]);
        if !Clean(xs[k], urlOk) {
          BarLosesUrl(xs[k], urlOk);
          assert false;
        }
      }
    }
    if |xs| <= 50 && forall k | 0 <= k < |xs| :: Clean(xs[k], urlOk) {
      PrintedReads(xs, urlOk);
      forall k | 0 <= k < |xs| ensures ReadLine(lines[k], urlOk) == Ok(xs[k]) { CleanLineReads(xs[k], urlOk); }
      ReadAll(lines, xs, |xs|, urlOk);
      assert xs[..|xs|] == xs;
    }
  }
}
