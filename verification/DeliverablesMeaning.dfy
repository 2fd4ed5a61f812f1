/** What a typed list of deliverables says, line by line, stated on its characters. */
module DeliverablesMeaning {
  import opened Common
  import opened Text
  import TextPatterns
  import opened Deliverables

  // ---- Lines ----

  /** The breaks of the standard library, character by character. */
  lemma BreaksAre(c: char)
    ensures IsLineBreak(c) <==>
            c in {'\n', '\U{0B}', '\U{0C}', '\r', '\U{1C}', '\U{1D}', '\U{1E}', '\U{85}', '\U{2028}', '\U{2029}'}
  {}

  /** Lines with the breaks between them and, if there are as many breaks as lines, one behind the last. */
  function Woven(lines: seq<string>, breaks: seq<string>): string {
    if lines == [] then ""
    else if breaks == [] then lines[0]
    else lines[0] + breaks[0] + Woven(lines[1..], breaks[1..])
  }

  predicate OneBreak(b: string) { b == "\r\n" || (|b| == 1 && IsLineBreak(b[0])) }

  /** What starts with a line feed. */
  predicate Feeds(s: string) { s != "" && s[0] == '\n' }

  /**
   * The text is the lines and breaks; no line holds a break, a carriage return before a line feed is one break with it,
   * and there is no empty line at the end.
   */
  ghost predicate Falls(s: string, lines: seq<string>, breaks: seq<string>)
    decreases |lines|
  {
    if lines == [] then s == "" && breaks == []
    else
      && (forall k | 0 <= k < |lines[0]| :: !IsLineBreak(lines[0][k]))
      && if breaks == [] then |lines| == 1 && lines[0] != "" && s == lines[0]
         else
           && OneBreak(breaks[0]) && lines[0] + breaks[0] <= s
           && var rest := s[|lines[0]| + |breaks[0]|..];
              (breaks[0] == "\r" ==> !Feeds(rest)) && Falls(rest, lines[1..], breaks[1..])
  }

  lemma {:induction false} LinesFall(s: string) returns (breaks: seq<string>)
    ensures Falls(s, SplitLines(s), breaks)
    decreases |s|
  {
    hide IsLineBreak, Falls;
    if s == "" {
      NothingFalls();
      breaks := [];
    } else {
      var i := BreakAt(s, 0);
      if i == |s| {
        OneFalls(s);
        breaks := [];
      } else {
        var b := FirstBreak(s, i);
        var more := LinesFall(s[i + |b|..]);
        FirstFalls(s, i, SplitLines(s[i + |b|..]), more);
        breaks := [b] + more;
      }
    }
  }

  lemma NothingFalls()
    ensures Falls("", SplitLines(""), [])
  {}

  lemma OneFalls(s: string)
    requires s != "" && BreakAt(s, 0) == |s|
    ensures Falls(s, SplitLines(s), [])
  {
    hide IsLineBreak;
    assert SplitLines(s) == [s];
  }

  /** The break that starts at a place. */
  function FirstBreak(s: string, i: nat): (b: string)
    requires i < |s|
    ensures b != "" && i + |b| <= |s|
  {
    if s[i] == '\r' && i + 1 < |s| && s[i + 1] == '\n' then s[i..i + 2] else s[i..i + 1]
  }

  lemma FirstFalls(s: string, i: nat, lines: seq<string>, breaks: seq<string>)
    requires i < |s| && i == BreakAt(s, 0)
    requires var rest := s[i + |FirstBreak(s, i)|..]; lines == SplitLines(rest) && Falls(rest, lines, breaks)
    ensures Falls(s, SplitLines(s), [FirstBreak(s, i)] + breaks)
  {
    var b := FirstBreak(s, i);
    var rest := s[i + |b|..];
    BreakIs(s, i, b, rest);
    hide IsLineBreak;
    assert SplitLines(s) == [s[..i]] + lines;
    hide SplitLines, FirstBreak, BreakAt;
    CutsFall(s, i, b, lines, breaks);
  }

  lemma CutsFall(s: string, i: nat, b: string, lines: seq<string>, breaks: seq<string>)
    requires i + |b| <= |s| && b == s[i..i + |b|] && (forall k | 0 <= k < i :: !IsLineBreak(s[k]))
    requires var rest := s[i + |b|..]; OneBreak(b) && (b == "\r" ==> !Feeds(rest)) && Falls(rest, lines, breaks)
    ensures Falls(s, [s[..i]] + lines, [b] + breaks)
  {
    hide IsLineBreak, OneBreak;
    var all, more := [s[..i]] + lines, [b] + breaks;
    assert all[1..] == lines && more[1..] == breaks;
    assert all[0] + b == s[..i + |b|];
  }

  lemma BreakIs(s: string, i: nat, b: string, rest: string)
    requires i < |s| && IsLineBreak(s[i])
    requires var pair := s[i] == '\r' && i + 1 < |s| && s[i + 1] == '\n';
             b == (if pair then s[i..i + 2] else s[i..i + 1]) && rest == s[i + |b|..]
    ensures OneBreak(b) && (b == "\r" ==> !Feeds(rest))
  {}

  // ---- Entries ----

  /** What is before the first bar, and what is after it. */
  ghost predicate Parts(line: string, before: string, after: string) {
    && '|' !in before
    && ((line == before && after == "") || line == before + "|" + after)
  }

  /** The label is what is before the first bar and the address what is after it, each without outer whitespace. */
  ghost predicate Says(line: string, name: string, url: string) {
    exists before, after ::
      && Parts(line, before, after)
      && TextPatterns.Trimmed(before, name, IsSpace) && TextPatterns.Trimmed(after, url, IsSpace)
  }

  /** A line is refused for a missing label, else for one over 200 characters, else for an address that is not valid. */
  lemma LineMeans(line: string, urlOk: string -> bool) returns (name: string, url: string)
    ensures Says(line, name, url)
    ensures ReadLine(line, urlOk) ==
            if name == "" then Err(NoLabel)
            else if |name| >= 201 then Err(LongLabel)
            else if url == "" || urlOk(url) then Ok(Entry(name, url))
            else Err(BadUrl)
  {
    var i := FindChar(line, 0, '|');
    EmptyStrip();
    FirstBarParts(line, i);
    hide Strip, Parts;
    name, url := Strip(line[..i]), if i < |line| then Strip(line[i + 1..]) else "";
    PartsSay(line, line[..i], if i < |line| then line[i + 1..] else "");
    hide Says;
  }

  lemma PartsSay(line: string, before: string, after: string)
    requires Parts(line, before, after)
    ensures Says(line, Strip(before), Strip(after))
  {
    TextPatterns.StripTrims(before);
    TextPatterns.StripTrims(after);
    hide Strip, TextPatterns.Trimmed, Parts;
  }

  lemma FirstBarParts(line: string, i: nat)
    requires i <= |line| && (forall k | 0 <= k < i :: line[k] != '|') && (i < |line| ==> line[i] == '|')
    ensures Parts(line, line[..i], if i < |line| then line[i + 1..] else "")
  {
    if i < |line| {
      assert line == line[..i] + line[i..i + 1] + line[i + 1..];
      assert line[i..i + 1] == "|";
    } else {
      assert line == line[..i];
    }
  }

  lemma EmptyStrip()
    ensures Strip("") == ""
  {}

  // ---- The list ----

  /** `at` are the places of the lines with more than whitespace, in order, and `kept` these lines stripped. */
  ghost predicate KeepsAt(lines: seq<string>, kept: seq<string>, at: seq<nat>) {
    && |at| == |kept| && (forall j, k | 0 <= j < k < |at| :: at[j] < at[k])
    && (forall k | 0 <= k < |at| :: at[k] < |lines| && kept[k] == Strip(lines[at[k]]))
    && forall i: nat :: i in at <==> i < |lines| && TextPatterns.Worded(lines[i])
  }

  lemma {:induction false} KeptMeans(lines: seq<string>) returns (at: seq<nat>)
    ensures KeepsAt(lines, Kept(lines), at)
  {
    if lines == [] {
      at := [];
    } else {
      var rest := KeptMeans(lines[1..]);
      var later := seq(|rest|, k requires 0 <= k < |rest| => rest[k] + 1);
      TextPatterns.BlankIs(lines[0]);
      hide Blank, Strip, TextPatterns.Worded, KeepsAt;
      KeptLater(lines, Kept(lines[1..]), rest, later);
      at := if Blank(lines[0]) then later else [0] + later;
    }
  }

  lemma KeptLater(lines: seq<string>, kept: seq<string>, rest: seq<nat>, later: seq<nat>)
    requires lines != [] && KeepsAt(lines[1..], kept, rest)
    requires |later| == |rest| && forall k | 0 <= k < |rest| :: later[k] == rest[k] + 1
    ensures if TextPatterns.Worded(lines[0]) then KeepsAt(lines, [Strip(lines[0])] + kept, [0] + later)
            else KeepsAt(lines, kept, later)
  {
    hide Strip, TextPatterns.Worded;
    forall i: nat | i < |lines| ensures i > 0 ==> lines[i] == lines[1..][i - 1] {}
    forall i: nat ensures i in later <==> i > 0 && i - 1 in rest { LaterHolds(rest, later, i); }
    forall k | 0 <= k < |later| ensures later[k] < |lines| && kept[k] == Strip(lines[later[k]]) {
      assert lines[later[k]] == lines[1..][rest[k]];
    }
  }

  lemma LaterHolds(rest: seq<nat>, later: seq<nat>, i: nat)
    requires |later| == |rest| && forall k | 0 <= k < |rest| :: later[k] == rest[k] + 1
    ensures i in later <==> i > 0 && i - 1 in rest
  {
    if i > 0 && i - 1 in rest {
      var k :| 0 <= k < |rest| && rest[k] == i - 1;
      assert later[k] == i;
    }
  }

  /** The whole list, read line by line up to the first one refused; more than fifty lines are refused before. */
  lemma {:induction false} LinesRead(lines: seq<string>, n: nat, urlOk: string -> bool)
    requires n <= |lines|
    ensures match ReadLines(lines, n, urlOk)
            case Ok(xs) => |xs| == n && forall k | 0 <= k < n :: ReadLine(lines[k], urlOk) == Ok(xs[k])
            case Err(e) => exists k | 0 <= k < n :: ReadLine(lines[k], urlOk) == Err(e)
                                                    && forall j | 0 <= j < k :: ReadLine(lines[j], urlOk).Ok?
  {
    hide ReadLine;
    if n > 0 { LinesRead(lines, n - 1, urlOk); }
  }

  lemma ReadMeans(value: string, urlOk: string -> bool)
    ensures var lines := Kept(SplitLines(Strip(value)));
            match Read(value, urlOk)
            case Ok(xs) => |xs| == |lines| <= 50
              && forall k | 0 <= k < |lines| :: ReadLine(lines[k], urlOk) == Ok(xs[k])
            case Err(e) =>
              if |lines| >= 51 then e == TooMany
              else exists k | 0 <= k < |lines| :: ReadLine(lines[k], urlOk) == Err(e)
                                                  && forall j | 0 <= j < k :: ReadLine(lines[j], urlOk).Ok?
  {
    var lines := Kept(SplitLines(Strip(value)));
    LinesRead(lines, |lines|, urlOk);
    hide ReadLine, ReadLines, Kept, SplitLines, Strip;
  }
}
