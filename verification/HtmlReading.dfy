/** A reader of HTML that knows nothing of the printer, and that it recovers whatever was printed. */
module HtmlReading {
  import opened Common
  import opened Html

  predicate NameChar(c: char) { 'a' <= c <= 'z' || '0' <= c <= '9' }

  predicate IsName(s: string) { s != "" && forall i | 0 <= i < |s| :: NameChar(s[i]) }

  function NameEnd(s: string, i: nat): (j: nat)
    requires i <= |s|
    ensures i <= j <= |s|
    decreases |s| - i
  {
    if i < |s| && NameChar(s[i]) then NameEnd(s, i + 1) else i
  }

  /** One character of text or of an attribute value; markup characters only count when they are escaped. */
  function ReadChar(s: string): (r: Option<(char, string)>)
    ensures r.Some? ==> |r.value.1| < |s|
  {
    if s == "" then None
    else if s[0] == '&' then
      if "&amp;" <= s then Some(('&', s[5..]))
      else if "&lt;" <= s then Some(('<', s[4..]))
      else if "&gt;" <= s then Some(('>', s[4..]))
      else if "&quot;" <= s then Some(('"', s[6..]))
      else if "&#x27;" <= s then Some(('\'', s[6..]))
      else None
    else if s[0] in {'<', '>', '"', '\''} then None
    else Some((s[0], s[1..]))
  }

  function ReadValue(s: string): (r: Option<(string, string)>)
    ensures r.Some? ==> |r.value.1| < |s|
    decreases |s|
  {
    if s != "" && s[0] == '"' then Some(("", s[1..]))
    else match ReadChar(s)
      case None => None
      case Some((c, rest)) =>
        match ReadValue(rest)
        case None => None
        case Some((val, after)) => Some(([c] + val, after))
  }

  function ReadAttrs(s: string): (r: Option<(seq<Attr>, string)>)
    ensures r.Some? ==> |r.value.1| < |s|
    decreases |s|
  {
    if s == "" then None
    else if s[0] == '>' then Some(([], s[1..]))
    else if s[0] != ' ' then None
    else
      var n := NameEnd(s, 1);
      if n == 1 || !("=\"" <= s[n..]) then None
      else match ReadValue(s[n + 2..])
        case None => None
        case Some((val, rest)) =>
          match ReadAttrs(rest)
          case None => None
          case Some((attrs, after)) => Some(([Attr(s[1..n], val)] + attrs, after))
  }

  /** What follows a `<`. */
  function ReadTag(s: string): (r: Option<(Event, string)>)
    ensures r.Some? ==> |r.value.1| < |s|
  {
    if s != "" && s[0] == '/' then
      var n := NameEnd(s, 1);
      if n == 1 || n == |s| || s[n] != '>' then None else Some((Close(s[1..n]), s[n + 1..]))
    else
      var n := NameEnd(s, 0);
      if n == 0 then None
      else match ReadAttrs(s[n..])
        case None => None
        case Some((attrs, rest)) => Some((Open(s[..n], attrs), rest))
  }

  function ReadEvent(s: string): (r: Option<(Event, string)>)
    ensures r.Some? ==> |r.value.1| < |s|
  {
    if s != "" && s[0] == '<' then ReadTag(s[1..])
    else match ReadChar(s)
      case None => None
      case Some((c, rest)) => Some((Letter(c), rest))
  }

  function Read(s: string): Option<seq<Event>>
    decreases |s|
  {
    if s == "" then Some([])
    else match ReadEvent(s)
      case None => None
      case Some((e, rest)) =>
        match Read(rest)
        case None => None
        case Some(es) => Some([e] + es)
  }

  // ---- Reading back what was printed ----

  predicate Nameable(e: Event) {
    match e
    case Open(name, attrs) => IsName(name) && forall i | 0 <= i < |attrs| :: IsName(attrs[i].key)
    case Close(name) => IsName(name)
    case Letter(_) => true
  }

  lemma CharReadsBack(c: char, rest: string)
    ensures ReadChar(EscapeChar(c) + rest) == Some((c, rest))
    ensures EscapeChar(c) != "" && EscapeChar(c)[0] !in {'<', '>', '"', '\''}
  {
    var e := EscapeChar(c);
    assert (e + rest)[|e|..] == rest;
    assert e <= e + rest;
    if c == '&' || c == '<' || c == '>' || c == '"' || c == '\'' {
      assert e[1] == (e + rest)[1] && e[2] == (e + rest)[2];
    }
  }

  lemma {:induction false} ValueReadsBack(val: string, rest: string)
    ensures ReadValue(Escape(val) + "\"" + rest) == Some((val, rest))
  {
    var s := Escape(val) + "\"" + rest;
    if val == "" {
      assert s == "\"" + rest && s[1..] == rest;
    } else {
      var tail := Escape(val[1..]) + "\"" + rest;
      assert s == EscapeChar(val[0]) + tail;
      CharReadsBack(val[0], tail);
      ValueReadsBack(val[1..], rest);
      assert s[0] == EscapeChar(val[0])[0];
      assert val == [val[0]] + val[1..];
      hide EscapeChar, ReadChar;
    }
  }

  lemma {:induction false} NameEndsAt(s: string, i: nat, n: nat)
    requires i <= n <= |s| && (forall k | i <= k < n :: NameChar(s[k])) && (n < |s| ==> !NameChar(s[n]))
    ensures NameEnd(s, i) == n
    decreases n - i
  {
    if i < n { NameEndsAt(s, i + 1, n); }
  }

  /** A name between one character before it and more text after it is found whole. */
  lemma NameFound(s: string, before: string, name: string, after: string)
    requires s == before + name + after && IsName(name) && after != "" && !NameChar(after[0])
    ensures var n := |before| + |name|;
            NameEnd(s, |before|) == n && s[|before|..n] == name && s[n..] == after && n < |s| && s[n] == after[0]
  {
    var n := |before| + |name|;
    forall k | |before| <= k < n ensures NameChar(s[k]) { assert s[k] == name[k - |before|]; }
    assert s[n] == after[0];
    NameEndsAt(s, |before|, n);
  }

  lemma AttrParts(key: string, escaped: string, tail: string)
    requires IsName(key)
    ensures var s := " " + key + "=\"" + escaped + "\"" + tail; var n := 1 + |key|;
            && s != "" && s[0] == ' ' && n > 1 && NameEnd(s, 1) == n && n + 2 <= |s| && s[1..n] == key
              && "=\"" <= s[n..] && s[n + 2..] == escaped + "\"" + tail
  {
    var quoted := escaped + "\"" + tail;
    var after := "=\"" + quoted;
    Regroup(" ", key, "=\"", escaped, "\"", tail);
    NameFound(" " + key + after, " ", key, after);
    hide IsName, NameChar, NameEnd;
    assert (" " + key + after)[1 + |key| + 2..] == after[2..] == quoted;
  }

  lemma Regroup(a: string, b: string, c: string, d: string, e: string, f: string)
    ensures a + b + c + d + e + f == a + b + (c + (d + e + f))
  {}

  lemma OneAttrReadsBack(a: Attr, tail: string)
    requires IsName(a.key)
    ensures ReadAttrs(PrintAttr(a) + tail)
            == match ReadAttrs(tail) case None => None case Some((attrs, after)) => Some(([a] + attrs, after))
  {
    hide Escape, ReadValue, NameEnd, NameChar, IsName;
    AttrParts(a.key, Escape(a.val), tail);
    ValueReadsBack(a.val, tail);
    assert a == Attr(a.key, a.val);
  }

  lemma {:induction false} AttrsReadBack(attrs: seq<Attr>, rest: string)
    requires forall i | 0 <= i < |attrs| :: IsName(attrs[i].key)
    ensures ReadAttrs(PrintAttrs(attrs) + ">" + rest) == Some((attrs, rest))
  {
    hide ReadAttrs, PrintAttr, IsName;
    if attrs == [] {
      assert "" + ">" + rest == ">" + rest;
      NoAttrs(rest);
    } else {
      var tail := PrintAttrs(attrs[1..]) + ">" + rest;
      Grouped(PrintAttr(attrs[0]), PrintAttrs(attrs[1..]), ">", rest);
      AttrsReadBack(attrs[1..], rest);
      OneAttrReadsBack(attrs[0], tail);
      assert attrs == [attrs[0]] + attrs[1..];
    }
  }

  lemma NoAttrs(rest: string)
    ensures ReadAttrs(">" + rest) == Some(([], rest))
  {
    assert (">" + rest)[1..] == rest;
  }

  lemma Grouped(a: string, b: string, c: string, d: string)
    ensures a + b + c + d == a + (b + c + d)
  {}

  lemma CloseReadsBack(name: string, rest: string)
    requires IsName(name)
    ensures ReadTag("/" + name + ">" + rest) == Some((Close(name), rest))
  {
    var t := "/" + name + ">" + rest;
    assert t == "/" + name + (">" + rest);
    NameFound(t, "/", name, ">" + rest);
    assert t[2 + |name|..] == rest;
    hide NameEnd, IsName;
  }

  lemma AttrsStart(attrs: seq<Attr>, rest: string)
    ensures var after := PrintAttrs(attrs) + ">" + rest; after != "" && after[0] in {' ', '>'} && !NameChar(after[0])
  {
    if attrs != [] {
      assert PrintAttr(attrs[0])[0] == ' ';
      hide PrintAttr;
      assert PrintAttrs(attrs)[0] == ' ';
    }
  }

  lemma OpenReadsBack(name: string, attrs: seq<Attr>, rest: string)
    requires IsName(name) && forall i | 0 <= i < |attrs| :: IsName(attrs[i].key)
    ensures ReadTag(name + PrintAttrs(attrs) + ">" + rest) == Some((Open(name, attrs), rest))
  {
    hide *;
    var after := PrintAttrs(attrs) + ">" + rest;
    AttrsReadBack(attrs, rest);
    AttrsStart(attrs, rest);
    Grouped(name, PrintAttrs(attrs), ">", rest);
    OpenTag(name, after, attrs, rest);
  }

  lemma OpenTag(name: string, after: string, attrs: seq<Attr>, rest: string)
    requires IsName(name) && after != "" && !NameChar(after[0]) && ReadAttrs(after) == Some((attrs, rest))
    ensures ReadTag(name + after) == Some((Open(name, attrs), rest))
  {
    var t := name + after;
    assert t[0] == name[0] && NameChar(name[0]);
    hide IsName;
    assert "" + name == name && t == "" + name + after;
    NameFound(t, "", name, after);
    hide NameEnd, ReadAttrs;
  }

  lemma EventReadsBack(e: Event, rest: string)
    requires Nameable(e)
    ensures ReadEvent(PrintEvent(e) + rest) == Some((e, rest))
    ensures PrintEvent(e) != ""
  {
    match e
    case Letter(c) =>
      CharReadsBack(c, rest);
      assert (EscapeChar(c) + rest)[0] == EscapeChar(c)[0];
    case Close(name) =>
      TagReadsBack(TagText(e), rest);
      CloseReadsBack(name, rest);
      hide ReadTag, ReadEvent;
    case Open(name, attrs) =>
      TagReadsBack(TagText(e), rest);
      OpenReadsBack(name, attrs, rest);
      hide ReadTag, ReadEvent;
  }

  lemma TagReadsBack(inner: string, rest: string)
    ensures ReadEvent("<" + inner + rest) == ReadTag(inner + rest)
  {
    var s := "<" + inner + rest;
    assert s[0] == '<' && s[1..] == inner + rest;
    hide ReadTag, ReadChar;
  }

  /** A reader sees exactly the printed events: no text is taken for markup, and none is lost. */
  lemma {:induction false} PrintReadsBack(es: seq<Event>)
    requires forall i | 0 <= i < |es| :: Nameable(es[i])
    ensures Read(Print(es)) == Some(es)
  {
    if es != [] {
      hide PrintEvent, ReadEvent, Nameable;
      var e, rest := es[0], es[1..];
      assert es == [e] + rest;
      assert forall i | 0 <= i < |rest| :: rest[i] == es[i + 1];
      EventReadsBack(e, Print(rest));
      PrintReadsBack(rest);
      var s := PrintEvent(e) + Print(rest);
      assert s != "" && Read(s) == Some([e] + rest);
    }
  }

  // ---- Escaped text ----

  lemma CharUnmarked(c: char)
    ensures forall i | 0 <= i < |EscapeChar(c)| :: EscapeChar(c)[i] !in {'<', '>', '"', '\''}
  {}

  /** `html.unescape` of escaped text, by the reader's own rule. */
  function Unescape(s: string): Option<string>
    decreases |s|
  {
    if s == "" then Some("")
    else match ReadChar(s)
      case None => None
      case Some((c, rest)) =>
        match Unescape(rest)
        case None => None
        case Some(t) => Some([c] + t)
  }

  lemma {:induction false} UnescapeEscape(s: string)
    ensures Unescape(Escape(s)) == Some(s)
  {
    if s != "" {
      hide EscapeChar, ReadChar;
      UnescapeEscape(s[1..]);
      var e, t := EscapeChar(s[0]), Escape(s[1..]);
      CharReadsBack(s[0], t);
      assert Escape(s) == e + t && e + t != "";
      assert Unescape(e + t) == Some([s[0]] + s[1..]);
      assert s == [s[0]] + s[1..];
    }
  }

  /** No markup character is left raw. */
  lemma {:induction false} EscapedHoldsNoMarkup(s: string)
    ensures forall i | 0 <= i < |Escape(s)| :: Escape(s)[i] !in {'<', '>', '"', '\''}
  {
    if s != "" {
      EscapedHoldsNoMarkup(s[1..]);
      var e, t := EscapeChar(s[0]), Escape(s[1..]);
      CharUnmarked(s[0]);
      hide EscapeChar, Escape;
      forall i | 0 <= i < |e + t| ensures (e + t)[i] !in {'<', '>', '"', '\''} {
        if i >= |e| { assert (e + t)[i] == t[i - |e|]; }
      }
    }
  }
}
