/** The HTML the renderer writes: events, and their printing with escaped text. */
module Html {
  datatype Attr = Attr(key: string, val: string)

  /** What a reader sees: a tag opened, a tag closed, or one character of text. */
  datatype Event = Open(name: string, attrs: seq<Attr>) | Close(name: string) | Letter(c: char)

  // ---- Printing ----

  /** `html.escape` on one character, quotes included. */
  function EscapeChar(c: char): string {
    match c
    case '&' => "&amp;"
    case '<' => "&lt;"
    case '>' => "&gt;"
    case '"' => "&quot;"
    case '\'' => "&#x27;"
    case _ => [c]
  }

  function Escape(s: string): string {
    if s == "" then "" else EscapeChar(s[0]) + Escape(s[1..])
  }

  function PrintAttr(a: Attr): string { " " + a.key + "=\"" + Escape(a.val) + "\"" }

  function PrintAttrs(attrs: seq<Attr>): string {
    if attrs == [] then "" else PrintAttr(attrs[0]) + PrintAttrs(attrs[1..])
  }

  function TagText(e: Event): string
    requires !e.Letter?
  {
    match e
    case Open(name, attrs) => name + PrintAttrs(attrs) + ">"
    case Close(name) => "/" + name + ">"
  }

  function PrintEvent(e: Event): string {
    if e.Letter? then EscapeChar(e.c) else "<" + TagText(e)
  }

  function Print(es: seq<Event>): string {
    if es == [] then "" else PrintEvent(es[0]) + Print(es[1..])
  }

  function Letters(s: string): seq<Event> { seq(|s|, i requires 0 <= i < |s| => Letter(s[i])) }

  // ---- Composition ----

  lemma {:induction false} PrintConcat(a: seq<Event>, b: seq<Event>)
    ensures Print(a + b) == Print(a) + Print(b)
  {
    hide PrintEvent;
    if a == [] {
      assert a + b == b;
    } else {
      assert (a + b)[1..] == a[1..] + b && (a + b)[0] == a[0];
      PrintConcat(a[1..], b);
      Associative(PrintEvent(a[0]), Print(a[1..]), Print(b));
    }
  }

  lemma Associative(a: string, b: string, c: string)
    ensures (a + b) + c == a + (b + c)
  {}

  lemma {:induction false} PrintLetters(s: string)
    ensures Print(Letters(s)) == Escape(s)
  {
    if s != "" {
      PrintLetters(s[1..]);
      assert Letters(s)[1..] == Letters(s[1..]);
      hide EscapeChar;
    }
  }

  lemma PrintOne(e: Event)
    ensures Print([e]) == PrintEvent(e)
  {
    assert Print([e]) == PrintEvent(e) + Print([]);
    hide PrintEvent;
  }
}
