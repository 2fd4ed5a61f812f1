/**
 * Which HTML is acceptable: the fixed tags, where each may stand, their attributes, and that all are closed in order.
 */
module HtmlNesting {
  import opened Common
  import opened Html
  import Text

  /** Open elements, innermost first. */
  type Stack = seq<string>

  function Top(stack: Stack): string { if stack == [] then "" else stack[0] }

  predicate IsHeading(name: string) { |name| == 2 && name[0] == 'h' && '1' <= name[1] <= '6' }

  /** The elements that hold running text with links, images and code. */
  predicate Prose(name: string) { IsHeading(name) || name in {"p", "li", "th", "td"} }

  predicate MayContain(stack: Stack, child: string) {
    if stack == [] then IsHeading(child) || child in {"p", "ul", "table", "pre"}
    else if Prose(stack[0]) then child in {"img", "a", "code"}
    else
      || (stack[0] == "ul" && child == "li")
      || (stack[0] == "table" && child in {"thead", "tbody"})
      || (stack[0] in {"thead", "tbody"} && child == "tr")
      || (stack[0] == "tr" && |stack| > 1 && child == (if stack[1] == "thead" then "th" else "td"))
      || (stack[0] == "pre" && child == "code")
  }

  /** Text stands in running text, links and code; between blocks only the line breaks that separate them. */
  predicate MayHold(stack: Stack, c: char) {
    Prose(Top(stack)) || Top(stack) in {"a", "code"} || (stack == [] && c == '\n')
  }

  predicate LanguageChar(c: char) { 'A' <= c <= 'Z' || 'a' <= c <= 'z' || '0' <= c <= '9' || c in {'_', '+', '-'} }

  predicate LanguageName(s: string) { s != "" && forall i | 0 <= i < |s| :: LanguageChar(s[i]) }

  predicate LanguageClass(a: Attr) { a.key == "class" && "language-" <= a.val && LanguageName(a.val[9..]) }

  predicate Attributes(stack: Stack, name: string, attrs: seq<Attr>, urlOk: string -> bool) {
    if name == "img" then
      |attrs| == 2 && attrs[0].key == "src" && urlOk(attrs[0].val) && attrs[1].key == "alt" && !Text.Blank(attrs[1].val)
    else if name == "a" then
      |attrs| == 2 && attrs[0].key == "href" && urlOk(attrs[0].val) && attrs[1] == Attr("rel", "noopener noreferrer")
    else if name == "th" then attrs == [Attr("scope", "col")]
    else attrs == [] || (name == "code" && Top(stack) == "pre" && |attrs| == 1 && LanguageClass(attrs[0]))
  }

  /** The elements still open after the events; None once one is misplaced. */
  function Walk(es: seq<Event>, stack: Stack, urlOk: string -> bool): Option<Stack> {
    if es == [] then Some(stack)
    else match Enter(es[0], stack, urlOk)
      case None => None
      case Some(next) => Walk(es[1..], next, urlOk)
  }

  function Enter(e: Event, stack: Stack, urlOk: string -> bool): Option<Stack> {
    match e
    case Open(name, attrs) =>
      if !MayContain(stack, name) || !Attributes(stack, name, attrs, urlOk) then None
      else if name == "img" then Some(stack)
      else Some([name] + stack)
    case Close(name) => if stack != [] && stack[0] == name then Some(stack[1..]) else None
    case Letter(c) => if MayHold(stack, c) then Some(stack) else None
  }

  /** Every element is allowed where it stands and is closed, in order. */
  predicate WellFormed(es: seq<Event>, urlOk: string -> bool) { Walk(es, [], urlOk) == Some([]) }

  lemma {:induction false} WalkConcat(a: seq<Event>, b: seq<Event>, stack: Stack, urlOk: string -> bool)
    ensures Walk(a + b, stack, urlOk)
            == match Walk(a, stack, urlOk) case None => None case Some(next) => Walk(b, next, urlOk)
  {
    if a == [] {
      assert a + b == b;
    } else {
      assert (a + b)[1..] == a[1..] + b && (a + b)[0] == a[0];
      match Enter(a[0], stack, urlOk) {
        case None =>
        case Some(next) => WalkConcat(a[1..], b, next, urlOk);
      }
      hide Enter;
    }
  }

  lemma WalkOne(e: Event, stack: Stack, urlOk: string -> bool)
    ensures Walk([e], stack, urlOk) == Enter(e, stack, urlOk)
  {
    hide Enter;
    match Enter(e, stack, urlOk)
    case None =>
    case Some(next) => assert Walk([e][1..], next, urlOk) == Some(next);
  }

  lemma {:induction false} WalkLetters(s: string, stack: Stack, urlOk: string -> bool)
    requires Prose(Top(stack)) || Top(stack) in {"a", "code"}
    ensures Walk(Letters(s), stack, urlOk) == Some(stack)
  {
    if s != "" {
      WalkLetters(s[1..], stack, urlOk);
      assert Letters(s)[1..] == Letters(s[1..]);
    }
  }

  /** An element around content that may stand inside it may stand wherever the element may. */
  lemma WalkElement(name: string, attrs: seq<Attr>, inner: seq<Event>, stack: Stack, urlOk: string -> bool)
    requires MayContain(stack, name) && Attributes(stack, name, attrs, urlOk) && name != "img"
    requires Walk(inner, [name] + stack, urlOk) == Some([name] + stack)
    ensures Walk([Open(name, attrs)] + inner + [Close(name)], stack, urlOk) == Some(stack)
  {
    WalkConcat([Open(name, attrs)] + inner, [Close(name)], stack, urlOk);
    WalkConcat([Open(name, attrs)], inner, stack, urlOk);
    WalkOne(Open(name, attrs), stack, urlOk);
    WalkOne(Close(name), [name] + stack, urlOk);
    assert ([name] + stack)[1..] == stack;
    hide MayContain, Attributes, Walk;
  }
}
