/** Strings as the program's standard library treats them: whitespace, stripping, splitting and joining. */
module Text {

  /** `str.isspace` on one character, also what `\s` matches. */
  predicate IsSpace(c: char) {
    || '\t' <= c <= '\r' || '\U{1C}' <= c <= ' '
    || c == '\U{85}' || c == '\U{A0}' || c == '\U{1680}' || '\U{2000}' <= c <= '\U{200A}'
    || c == '\U{2028}' || c == '\U{2029}' || c == '\U{202F}' || c == '\U{205F}' || c == '\U{3000}'
  }

  /** The characters `str.splitlines` breaks at. */
  predicate IsLineBreak(c: char) {
    || '\n' <= c <= '\r' || '\U{1C}' <= c <= '\U{1E}' || c == '\U{85}' || c == '\U{2028}' || c == '\U{2029}'
  }

  function DropLeft(s: string, drop: char -> bool): string {
    if s != [] && drop(s[0]) then DropLeft(s[1..], drop) else s
  }

  function DropRight(s: string, drop: char -> bool): string {
    if s != [] && drop(s[|s| - 1]) then DropRight(s[..|s| - 1], drop) else s
  }

  /** `s.strip()`. */
  function Strip(s: string): string { DropRight(DropLeft(s, IsSpace), IsSpace) }

  predicate Blank(s: string) { Strip(s) == "" }

  /** `sep.join(parts)`. */
  function JoinWith(parts: seq<string>, sep: string): string {
    if parts == [] then "" else if |parts| == 1 then parts[0] else parts[0] + sep + JoinWith(parts[1..], sep)
  }

  /** The first occurrence of `c` from position `i`, or the end. */
  function FindChar(s: string, i: nat, c: char): (j: nat)
    requires i <= |s|
    ensures i <= j <= |s| && (j < |s| ==> s[j] == c) && forall k | i <= k < j :: s[k] != c
    decreases |s| - i
  {
    if i < |s| && s[i] != c then FindChar(s, i + 1, c) else i
  }
}
