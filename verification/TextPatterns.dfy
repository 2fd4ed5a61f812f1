/** What stripping does to a text, stated on its characters. */
module TextPatterns {
  import opened Text

  // ---- Stripping ----

  /** The whitespace of the standard library, character by character. */
  lemma SpacesAre(c: char)
    ensures IsSpace(c) <==>
            c in {'\t', '\n', '\U{0B}', '\U{0C}', '\r', '\U{1C}', '\U{1D}', '\U{1E}', '\U{1F}', ' ', '\U{85}', '\U{A0}',
                  '\U{1680}', '\U{2000}', '\U{2001}', '\U{2002}', '\U{2003}', '\U{2004}', '\U{2005}', '\U{2006}',
                  '\U{2007}', '\U{2008}', '\U{2009}', '\U{200A}', '\U{2028}', '\U{2029}', '\U{202F}', '\U{205F}',
                    '\U{3000}'}
  {}

  /** `t` is `s` without the longest stretches of dropped characters at both ends. */
  ghost predicate Trimmed(s: string, t: string, drop: char -> bool) {
    exists i: nat, j: nat :: TrimmedAt(s, t, drop, i, j)
  }

  predicate TrimmedAt(s: string, t: string, drop: char -> bool, i: nat, j: nat) {
    && i <= j <= |s| && t == s[i..j]
    && (forall k | 0 <= k < i :: drop(s[k])) && (forall k | j <= k < |s| :: drop(s[k]))
    && (i < j ==> !drop(s[i]) && !drop(s[j - 1]))
  }

  lemma {:induction false} LeftTrims(s: string, drop: char -> bool)
    ensures var t := DropLeft(s, drop); var n := |s| - |t|;
            n >= 0 && t == s[n..] && (forall k | 0 <= k < n :: drop(s[k])) && (t != "" ==> !drop(t[0]))
  {
    if s != "" && drop(s[0]) {
      var rest := s[1..];
      LeftTrims(rest, drop);
      var n := |rest| - |DropLeft(rest, drop)|;
      assert rest[n..] == s[n + 1..];
      forall k | 0 <= k < n + 1 ensures drop(s[k]) {
        if k > 0 { assert s[k] == rest[k - 1]; }
      }
    } else {
      assert s == s[0..];
    }
  }

  lemma {:induction false} RightTrims(s: string, drop: char -> bool)
    ensures var t := DropRight(s, drop); var n := |t|;
            n <= |s| && t == s[..n] && (forall k | n <= k < |s| :: drop(s[k])) && (t != "" ==> !drop(t[n - 1]))
  {
    if s != "" && drop(s[|s| - 1]) {
      RightTrims(s[..|s| - 1], drop);
      var n := |DropRight(s[..|s| - 1], drop)|;
      assert s[..|s| - 1][..n] == s[..n];
    } else {
      assert s == s[..|s|];
    }
  }

  lemma BothTrim(s: string, drop: char -> bool)
    ensures Trimmed(s, DropRight(DropLeft(s, drop), drop), drop)
  {
    var u := DropLeft(s, drop);
    var t := DropRight(u, drop);
    LeftTrims(s, drop);
    RightTrims(u, drop);
    hide DropLeft, DropRight;
    Trims(s, u, t, drop);
  }

  lemma Trims(s: string, u: string, t: string, drop: char -> bool)
    requires |t| <= |u| <= |s| && u == s[|s| - |u|..] && t == u[..|t|]
    requires forall k | 0 <= k < |s| - |u| :: drop(s[k])
    requires forall k | |t| <= k < |u| :: drop(u[k])
    requires (u != "" ==> !drop(u[0])) && (t != "" ==> !drop(t[|t| - 1]))
    ensures TrimmedAt(s, t, drop, |s| - |u|, |s| - |u| + |t|)
  {
    var i := |s| - |u|;
    assert forall k | 0 <= k < |u| :: u[k] == s[i + k];
    forall k | i + |t| <= k < |s| ensures drop(s[k]) { assert u[k - i] == s[k]; }
    assert t != "" ==> s[i] == u[0] && s[i + |t| - 1] == t[|t| - 1];
  }

  /** Stripping takes away all whitespace at both ends and nothing else. */
  lemma StripTrims(s: string)
    ensures Trimmed(s, Strip(s), IsSpace)
  {
    BothTrim(s, IsSpace);
  }

  lemma TrimmedUnique(s: string, t: string, u: string, drop: char -> bool)
    requires Trimmed(s, t, drop) && Trimmed(s, u, drop)
    ensures t == u
  {
    var i: nat, j: nat :| TrimmedAt(s, t, drop, i, j);
    var m: nat, n: nat :| TrimmedAt(s, u, drop, m, n);
    if i < j {
      assert m <= i && j <= n;
      assert i <= m && n <= j;
    }
  }

  lemma SameStrip(s: string, m: string, i: nat, j: nat)
    requires TrimmedAt(s, m, IsSpace, i, j)
    ensures Strip(s) == m
  {
    StripTrims(s);
    TrimmedUnique(s, m, Strip(s), IsSpace);
  }

  lemma StripAgain(s: string)
    ensures Strip(Strip(s)) == Strip(s)
  {
    var t := Strip(s);
    StripTrims(s);
    StripTrims(t);
    var i: nat, j: nat :| TrimmedAt(s, t, IsSpace, i, j);
    assert i < j ==> t[0] == s[i] && t[|t| - 1] == s[j - 1];
    assert TrimmedAt(t, t, IsSpace, 0, |t|);
    TrimmedUnique(t, t, Strip(t), IsSpace);
  }

  /** Something other than whitespace is there. */
  predicate Worded(line: string) { exists k | 0 <= k < |line| :: !IsSpace(line[k]) }

  lemma BlankIs(line: string)
    ensures Blank(line) <==> !Worded(line)
  {
    StripTrims(line);
    var i: nat, j: nat :| TrimmedAt(line, Strip(line), IsSpace, i, j);
    hide Strip, IsSpace;
    if Strip(line) != "" { assert !IsSpace(line[i]); }
  }
}
