/**
 * The Python string operations the repair loop relies on: the `in`
 * operator on strings, `str.replace` (all non-overlapping occurrences,
 * scanned left to right) and `str.strip()` with no argument.
 */
module Text {

  /** `pre` is a prefix of `s` (Python's `s.startswith(pre)`). */
  predicate StartsWith(s: string, pre: string) {
    |pre| <= |s| && s[..|pre|] == pre
  }

  /** Python's `sub in s`: some window of `s` equals `sub`. */
  predicate Contains(s: string, sub: string)
    decreases |s|
  {
    StartsWith(s, sub) || (s != [] && Contains(s[1..], sub))
  }

  /** Nothing longer than the text can occur in it. */
  lemma {:induction false} ContainsFits(s: string, sub: string)
    requires Contains(s, sub)
    ensures |sub| <= |s|
    decreases |s|
  {
    if !StartsWith(s, sub) {
      ContainsFits(s[1..], sub);
    }
  }

  /** Containment stated by position: the window starting at some index `i` is `sub`. */
  lemma {:induction false} ContainsAtSomeIndex(s: string, sub: string)
    ensures Contains(s, sub) <==> exists i :: 0 <= i <= |s| && StartsWith(s[i..], sub)
    decreases |s|
  {
    if Contains(s, sub) {
      if StartsWith(s, sub) {
        assert s[0..] == s;
      } else {
        ContainsAtSomeIndex(s[1..], sub);
        var i :| 0 <= i <= |s[1..]| && StartsWith(s[1..][i..], sub);
        assert s[1..][i..] == s[i + 1..];
      }
    }
    if exists i :: 0 <= i <= |s| && StartsWith(s[i..], sub) {
      var i :| 0 <= i <= |s| && StartsWith(s[i..], sub);
      if i == 0 {
        assert s[0..] == s;
      } else {
        assert s[1..][i - 1..] == s[i..];
        ContainsAtSomeIndex(s[1..], sub);
      }
    }
  }

  /** Python's `s.replace(pat, rep)`: every non-overlapping occurrence of
      `pat`, found scanning left to right, is replaced by `rep`; an empty
      `pat` inserts `rep` before every character and at the end. */
  function ReplaceAll(s: string, pat: string, rep: string): (r: string)
    // A pattern that does not occur leaves the text as it is.
    ensures !Contains(s, pat) ==> r == s
    decreases |s|
  {
    if pat == [] then
      if s == [] then rep else rep + [s[0]] + ReplaceAll(s[1..], pat, rep)
    else if StartsWith(s, pat) then rep + ReplaceAll(s[|pat|..], pat, rep)
    else if s == [] then []
    else [s[0]] + ReplaceAll(s[1..], pat, rep)
  }

  /** A text holding a longer pattern also holds each prefix of it. */
  lemma {:induction false} ContainsPrefixOfPattern(s: string, pat: string, pre: string)
    requires StartsWith(pat, pre) && Contains(s, pat)
    ensures Contains(s, pre)
    decreases |s|
  {
    if StartsWith(s, pat) {
      assert s[..|pre|] == pat[..|pre|];
    } else {
      ContainsPrefixOfPattern(s[1..], pat, pre);
    }
  }

  /** Dropping characters from the front cannot create an occurrence. */
  lemma {:induction false} ContainsSuffix(s: string, k: nat, sub: string)
    requires k <= |s| && Contains(s[k..], sub)
    ensures Contains(s, sub)
    decreases k
  {
    if k > 0 {
      assert s[1..][k - 1..] == s[k..];
      ContainsSuffix(s[1..], k - 1, sub);
    } else {
      assert s[0..] == s;
    }
  }

  /** Dropping characters from the end cannot create an occurrence. */
  lemma {:induction false} ContainsPrefix(s: string, k: nat, sub: string)
    requires k <= |s| && Contains(s[..k], sub)
    ensures Contains(s, sub)
    decreases k
  {
    if StartsWith(s[..k], sub) {
      assert s[..|sub|] == s[..k][..|sub|];
    } else {
      assert s[..k][1..] == s[1..][..k - 1];
      ContainsPrefix(s[1..], k - 1, sub);
    }
  }

  /** A text holds whatever is written inside it. */
  lemma ContainsBetween(a: string, sub: string, b: string)
    ensures Contains(a + sub + b, sub)
  {
    assert (a + sub + b)[..|a + sub|] == a + sub;
    assert (a + sub)[|a|..] == sub;
    ContainsSuffix(a + sub, |a|, sub);
    ContainsPrefix(a + sub + b, |a + sub|, sub);
  }

  /** A text holds its own ending. */
  lemma ContainsAtEnd(a: string, sub: string)
    ensures Contains(a + sub, sub)
  {
    assert (a + sub)[|a|..] == sub;
    ContainsSuffix(a + sub, |a|, sub);
  }

  /** A pattern with a character the text lacks does not occur in it. */
  lemma {:induction false} MissingCharExcludes(s: string, sub: string, c: char)
    requires c in sub && c !in s
    ensures !Contains(s, sub)
    decreases |s|
  {
    if s != [] {
      assert s == [s[0]] + s[1..];
      MissingCharExcludes(s[1..], sub, c);
    }
  }

  /** Where the pattern cannot start, replacement keeps the first character. */
  lemma ReplaceKeepsHead(s: string, pat: string, rep: string)
    requires pat != [] && s != [] && s[0] != pat[0]
    ensures ReplaceAll(s, pat, rep) == [s[0]] + ReplaceAll(s[1..], pat, rep)
  {
    assert !StartsWith(s, pat) by {
      assert |pat| <= |s| ==> s[..|pat|][0] == s[0];
    }
  }

  /** Replacement leaves a leading part untouched when the pattern's first
      character does not occur in it. */
  lemma {:induction false} ReplaceSkipsPrefix(a: string, b: string, pat: string, rep: string)
    requires pat != [] && pat[0] !in a
    ensures ReplaceAll(a + b, pat, rep) == a + ReplaceAll(b, pat, rep)
    decreases |a|
  {
    if a == [] {
      assert a + b == b;
    } else {
      var x, tail := a + b, a[1..];
      assert a[0] in a;
      assert forall i :: 0 <= i < |tail| ==> tail[i] == a[i + 1];
      assert pat[0] !in tail;
      assert x[0] == a[0] && x[1..] == tail + b;
      ReplaceKeepsHead(x, pat, rep);
      ReplaceSkipsPrefix(tail, b, pat, rep);
      var r := ReplaceAll(b, pat, rep);
      assert [a[0]] + (tail + r) == ([a[0]] + tail) + r;
      assert [a[0]] + tail == a;
    }
  }

  /** The characters Python's `str.isspace()` accepts, which are the ones
      `str.strip()` removes when given no argument. */
  predicate IsSpace(c: char) {
    ('\t' <= c <= '\r') || ('\U{1C}' <= c <= ' ') || c == '\U{85}' || c == '\U{A0}' ||
    c == '\U{1680}' || ('\U{2000}' <= c <= '\U{200A}') || c == '\U{2028}' || c == '\U{2029}' ||
    c == '\U{202F}' || c == '\U{205F}' || c == '\U{3000}'
  }

  /** Neither end of `s` is whitespace. */
  predicate Trimmed(s: string) {
    s == [] || (!IsSpace(s[0]) && !IsSpace(s[|s| - 1]))
  }

  /** Where the whitespace run starting at `i` ends: the index of the first
      non-whitespace character at or after `i`, or `|s|`. */
  function SpaceEnd(s: string, i: nat): (j: nat)
    requires i <= |s|
    ensures i <= j <= |s|
    ensures forall k :: i <= k < j ==> IsSpace(s[k])
    ensures j < |s| ==> !IsSpace(s[j])
    decreases |s| - i
  {
    if i < |s| && IsSpace(s[i]) then SpaceEnd(s, i + 1) else i
  }

  /** Where the whitespace run ending at `j` starts, looking no further left
      than `lo`. */
  function SpaceStart(s: string, lo: nat, j: nat): (e: nat)
    requires lo <= j <= |s|
    ensures lo <= e <= j
    ensures forall k :: e <= k < j ==> IsSpace(s[k])
    ensures e > lo ==> !IsSpace(s[e - 1])
    decreases j - lo
  {
    if lo < j && IsSpace(s[j - 1]) then SpaceStart(s, lo, j - 1) else j
  }

  /** Python's `s.strip()`: the window of `s` whose outside is all
      whitespace and whose two ends are not. */
  function Strip(s: string): (r: string)
    ensures Trimmed(r)
    ensures var i := SpaceEnd(s, 0);
      i + |r| <= |s| && r == s[i..i + |r|] &&
      (forall k :: 0 <= k < i ==> IsSpace(s[k])) &&
      (forall k :: i + |r| <= k < |s| ==> IsSpace(s[k]))
  {
    var i := SpaceEnd(s, 0);
    var e := SpaceStart(s, i, |s|);
    s[i..e]
  }

  /** Stripping a text that already has no whitespace at its ends is the identity. */
  lemma StripTrimmed(s: string)
    requires Trimmed(s)
    ensures Strip(s) == s
  {
    if s != [] {
      assert SpaceEnd(s, 0) == 0;
      assert SpaceStart(s, 0, |s|) == |s|;
    }
  }

  /** Stripping cannot create an occurrence of a pattern. */
  lemma StripKeepsAbsence(s: string, sub: string)
    requires !Contains(s, sub)
    ensures !Contains(Strip(s), sub)
  {
    var i := SpaceEnd(s, 0);
    var r := Strip(s);
    if Contains(r, sub) {
      assert s[i..][..|r|] == r;
      ContainsPrefix(s[i..], |r|, sub);
      ContainsSuffix(s, i, sub);
    }
  }
}
