/**
  The text statistics of a chunk: Python's `str.split()` with no separator
  (maximal runs of non-whitespace) and `str.splitlines()` (lines without
  their terminators, no trailing empty line).
*/
module TextStats {
  import Text

  /** Length of the maximal prefix of `s` without whitespace. */
  function WordLength(s: string): (n: nat)
    ensures n <= |s|
    ensures forall i :: 0 <= i < n ==> !Text.IsPySpace(s[i])
    ensures n < |s| ==> Text.IsPySpace(s[n])
    decreases |s|
  {
    if s == [] || Text.IsPySpace(s[0]) then 0 else 1 + WordLength(s[1..])
  }

  predicate NoSpace(w: string) {
    forall i :: 0 <= i < |w| ==> !Text.IsPySpace(w[i])
  }

  /** `s.split()`. */
  function Words(s: string): (ws: seq<string>)
    ensures forall k :: 0 <= k < |ws| ==> ws[k] != [] && NoSpace(ws[k])
    decreases |s|
  {
    if s == [] then []
    else if Text.IsPySpace(s[0]) then Words(s[1..])
    else
      var n := WordLength(s);
      [s[..n]] + Words(s[n..])
  }

  /** A word run is not extended across a whitespace character. */
  lemma {:induction false} WordLengthBefore(a: string, c: char, b: string)
    requires Text.IsPySpace(c)
    ensures WordLength(a + [c] + b) == WordLength(a)
    decreases |a|
  {
    if a == [] {
      assert (a + [c] + b)[0] == c;
    } else if !Text.IsPySpace(a[0]) {
      assert (a + [c] + b)[1..] == a[1..] + [c] + b;
      WordLengthBefore(a[1..], c, b);
    }
  }

  /** Splitting at a whitespace character splits the word list. */
  lemma {:induction false} WordsSplit(a: string, c: char, b: string)
    requires Text.IsPySpace(c)
    ensures Words(a + [c] + b) == Words(a) + Words(b)
    decreases |a|
  {
    var s := a + [c] + b;
    if a == [] {
      assert s[0] == c && s[1..] == b;
    } else if Text.IsPySpace(a[0]) {
      assert s[1..] == a[1..] + [c] + b;
      WordsSplit(a[1..], c, b);
    } else {
      var n := WordLength(a);
      WordLengthBefore(a, c, b);
      assert s[..n] == a[..n];
      assert s[n..] == a[n..] + [c] + b;
      WordsSplit(a[n..], c, b);
    }
  }

  /** A string with no whitespace and at least one character is one word. */
  lemma {:induction false} SingleWord(w: string)
    requires w != [] && NoSpace(w)
    ensures Words(w) == [w]
  {
    assert !Text.IsPySpace(w[0]);
    var n := WordLength(w);
    assert n == |w|;
    assert w[..n] == w && w[n..] == [];
    assert Words(w) == [w[..n]] + Words(w[n..]);
  }

  /** A whitespace-only string has no words. */
  lemma {:induction false} BlankHasNoWords(s: string)
    requires forall i :: 0 <= i < |s| ==> Text.IsPySpace(s[i])
    ensures Words(s) == []
    decreases |s|
  {
    if s != [] {
      BlankHasNoWords(s[1..]);
    }
  }

  /** The terminators `str.splitlines` recognises (`\r\n` counts as one). */
  predicate IsLineBreak(c: char) {
    c == '\n' || c == '\r' || c == '\U{0B}' || c == '\U{0C}' || c == '\U{1C}' || c == '\U{1D}'
    || c == '\U{1E}' || c == '\U{85}' || c == '\U{2028}' || c == '\U{2029}'
  }

  predicate NoBreak(l: string) {
    forall i :: 0 <= i < |l| ==> !IsLineBreak(l[i])
  }

  function LineLength(s: string): (n: nat)
    ensures n <= |s| && NoBreak(s[..n])
    ensures n < |s| ==> IsLineBreak(s[n])
    decreases |s|
  {
    if s == [] || IsLineBreak(s[0]) then 0
    else
      var n := 1 + LineLength(s[1..]);
      assert s[..n] == [s[0]] + s[1..][..n - 1];
      n
  }

  /** `s.splitlines()`. */
  function Lines(s: string): (ls: seq<string>)
    ensures forall k :: 0 <= k < |ls| ==> NoBreak(ls[k])
    ensures s != [] <==> ls != []
    decreases |s|
  {
    if s == [] then []
    else
      var n := LineLength(s);
      if n == |s| then [s]
      else
        var width := if s[n] == '\r' && n + 1 < |s| && s[n + 1] == '\n' then 2 else 1;
        [s[..n]] + Lines(s[n + width..])
  }

  lemma {:induction false} LineLengthOf(a: string, b: string)
    requires NoBreak(a)
    requires b != [] && IsLineBreak(b[0])
    ensures LineLength(a + b) == |a|
    decreases |a|
  {
    if a != [] {
      assert (a + b)[1..] == a[1..] + b;
      LineLengthOf(a[1..], b);
    } else {
      assert a + b == b;
    }
  }

  /** A line ended by `\n` is one line, followed by the lines of the rest. */
  lemma LinesAfterNewline(a: string, b: string)
    requires NoBreak(a)
    ensures Lines(a + "\n" + b) == [a] + Lines(b)
  {
    var s := a + "\n" + b;
    LineLengthOf(a, "\n" + b);
    assert s == a + ("\n" + b);
    assert s[..|a|] == a;
    assert s[|a| + 1..] == b;
  }

  /** `\r\n` ends one line, not two. */
  lemma CrLfIsOneBreak(a: string, b: string)
    requires NoBreak(a)
    ensures Lines(a + "\r\n" + b) == [a] + Lines(b)
  {
    var s := a + "\r\n" + b;
    LineLengthOf(a, "\r\n" + b);
    assert s == a + ("\r\n" + b);
    assert s[..|a|] == a;
    assert s[|a|] == '\r' && s[|a| + 1] == '\n';
    assert s[|a| + 2..] == b;
  }

  /** A final terminator adds no empty line: "a\n" has one line. */
  lemma TrailingNewline(a: string)
    requires NoBreak(a)
    ensures Lines(a + "\n") == [a]
  {
    LinesAfterNewline(a, "");
    assert a + "\n" + "" == a + "\n";
  }
}
