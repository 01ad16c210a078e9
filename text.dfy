/**
  String operations of the Python and JavaScript runtimes that the modelled code
  relies on: literal replacement, case mapping, whitespace classes, trimming,
  joining and order-preserving de-duplication.
  Strings are sequences of Unicode scalar values, as Python's `str` is.
*/
module Text {

  /** `pat` occurs in `s` starting at index `i`. */
  predicate OccursAt(s: string, pat: string, i: nat) {
    i + |pat| <= |s| && s[i..i + |pat|] == pat
  }

  predicate Contains(s: string, pat: string) {
    exists i: nat | i + |pat| <= |s| :: OccursAt(s, pat, i)
  }

  lemma OccursInTail(s: string, pat: string, i: nat)
    requires |s| > 0 && OccursAt(s[1..], pat, i)
    ensures OccursAt(s, pat, i + 1)
  {
    assert s[1..][i..i + |pat|] == s[i + 1..i + 1 + |pat|];
  }

  lemma OccursAtHead(s: string, pat: string)
    requires |pat| <= |s| && pat <= s
    ensures OccursAt(s, pat, 0)
  {
  }

  /**
    Python's `str.replace(pat, rep)` (and JavaScript's global replace with a
    literal): every occurrence, scanning left to right, non-overlapping.
  */
  function ReplaceAll(s: string, pat: string, rep: string): string
    requires pat != []
    decreases |s|
  {
    if |s| < |pat| then s
    else if pat <= s then rep + ReplaceAll(s[|pat|..], pat, rep)
    else [s[0]] + ReplaceAll(s[1..], pat, rep)
  }

  /** A string without the pattern comes back unchanged. */
  lemma {:induction false} ReplaceAllAbsent(s: string, pat: string, rep: string)
    requires pat != [] && !Contains(s, pat)
    ensures ReplaceAll(s, pat, rep) == s
    decreases |s|
  {
    if |s| >= |pat| {
      if pat <= s {
        OccursAtHead(s, pat);
        assert false;
      }
      forall i: nat | OccursAt(s[1..], pat, i) ensures false {
        OccursInTail(s, pat, i);
      }
      ReplaceAllAbsent(s[1..], pat, rep);
    }
  }

  /** Replacing a pattern by one of the same length keeps the length. */
  lemma {:induction false} ReplaceAllLength(s: string, pat: string, rep: string)
    requires pat != [] && |rep| == |pat|
    ensures |ReplaceAll(s, pat, rep)| == |s|
    decreases |s|
  {
    if |s| >= |pat| {
      if pat <= s {
        ReplaceAllLength(s[|pat|..], pat, rep);
      } else {
        ReplaceAllLength(s[1..], pat, rep);
      }
    }
  }

  /**
    When the first character of the pattern occurs nowhere else in it, no
    occurrence can straddle a position holding that character, so the
    replacement splits there.
  */
  lemma {:induction false} ReplaceAllSplit(stem: string, tail: string, pat: string, rep: string)
    requires pat != [] && pat[0] !in pat[1..]
    requires tail != [] && tail[0] == pat[0]
    ensures ReplaceAll(stem + tail, pat, rep) == ReplaceAll(stem, pat, rep) + ReplaceAll(tail, pat, rep)
    decreases |stem|
  {
    var s := stem + tail;
    if stem == [] {
      assert s == tail;
    } else if |s| < |pat| {
      assert ReplaceAll(stem, pat, rep) == stem;
      assert ReplaceAll(tail, pat, rep) == tail;
    } else if pat <= s {
      if |stem| < |pat| {
        MarkerNotInside(stem, tail, pat);
        assert false;
      }
      ReplaceAllSplitMatch(stem, tail, pat, rep);
    } else {
      ReplaceAllSplitSkip(stem, tail, pat, rep);
    }
  }

  lemma {:induction false} ReplaceAllSplitMatch(stem: string, tail: string, pat: string, rep: string)
    requires pat != [] && pat[0] !in pat[1..]
    requires tail != [] && tail[0] == pat[0]
    requires |pat| <= |stem| && pat <= stem + tail
    ensures ReplaceAll(stem + tail, pat, rep) == ReplaceAll(stem, pat, rep) + ReplaceAll(tail, pat, rep)
    decreases |stem|, 0
  {
    var s := stem + tail;
    assert pat <= stem;
    assert s[|pat|..] == stem[|pat|..] + tail;
    ReplaceAllSplit(stem[|pat|..], tail, pat, rep);
  }

  lemma {:induction false} ReplaceAllSplitSkip(stem: string, tail: string, pat: string, rep: string)
    requires pat != [] && pat[0] !in pat[1..]
    requires tail != [] && tail[0] == pat[0]
    requires stem != [] && |pat| <= |stem + tail| && !(pat <= stem + tail)
    ensures ReplaceAll(stem + tail, pat, rep) == ReplaceAll(stem, pat, rep) + ReplaceAll(tail, pat, rep)
    decreases |stem|, 0
  {
    var s := stem + tail;
    assert s[1..] == stem[1..] + tail;
    ReplaceAllSplit(stem[1..], tail, pat, rep);
    if |stem| >= |pat| {
      assert stem[..|pat|] == s[..|pat|];
    } else {
      assert ReplaceAll(stem[1..], pat, rep) == stem[1..];
    }
  }

  /** A match of `pat` cannot start inside `stem` and cover the marker `tail[0]`. */
  lemma MarkerNotInside(stem: string, tail: string, pat: string)
    requires pat != [] && pat[0] !in pat[1..]
    requires tail != [] && tail[0] == pat[0]
    requires 0 < |stem| < |pat| <= |stem + tail|
    ensures !(pat <= stem + tail)
  {
    assert pat[1..][|stem| - 1] == pat[|stem|];
    assert (stem + tail)[|stem|] == pat[0];
  }

  /** JavaScript's `indexOf`: the first occurrence, or -1. */
  function IndexOf(s: string, pat: string): (r: int)
    ensures -1 <= r <= |s|
    ensures r == -1 <==> !Contains(s, pat)
    ensures r >= 0 ==> OccursAt(s, pat, r) && forall j: nat :: j < r ==> !OccursAt(s, pat, j)
    decreases |s|
  {
    if |s| < |pat| then
      assert forall j: nat :: !OccursAt(s, pat, j);
      -1
    else if pat <= s then
      assert OccursAt(s, pat, 0);
      0
    else
      var k := IndexOf(s[1..], pat);
      assert !OccursAt(s, pat, 0);
      assert forall j: nat :: j >= 1 && OccursAt(s, pat, j) ==> OccursAt(s[1..], pat, j - 1) by {
        forall j: nat | j >= 1 && OccursAt(s, pat, j) ensures OccursAt(s[1..], pat, j - 1) {
          assert s[1..][j - 1..j - 1 + |pat|] == s[j..j + |pat|];
        }
      }
      if k == -1 then -1
      else
        OccursInTail(s, pat, k);
        k + 1
  }

  /** JavaScript's `replace` with a literal string pattern: the first occurrence only. */
  function ReplaceFirst(s: string, pat: string, rep: string): string
    requires pat != []
    decreases |s|
  {
    if |s| < |pat| then s
    else if pat <= s then rep + s[|pat|..]
    else [s[0]] + ReplaceFirst(s[1..], pat, rep)
  }

  /** Only the first occurrence is rewritten; everything after it is kept verbatim. */
  lemma {:induction false} ReplaceFirstAt(s: string, pat: string, rep: string)
    requires pat != []
    ensures var i := IndexOf(s, pat);
      ReplaceFirst(s, pat, rep) == if i < 0 then s else s[..i] + rep + s[i + |pat|..]
    decreases |s|
  {
    if |s| >= |pat| && !(pat <= s) {
      ReplaceFirstAt(s[1..], pat, rep);
      IndexOfStep(s, pat);
      ReplaceFirstUnfold(s, pat, rep);
      ConsReplaced(s, ReplaceFirst(s[1..], pat, rep), ReplaceFirst(s, pat, rep), IndexOf(s[1..], pat), IndexOf(s, pat), |pat|, rep);
    }
  }

  lemma ConsReplaced(s: string, tail: string, r: string, k: int, i: int, m: nat, rep: string)
    requires s != [] && -1 <= k && (k >= 0 ==> k + m <= |s| - 1)
    requires tail == if k < 0 then s[1..] else s[1..][..k] + rep + s[1..][k + m..]
    requires i == (if k < 0 then -1 else k + 1) && r == [s[0]] + tail
    ensures r == if i < 0 then s else s[..i] + rep + s[i + m..]
  {
    if k >= 0 {
      ConsSplice(s, k, m, rep);
    } else {
      assert [s[0]] + s[1..] == s;
    }
  }

  lemma ConsSplice(s: string, k: nat, m: nat, rep: string)
    requires k + m < |s|
    ensures [s[0]] + (s[1..][..k] + rep + s[1..][k + m..]) == s[..k + 1] + rep + s[k + 1 + m..]
  {
    assert [s[0]] + s[1..][..k] == s[..k + 1];
    assert s[1..][k + m..] == s[k + 1 + m..];
  }

  /** Past a non-matching first character, the search continues one position on. */
  lemma IndexOfStep(s: string, pat: string)
    requires pat != [] && |s| >= |pat| && !(pat <= s)
    ensures IndexOf(s, pat) == if IndexOf(s[1..], pat) < 0 then -1 else IndexOf(s[1..], pat) + 1
  {
  }

  lemma ReplaceFirstUnfold(s: string, pat: string, rep: string)
    requires pat != [] && |s| >= |pat| && !(pat <= s)
    ensures ReplaceFirst(s, pat, rep) == [s[0]] + ReplaceFirst(s[1..], pat, rep)
  {
  }

  /** ASCII case mapping (the only letters the modelled comparisons can observe). */
  function LowerChar(c: char): char {
    if 'A' <= c <= 'Z' then (c as int + 32) as char else c
  }

  function UpperChar(c: char): char {
    if 'a' <= c <= 'z' then (c as int - 32) as char else c
  }

  function Lower(s: string): (r: string)
    ensures |r| == |s| && forall i :: 0 <= i < |s| ==> r[i] == LowerChar(s[i])
  {
    seq(|s|, i requires 0 <= i < |s| => LowerChar(s[i]))
  }

  function Upper(s: string): (r: string)
    ensures |r| == |s| && forall i :: 0 <= i < |s| ==> r[i] == UpperChar(s[i])
  {
    seq(|s|, i requires 0 <= i < |s| => UpperChar(s[i]))
  }

  /** Python's `str.isspace`, the separator class of `str.split()`. */
  predicate IsPySpace(c: char) {
    c == ' ' || ('\t' <= c <= '\r') || ('\U{1C}' <= c <= '\U{1F}') || c == '\U{85}' || c == '\U{A0}'
    || c == '\U{1680}' || ('\U{2000}' <= c <= '\U{200A}') || c == '\U{2028}' || c == '\U{2029}'
    || c == '\U{202F}' || c == '\U{205F}' || c == '\U{3000}'
  }

  /** ECMAScript white space and line terminators: the class of `\s` and of `trim`. */
  predicate IsJsSpace(c: char) {
    c == ' ' || ('\t' <= c <= '\r') || c == '\U{A0}' || c == '\U{1680}' || ('\U{2000}' <= c <= '\U{200A}')
    || c == '\U{2028}' || c == '\U{2029}' || c == '\U{202F}' || c == '\U{205F}' || c == '\U{3000}' || c == '\U{FEFF}'
  }

  function LeadingSpaces(s: string): (n: nat)
    ensures n <= |s|
    ensures forall i :: 0 <= i < n ==> IsJsSpace(s[i])
    ensures n < |s| ==> !IsJsSpace(s[n])
    decreases |s|
  {
    if s != [] && IsJsSpace(s[0]) then 1 + LeadingSpaces(s[1..]) else 0
  }

  function TrailingSpaces(s: string): (n: nat)
    ensures n <= |s|
    ensures forall i :: |s| - n <= i < |s| ==> IsJsSpace(s[i])
    ensures n < |s| ==> !IsJsSpace(s[|s| - n - 1])
    decreases |s|
  {
    if s != [] && IsJsSpace(s[|s| - 1]) then 1 + TrailingSpaces(s[..|s| - 1]) else 0
  }

  /** Every `'` replaced by `"`: JavaScript's `replace(/'/g, '"')`. */
  function SingleToDouble(s: string): (r: string)
    ensures |r| == |s| && '\'' !in r
    ensures forall i :: 0 <= i < |s| ==> r[i] == if s[i] == '\'' then '"' else s[i]
  {
    seq(|s|, i requires 0 <= i < |s| => if s[i] == '\'' then '"' else s[i])
  }

  /** A character outside the Basic Multilingual Plane: JavaScript stores it as a surrogate pair. */
  predicate IsAstral(c: char) {
    c as int >= 0x1_0000
  }

  /**
    JavaScript's `length`: strings are sequences of UTF-16 code units, so a
    character outside the Basic Multilingual Plane counts twice.
  */
  function Utf16Length(s: string): (n: nat)
    ensures |s| <= n <= 2 * |s|
    ensures n == |s| <==> forall i :: 0 <= i < |s| ==> !IsAstral(s[i])
  {
    if s == [] then 0
    else
      assert forall i :: 1 <= i < |s| ==> s[1..][i - 1] == s[i];
      (if IsAstral(s[0]) then 2 else 1) + Utf16Length(s[1..])
  }

  /** The length of a concatenation is the sum of the lengths. */
  lemma {:induction false} Utf16LengthAppend(a: string, b: string)
    ensures Utf16Length(a + b) == Utf16Length(a) + Utf16Length(b)
  {
    if a == [] {
      assert a + b == b;
    } else {
      assert (a + b)[0] == a[0] && (a + b)[1..] == a[1..] + b;
      Utf16LengthAppend(a[1..], b);
    }
  }

  /** An emoji is one character but two code units. */
  lemma EmojiCountsTwice()
    ensures |"\U{1F600}"| == 1 && Utf16Length("\U{1F600}") == 2
  {
  }

  /** JavaScript's `String.prototype.trim`. */
  function Trim(s: string): (r: string)
    ensures |r| <= |s|
    ensures r == [] || (!IsJsSpace(r[0]) && !IsJsSpace(r[|r| - 1]))
  {
    var t := s[LeadingSpaces(s)..];
    t[..|t| - TrailingSpaces(t)]
  }

  /** `s` is the trimmed string with white space around it. */
  lemma TrimSplit(s: string)
    ensures exists a, b :: (0 <= a <= b <= |s| && Trim(s) == s[a..b]
      && (forall i :: 0 <= i < a ==> IsJsSpace(s[i])) && (forall i :: b <= i < |s| ==> IsJsSpace(s[i])))
  {
    var a := LeadingSpaces(s);
    var t := s[a..];
    var b := a + |t| - TrailingSpaces(t);
    assert Trim(s) == s[a..b];
    forall i | b <= i < |s| ensures IsJsSpace(s[i]) {
      assert s[i] == t[i - a];
    }
  }

  /** `items` joined by `sep`, as JavaScript's `join` and Python's `str.join`. */
  function Join(items: seq<string>, sep: string): string
    decreases |items|
  {
    if items == [] then ""
    else if |items| == 1 then items[0]
    else items[0] + sep + Join(items[1..], sep)
  }

  /** Appending one more item adds exactly one separator, before it. */
  lemma {:induction false} JoinSnoc(items: seq<string>, x: string, sep: string)
    requires items != []
    ensures Join(items + [x], sep) == Join(items, sep) + sep + x
    decreases |items|
  {
    if |items| == 1 {
      assert (items + [x])[1..] == [x];
    } else {
      assert (items + [x])[1..] == items[1..] + [x];
      JoinSnoc(items[1..], x, sep);
    }
  }

  /** Index of the first occurrence of `x` in `xs`. */
  function FirstIndex<T(==)>(xs: seq<T>, x: T): (r: nat)
    requires x in xs
    ensures r < |xs| && xs[r] == x && x !in xs[..r]
  {
    if xs[0] == x then 0 else 1 + FirstIndex(xs[1..], x)
  }

  lemma FirstIndexPrefix<T>(xs: seq<T>, n: nat, x: T)
    requires n <= |xs| && x in xs[..n]
    ensures FirstIndex(xs, x) == FirstIndex(xs[..n], x)
  {
    var i := FirstIndex(xs[..n], x);
    var j := FirstIndex(xs, x);
    assert xs[..n][..i] == xs[..i];
  }

  /**
    JavaScript's `Array.from(new Set(xs))` on values compared by value: every
    element once, in the order of its first occurrence.
  */
  function Dedup<T(==)>(xs: seq<T>): (r: seq<T>)
    ensures IsDedup(xs, r)
    decreases |xs|
  {
    if xs == [] then []
    else
      var init := xs[..|xs| - 1];
      var last := xs[|xs| - 1];
      assert xs == init + [last];
      DedupStep(init, last, Dedup(init));
      if last in Dedup(init) then Dedup(init) else Dedup(init) + [last]
  }

  /** The four properties of `Dedup`: `r` holds the elements of `xs`, each once, in first-occurrence order. */
  predicate IsDedup<T(==)>(xs: seq<T>, r: seq<T>) {
    && (forall i :: 0 <= i < |r| ==> r[i] in xs)
    && (forall i :: 0 <= i < |xs| ==> xs[i] in r)
    && (forall i, j :: 0 <= i < j < |r| ==> r[i] != r[j])
    && (forall i, j :: 0 <= i < j < |r| ==> FirstIndex(xs, r[i]) < FirstIndex(xs, r[j]))
  }

  /** A sequence without repetitions is its own de-duplication. */
  lemma {:induction false} DedupOfDistinct<T>(xs: seq<T>)
    requires forall i, j :: 0 <= i < j < |xs| ==> xs[i] != xs[j]
    ensures Dedup(xs) == xs
    decreases |xs|
  {
    if xs != [] {
      var init, last := xs[..|xs| - 1], xs[|xs| - 1];
      assert xs == init + [last];
      DedupOfDistinct(init);
      DedupSnoc(init, last);
    }
  }

  lemma DedupSnoc<T>(init: seq<T>, last: T)
    ensures Dedup(init + [last]) == if last in Dedup(init) then Dedup(init) else Dedup(init) + [last]
  {
    assert (init + [last])[..|init|] == init;
  }

  /** One more element keeps the four properties of `Dedup`. */
  lemma DedupStep<T>(init: seq<T>, last: T, d: seq<T>)
    requires IsDedup(init, d)
    ensures IsDedup(init + [last], if last in d then d else d + [last])
  {
    var xs := init + [last];
    assert xs[..|init|] == init;
    forall y | y in d ensures FirstIndex(xs, y) == FirstIndex(init, y) {
      FirstIndexPrefix(xs, |init|, y);
    }
    if last in d {
      DedupKeep(init, last, d);
    } else {
      DedupAdd(init, last, d);
    }
  }

  lemma DedupKeep<T>(init: seq<T>, last: T, d: seq<T>)
    requires IsDedup(init, d) && last in d
    requires forall y :: y in d ==> FirstIndex(init + [last], y) == FirstIndex(init, y)
    ensures IsDedup(init + [last], d)
  {
    var xs := init + [last];
    assert forall i :: 0 <= i < |xs| ==> xs[i] in d by {
      forall i | 0 <= i < |xs| ensures xs[i] in d {
        if i < |init| { assert xs[i] == init[i]; }
      }
    }
  }

  lemma DedupAdd<T>(init: seq<T>, last: T, d: seq<T>)
    requires IsDedup(init, d) && last !in d
    requires forall y :: y in d ==> FirstIndex(init + [last], y) == FirstIndex(init, y)
    ensures IsDedup(init + [last], d + [last])
  {
    var xs := init + [last];
    var r := d + [last];
    assert last !in init;
    assert FirstIndex(xs, last) == |init|;
    assert forall i :: 0 <= i < |xs| ==> xs[i] in r by {
      forall i | 0 <= i < |xs| ensures xs[i] in r {
        if i < |init| { assert xs[i] == init[i]; }
      }
    }
    assert forall i :: 0 <= i < |d| ==> r[i] == d[i];
    forall i, j | 0 <= i < j < |r|
      ensures r[i] != r[j] && FirstIndex(xs, r[i]) < FirstIndex(xs, r[j])
    {
      if j == |d| {
        assert r[i] == d[i] && r[j] == last;
        assert FirstIndex(init, d[i]) < |init|;
      } else {
        assert r[i] == d[i] && r[j] == d[j];
      }
    }
  }
}
