/**
 * The parts of Python's `str` type the schedule parser relies on:
 * `strip`, `split(sep)`, `split(sep, 1)`, `splitlines` and `sep.join`.
 * Strings are sequences of code points.
 */
module PyStrings {

  /** `str.isspace` for one code point: the characters `strip()` removes. */
  predicate IsSpace(c: char) {
    var n := c as int;
    (9 <= n <= 13) || (28 <= n <= 32) || n == 0x85 || n == 0xA0 || n == 0x1680
    || (0x2000 <= n <= 0x200A) || n == 0x2028 || n == 0x2029 || n == 0x202F
    || n == 0x205F || n == 0x3000
  }

  /** A line boundary of `str.splitlines()` ("\r\n" is read as one boundary). */
  predicate IsLineBreak(c: char) {
    var n := c as int;
    (10 <= n <= 13) || (28 <= n <= 30) || n == 0x85 || n == 0x2028 || n == 0x2029
  }

  predicate AllSpace(s: string) {
    forall i :: 0 <= i < |s| ==> IsSpace(s[i])
  }

  predicate NoLineBreak(s: string) {
    forall i :: 0 <= i < |s| ==> !IsLineBreak(s[i])
  }

  // ---------------------------------------------------------------------
  // strip
  // ---------------------------------------------------------------------

  /** `s.lstrip()`: the suffix left after dropping leading whitespace. */
  function LStrip(s: string): (r: string)
    ensures |r| <= |s| && r == s[|s| - |r|..]
    ensures AllSpace(s[..|s| - |r|])
    ensures r == [] || !IsSpace(r[0])
  {
    if s != [] && IsSpace(s[0]) then
      var r := LStrip(s[1..]);
      assert s[..|s| - |r|] == [s[0]] + s[1..][..|s| - 1 - |r|];
      r
    else s
  }

  /** `s.rstrip()`: the prefix left after dropping trailing whitespace. */
  function RStrip(s: string): (r: string)
    ensures |r| <= |s| && r == s[..|r|]
    ensures AllSpace(s[|r|..])
    ensures r == [] || !IsSpace(r[|r| - 1])
  {
    if s != [] && IsSpace(s[|s| - 1]) then
      var r := RStrip(s[..|s| - 1]);
      assert s[|r|..] == s[..|s| - 1][|r|..] + [s[|s| - 1]];
      r
    else s
  }

  /** `s.strip()`: neither starts nor ends with whitespace. */
  function Strip(s: string): (r: string)
    ensures |r| <= |s|
    ensures r == [] || (!IsSpace(r[0]) && !IsSpace(r[|r| - 1]))
  {
    RStrip(LStrip(s))
  }

  /** `strip()` only removes characters: whatever it keeps was in the input. */
  lemma StripKeepsChar(s: string, c: char)
    ensures c in Strip(s) ==> c in s
  {
    var l := LStrip(s);
    var r := RStrip(l);
    var k := |s| - |l|;
    assert r == s[k..k + |r|] by {
      assert l == s[k..];
      assert r == l[..|r|];
    }
    InSliceIn(s, k, k + |r|, c);
  }

  /** A character of a slice is a character of the whole. */
  lemma InSliceIn(t: string, a: nat, b: nat, c: char)
    requires a <= b <= |t|
    ensures c in t[a..b] ==> c in t
  {
    if c in t[a..b] {
      var i :| 0 <= i < b - a && t[a..b][i] == c;
      assert t[a + i] == c;
    }
  }

  /** `strip()` leaves nothing exactly when the string is all whitespace. */
  lemma StripBlank(s: string)
    ensures Strip(s) == [] <==> AllSpace(s)
  {
    var l := LStrip(s);
    assert s[..|s| - |l|] + l == s;
  }

  /** Whitespace in front of a string does not change what `strip()` keeps. */
  lemma {:induction false} StripIgnoresLeadingSpace(w: string, p: string)
    requires AllSpace(w)
    ensures Strip(w + p) == Strip(p)
  {
    LStripIgnoresLeadingSpace(w, p);
  }

  lemma {:induction false} LStripIgnoresLeadingSpace(w: string, p: string)
    requires AllSpace(w)
    ensures LStrip(w + p) == LStrip(p)
  {
    if w != [] {
      assert (w + p)[0] == w[0] && IsSpace(w[0]);
      assert (w + p)[1..] == w[1..] + p;
      assert AllSpace(w[1..]) by {
        forall i | 0 <= i < |w| - 1 ensures IsSpace(w[1..][i]) { assert w[1..][i] == w[i + 1]; }
      }
      LStripIgnoresLeadingSpace(w[1..], p);
    } else {
      assert w + p == p;
    }
  }

  /** Whitespace after a string does not change what `strip()` keeps. */
  lemma {:induction false} StripIgnoresTrailingSpace(p: string, w: string)
    requires AllSpace(w)
    ensures Strip(p + w) == Strip(p)
  {
    var l := LStrip(p);
    if l == [] {
      assert AllSpace(p + w);
    } else {
      LStripKeepsTail(p, w);
      RStripIgnoresTrailingSpace(l, w);
    }
  }

  lemma {:induction false} LStripKeepsTail(p: string, w: string)
    requires LStrip(p) != []
    ensures LStrip(p + w) == LStrip(p) + w
  {
    var pw := p + w;
    assert pw[0] == p[0];
    if IsSpace(p[0]) {
      assert pw[1..] == p[1..] + w;
      LStripKeepsTail(p[1..], w);
      assert LStrip(pw) == LStrip(pw[1..]);
    } else {
      assert LStrip(p) == p;
      assert LStrip(pw) == pw;
    }
  }

  lemma {:induction false} RStripIgnoresTrailingSpace(p: string, w: string)
    requires AllSpace(w)
    ensures RStrip(p + w) == RStrip(p)
  {
    if w != [] {
      assert (p + w)[|p + w| - 1] == w[|w| - 1] && IsSpace(w[|w| - 1]);
      assert (p + w)[..|p + w| - 1] == p + w[..|w| - 1];
      assert AllSpace(w[..|w| - 1]) by {
        forall i | 0 <= i < |w| - 1 ensures IsSpace(w[i]) { }
      }
      RStripIgnoresTrailingSpace(p, w[..|w| - 1]);
    } else {
      assert p + w == p;
    }
  }

  /** A string that neither starts nor ends with whitespace is its own `strip()`. */
  lemma StripKeepsTrimmed(s: string)
    requires s != [] && !IsSpace(s[0]) && !IsSpace(s[|s| - 1])
    ensures Strip(s) == s
  {
  }

  // ---------------------------------------------------------------------
  // sep.join and s.split(sep)
  // ---------------------------------------------------------------------

  /** `sep.join(parts)`: a code point of the result is the separator or
      comes from one of the parts. */
  function Join(parts: seq<string>, sep: char): (r: string)
    ensures |parts| >= 2 ==> sep in r
  {
    if |parts| == 0 then []
    else if |parts| == 1 then parts[0]
    else
      var r := parts[0] + [sep] + Join(parts[1..], sep);
      assert r[|parts[0]|] == sep;
      r
  }

  // ---------------------------------------------------------------------
  // s.split(sep, 1)
  // ---------------------------------------------------------------------

  /** `s.split(sep, 1)`: `[s]` when the separator does not occur, otherwise
      the text before its first occurrence and the text after it. */
  function SplitOnce(s: string, sep: char): (parts: seq<string>)
    ensures sep !in s ==> parts == [s]
    ensures sep in s ==> |parts| == 2 && sep !in parts[0] && s == parts[0] + [sep] + parts[1]
  {
    if s == [] then [s]
    else if s[0] == sep then [[], s[1..]]
    else
      var rest := SplitOnce(s[1..], sep);
      if |rest| == 1 then [s] else [[s[0]] + rest[0], rest[1]]
  }

  /** The first occurrence is where a separator-free prefix ends. */
  lemma {:induction false} SplitOnceAfter(a: string, b: string, sep: char)
    requires sep !in a
    ensures SplitOnce(a + [sep] + b, sep) == [a, b]
  {
    if a != [] {
      assert (a + [sep] + b)[0] == a[0] && a[0] != sep;
      assert (a + [sep] + b)[1..] == a[1..] + [sep] + b;
      SplitOnceAfter(a[1..], b, sep);
      assert [a[0]] + a[1..] == a;
    } else {
      assert a + [sep] + b == [sep] + b;
    }
  }

  /** `s.split(sep)` for a one-character separator: the text up to the
      first separator, then the split of the rest. */
  function Split(s: string, sep: char): (parts: seq<string>)
    ensures |parts| >= 1
    decreases |s|
  {
    var halves := SplitOnce(s, sep);
    if |halves| == 1 then [s] else [halves[0]] + Split(halves[1], sep)
  }

  /** Every part of a split is free of the separator. */
  lemma {:induction false} SplitPartsLackSeparator(s: string, sep: char)
    ensures forall k :: 0 <= k < |Split(s, sep)| ==> sep !in Split(s, sep)[k]
    decreases |s|
  {
    var halves := SplitOnce(s, sep);
    if |halves| == 2 {
      SplitPartsLackSeparator(halves[1], sep);
    }
  }

  /** Joining the parts of a split with the same separator gives the string back. */
  lemma {:induction false} JoinSplit(s: string, sep: char)
    ensures Join(Split(s, sep), sep) == s
    decreases |s|
  {
    var halves := SplitOnce(s, sep);
    if |halves| == 2 {
      JoinSplit(halves[1], sep);
      var parts := Split(s, sep);
      assert parts[1..] == Split(halves[1], sep);
    }
  }

  /** A string without the separator splits into itself alone. */
  lemma SplitWithoutSeparator(s: string, sep: char)
    requires sep !in s
    ensures Split(s, sep) == [s]
  {
  }

  /** Splitting at a separator splits each side independently. */
  lemma {:induction false} SplitAtSeparator(a: string, b: string, sep: char)
    ensures Split(a + [sep] + b, sep) == Split(a, sep) + Split(b, sep)
    decreases |a|
  {
    var halves := SplitOnce(a, sep);
    if |halves| == 1 {
      SplitOnceAfter(a, b, sep);
    } else {
      var x, y := halves[0], halves[1];
      assert a + [sep] + b == x + [sep] + (y + [sep] + b);
      SplitOnceAfter(x, y + [sep] + b, sep);
      SplitAtSeparator(y, b, sep);
    }
  }

  /** Splitting a join of separator-free parts gives the parts back. */
  lemma {:induction false} SplitJoin(parts: seq<string>, sep: char)
    requires |parts| >= 1
    requires forall k :: 0 <= k < |parts| ==> sep !in parts[k]
    ensures Split(Join(parts, sep), sep) == parts
  {
    if |parts| > 1 {
      SplitOnceAfter(parts[0], Join(parts[1..], sep), sep);
      SplitJoin(parts[1..], sep);
    }
  }

  /** A separator-free prefix only lengthens the first part. */
  lemma {:induction false} SplitAfterPrefix(w: string, s: string, sep: char)
    requires sep !in w
    ensures Split(w + s, sep) == [w + Split(s, sep)[0]] + Split(s, sep)[1..]
  {
    var halves := SplitOnce(s, sep);
    if |halves| == 1 {
      assert sep !in w + s;
    } else {
      assert w + s == (w + halves[0]) + [sep] + halves[1];
      SplitOnceAfter(w + halves[0], halves[1], sep);
    }
  }

  /** A separator-free suffix only lengthens the last part. */
  lemma SplitBeforeSuffix(s: string, w: string, sep: char)
    requires sep !in w
    ensures var parts := Split(s, sep);
            Split(s + w, sep) == parts[..|parts| - 1] + [parts[|parts| - 1] + w]
  {
    var parts := Split(s, sep);
    var n := |parts|;
    var grown := parts[..n - 1] + [parts[n - 1] + w];
    JoinSplit(s, sep);
    JoinGrowsLast(parts, w, sep);
    SplitPartsLackSeparator(s, sep);
    forall k | 0 <= k < |grown|
      ensures sep !in grown[k]
    {
      if k < n - 1 {
        assert grown[k] == parts[k];
      } else {
        assert grown[k] == parts[n - 1] + w;
      }
    }
    SplitJoin(grown, sep);
  }

  /** Text after a join lengthens its last part. */
  lemma {:induction false} JoinGrowsLast(parts: seq<string>, w: string, sep: char)
    requires |parts| >= 1
    ensures Join(parts, sep) + w == Join(parts[..|parts| - 1] + [parts[|parts| - 1] + w], sep)
  {
    var grown := parts[..|parts| - 1] + [parts[|parts| - 1] + w];
    if |parts| == 1 {
      assert grown == [parts[0] + w];
    } else {
      var tail := parts[1..];
      JoinGrowsLast(tail, w, sep);
      assert grown[0] == parts[0];
      assert grown[1..] == tail[..|tail| - 1] + [tail[|tail| - 1] + w];
    }
  }

  // ---------------------------------------------------------------------
  // s.splitlines()
  // ---------------------------------------------------------------------

  /** Index of the first line boundary, or `|s|` when there is none. */
  function LineEnd(s: string): (i: nat)
    ensures i <= |s|
    ensures NoLineBreak(s[..i])
    ensures i < |s| ==> IsLineBreak(s[i])
  {
    if s == [] || IsLineBreak(s[0]) then 0 else 1 + LineEnd(s[1..])
  }

  /** `s.splitlines()`: the lines without their terminators; a terminator at
      the very end opens no further line. */
  function SplitLines(s: string): (lines: seq<string>)
    ensures s == [] <==> lines == []
    ensures forall l :: l in lines ==> NoLineBreak(l)
    decreases |s|
  {
    if s == [] then []
    else
      var i := LineEnd(s);
      if i == |s| then [s]
      else
        var next := if s[i] == '\r' && i + 1 < |s| && s[i + 1] == '\n' then i + 2 else i + 1;
        [s[..i]] + SplitLines(s[next..])
  }

  /** Text without a line boundary is one line. */
  lemma OneLine(s: string)
    requires s != [] && NoLineBreak(s)
    ensures SplitLines(s) == [s]
  {
    assert LineEnd(s) == |s|;
  }

  /** A "\n" after a line without boundaries ends exactly that line. */
  lemma NewlineEndsLine(l: string, rest: string)
    requires NoLineBreak(l)
    ensures SplitLines(l + "\n" + rest) == [l] + SplitLines(rest)
  {
    var s := l + "\n" + rest;
    LineEndIs(l, rest);
    assert s[..|l|] == l;
    assert s[|l| + 1..] == rest;
  }

  lemma {:induction false} LineEndIs(l: string, rest: string)
    requires NoLineBreak(l)
    ensures LineEnd(l + "\n" + rest) == |l|
  {
    if l != [] {
      assert (l + "\n" + rest)[1..] == l[1..] + "\n" + rest;
      LineEndIs(l[1..], rest);
    }
  }
}
