/** Python's string operations on `str`, as the handlers use them. */
module Text {
  import opened Base

  /** Python's `str.isspace()` for one character: the set that `\s` in a `str`
      regular expression, `str.strip()` and `str.split()` all treat as
      whitespace. */
  predicate IsSpace(c: char) {
    c == ' ' || ('\t' <= c <= '\r') || ('\U{1c}' <= c <= '\U{1f}')
    || c == '\U{85}' || c == '\U{a0}' || c == '\U{1680}'
    || ('\U{2000}' <= c <= '\U{200a}') || c == '\U{2028}' || c == '\U{2029}'
    || c == '\U{202f}' || c == '\U{205f}' || c == '\U{3000}'
  }

  predicate AllSpace(s: string) {
    forall i :: 0 <= i < |s| ==> IsSpace(s[i])
  }

  /** An ASCII letter or digit, the class `[a-zA-Z0-9]`. */
  predicate IsAsciiAlnum(c: char) {
    ('a' <= c <= 'z') || ('A' <= c <= 'Z') || ('0' <= c <= '9')
  }

  /** `sub` occurs in `s` at position `i`. */
  predicate OccursAt(s: string, sub: string, i: nat) {
    i + |sub| <= |s| && s[i..i + |sub|] == sub
  }

  /** `sub in s` for two strings. */
  predicate Contains(s: string, sub: string) {
    exists i: nat | i <= |s| :: OccursAt(s, sub, i)
  }

  lemma ContainsMiddle(a: string, b: string, c: string)
    ensures Contains(a + b + c, b)
  {
    assert (a + b + c)[|a|..|a| + |b|] == b;
    assert OccursAt(a + b + c, b, |a|);
  }

  /** Text around a string keeps what the string contains. */
  lemma ContainsWithin(a: string, b: string, c: string, sub: string)
    requires Contains(b, sub)
    ensures Contains(a + b + c, sub)
  {
    var i: nat :| i <= |b| && OccursAt(b, sub, i);
    assert (a + b + c)[|a| + i..|a| + i + |sub|] == b[i..i + |sub|];
    assert OccursAt(a + b + c, sub, |a| + i);
  }

  /** Text after a string keeps what the string contains. */
  lemma ContainsPrefix(b: string, c: string, sub: string)
    requires Contains(b, sub)
    ensures Contains(b + c, sub)
  {
    var i: nat :| i <= |b| && OccursAt(b, sub, i);
    assert (b + c)[i..i + |sub|] == b[i..i + |sub|];
    assert OccursAt(b + c, sub, i);
  }

  /** Length of the longest prefix of `s` whose characters are all
      whitespace (`space`) or all non-whitespace (`!space`). */
  function LeadingRun(s: string, space: bool): (n: nat)
    ensures n <= |s|
    ensures forall i :: 0 <= i < n ==> IsSpace(s[i]) == space
    ensures n < |s| ==> IsSpace(s[n]) != space
  {
    if s == [] || IsSpace(s[0]) != space then 0 else 1 + LeadingRun(s[1..], space)
  }

  /** Length of the longest suffix of `s` whose characters are all
      whitespace (`space`) or all non-whitespace (`!space`). */
  function TrailingRun(s: string, space: bool): (n: nat)
    ensures n <= |s|
    ensures forall i :: |s| - n <= i < |s| ==> IsSpace(s[i]) == space
    ensures n < |s| ==> IsSpace(s[|s| - n - 1]) != space
  {
    if s == [] || IsSpace(s[|s| - 1]) != space then 0
    else 1 + TrailingRun(s[..|s| - 1], space)
  }

  /** `s.lstrip()`. */
  function StripLeft(s: string): string {
    s[LeadingRun(s, true)..]
  }

  /** `s.rstrip()`. */
  function StripRight(s: string): string {
    s[..|s| - TrailingRun(s, true)]
  }

  /** `s.strip()`: the result is empty exactly when `s` is all whitespace, and
      otherwise neither starts nor ends with whitespace. */
  function Strip(s: string): (r: string)
    ensures r == [] <==> AllSpace(s)
    ensures r != [] ==> !IsSpace(r[0]) && !IsSpace(r[|r| - 1])
    ensures |r| <= |s|
  {
    var t := StripLeft(s);
    var r := StripRight(t);
    if t == [] then
      r
    else
      assert t[0] == s[LeadingRun(s, true)];
      assert TrailingRun(t, true) < |t|;
      assert r[0] == t[0];
      r
  }

  /** What `s.strip()` keeps is a slice of `s` with only whitespace cut off
      on either side. */
  lemma StripSlice(s: string)
    ensures exists a, b :: 0 <= a <= b <= |s| && Strip(s) == s[a..b] && AllSpace(s[..a]) && AllSpace(s[b..])
  {
    var a := LeadingRun(s, true);
    var t := StripLeft(s);
    var b := a + |t| - TrailingRun(t, true);
    assert Strip(s) == s[a..b];
    assert AllSpace(s[..a]);
    assert AllSpace(s[b..]) by {
      forall i | 0 <= i < |s| - b ensures IsSpace(s[b..][i]) {
        assert s[b..][i] == t[|t| - TrailingRun(t, true) + i];
      }
    }
  }

  /** `s.split()` with no separator: the maximal runs of non-whitespace, in
      order. */
  function Split(s: string): (words: seq<string>)
    ensures forall k :: 0 <= k < |words| ==> words[k] != []
    ensures forall k, i :: 0 <= k < |words| && 0 <= i < |words[k]| ==> !IsSpace(words[k][i])
    decreases |s|
  {
    var t := StripLeft(s);
    if t == [] then []
    else
      var n := LeadingRun(t, false);
      [t[..n]] + Split(t[n..])
  }

  /** The last whitespace-separated word of `s`, read from the right: the
      non-whitespace characters that end `s.rstrip()`. */
  function LastWord(s: string): string {
    var u := StripRight(s);
    u[|u| - TrailingRun(u, false)..]
  }

  /** A character of `r` outside the run bounds the run: `p` in front does
      not change it. */
  lemma {:induction false} TrailingRunAppend(p: string, r: string, space: bool, i: nat)
    requires i < |r| && IsSpace(r[i]) != space
    ensures TrailingRun(p + r, space) == TrailingRun(r, space)
    decreases |r|
  {
    var s := p + r;
    assert s[|s| - 1] == r[|r| - 1];
    if IsSpace(r[|r| - 1]) == space {
      assert s[..|s| - 1] == p + r[..|r| - 1];
      assert r[..|r| - 1][i] == r[i];
      TrailingRunAppend(p, r[..|r| - 1], space, i);
    }
  }

  /** Trailing whitespace after a non-space in `r` is stripped from `r`
      alone. */
  lemma StripRightAppend(p: string, r: string, i: nat)
    requires i < |r| && !IsSpace(r[i])
    ensures StripRight(p + r) == p + StripRight(r)
  {
    TrailingRunAppend(p, r, true, i);
    var k := TrailingRun(r, true);
    assert (p + r)[..|p + r| - k] == p + r[..|r| - k];
  }

  /** A word followed by whitespace leaves the last word to what follows. */
  lemma LastWordAppend(p: string, r: string, i: nat)
    requires r != [] && IsSpace(r[0])
    requires i < |r| && !IsSpace(r[i])
    ensures LastWord(p + r) == LastWord(r)
  {
    StripRightAppend(p, r, i);
    var r' := StripRight(r);
    var k := TrailingRun(r, true);
    assert i < |r| - k;
    assert r' == r[..|r| - k];
    assert r' != [] && IsSpace(r'[0]);
    TrailingRunAppend(p, r', false, 0);
    var m := TrailingRun(r', false);
    SuffixOfAppend(p, r', m);
  }

  lemma SuffixOfAppend(p: string, q: string, m: nat)
    requires m <= |q|
    ensures (p + q)[|p + q| - m..] == q[|q| - m..]
  {
  }

  /** Whitespace, one word, whitespace: that word is the last word. */
  lemma LastWordSingle(q: string, w: string, rest: string)
    requires AllSpace(q) && AllSpace(rest)
    requires w != [] && forall i :: 0 <= i < |w| ==> !IsSpace(w[i])
    ensures LastWord(q + w + rest) == w
  {
    var p := q + w;
    assert p[|p| - 1] == w[|w| - 1];
    TrailingRunLen(p, rest);
    assert StripRight(p + rest) == p by {
      assert (p + rest)[..|p + rest| - |rest|] == p;
    }
    assert q == [] || IsSpace(q[|q| - 1]);
    TrailingWordOf(q, w);
    assert p[|p| - |w|..] == w;
  }

  /** The word-at-a-time reading of `s.split()` and the right-to-left
      reading agree: there are no words exactly when `s` is all whitespace,
      and otherwise the last word of `s.split()` is `LastWord(s)`. */
  lemma {:induction false} SplitLast(s: string)
    ensures Split(s) == [] <==> AllSpace(s)
    ensures Split(s) != [] ==> Split(s)[|Split(s)| - 1] == LastWord(s)
    decreases |s|
  {
    if StripLeft(s) == [] {
      assert LeadingRun(s, true) == |s|;
      LeadingRunAll(s);
    } else {
      var q, w, rest := SplitHead(s);
      SplitLast(rest);
      if Split(rest) == [] {
        LastWordSingle(q, w, rest);
      } else {
        assert s == (q + w) + rest;
        LastWordAfterSpace(q + w, rest);
      }
    }
  }

  /** A text with a word in it is leading whitespace `q`, its first word `w`
      and the rest, which is empty or starts with whitespace; `s.split()`
      is `w` followed by the words of the rest. */
  lemma SplitHead(s: string) returns (q: string, w: string, rest: string)
    requires StripLeft(s) != []
    ensures s == q + w + rest && AllSpace(q) && !AllSpace(s)
    ensures w != [] && forall i :: 0 <= i < |w| ==> !IsSpace(w[i])
    ensures rest == [] || IsSpace(rest[0])
    ensures |rest| < |s| && Split(s) == [w] + Split(rest)
  {
    var a := LeadingRun(s, true);
    var t := StripLeft(s);
    assert t[0] == s[a] && !IsSpace(s[a]);
    var n := LeadingRun(t, false);
    q, w, rest := s[..a], t[..n], t[n..];
    assert s == q + w + rest;
    if rest != [] {
      assert rest[0] == t[n];
    }
  }

  /** `s` is all whitespace exactly when its leading whitespace is all of it. */
  lemma LeadingRunAll(s: string)
    ensures LeadingRun(s, true) == |s| <==> AllSpace(s)
  {
  }

  /** A text that starts with whitespace but is not all whitespace ends in
      the same last word whatever comes before it. */
  lemma LastWordAfterSpace(p: string, r: string)
    requires r != [] && IsSpace(r[0]) && !AllSpace(r)
    ensures LastWord(p + r) == LastWord(r)
  {
    LeadingRunAll(r);
    LastWordAppend(p, r, LeadingRun(r, true));
  }

  /** Trailing whitespace of `p + r`, when `r` is all whitespace and `p` ends in
      a non-whitespace character, is exactly `r`. */
  lemma {:induction false} TrailingRunLen(p: string, r: string)
    requires p != [] && !IsSpace(p[|p| - 1]) && AllSpace(r)
    ensures TrailingRun(p + r, true) == |r|
    decreases |r|
  {
    var s := p + r;
    if r == [] {
      assert s == p;
    } else {
      assert s[..|s| - 1] == p + r[..|r| - 1];
      TrailingRunLen(p, r[..|r| - 1]);
    }
  }

  /** Trailing non-whitespace of `q + w`, when `w` is a word and `q` is empty
      or ends in whitespace, is exactly `w`. */
  lemma {:induction false} TrailingWordOf(q: string, w: string)
    requires q == [] || IsSpace(q[|q| - 1])
    requires forall i :: 0 <= i < |w| ==> !IsSpace(w[i])
    ensures TrailingRun(q + w, false) == |w|
    decreases |w|
  {
    var s := q + w;
    if w == [] {
      assert s == q;
    } else {
      assert s[..|s| - 1] == q + w[..|w| - 1];
      TrailingWordOf(q, w[..|w| - 1]);
    }
  }

  /** ASCII `str.lower()` for one character. */
  function LowerChar(c: char): (d: char)
    ensures 'A' <= c <= 'Z' ==> 'a' <= d <= 'z'
    ensures !('A' <= c <= 'Z') ==> d == c
  {
    if 'A' <= c <= 'Z' then (c as int + 32) as char else c
  }

  /** `s.lower()`, for the ASCII letters (see README on non-ASCII case
      mapping). */
  function Lower(s: string): (r: string)
    ensures |r| == |s|
    ensures forall i :: 0 <= i < |s| ==> r[i] == LowerChar(s[i])
  {
    seq(|s|, i requires 0 <= i < |s| => LowerChar(s[i]))
  }

  /** `sep.join(xs)`. */
  function Join(xs: seq<string>, sep: string): string {
    if xs == [] then []
    else if |xs| == 1 then xs[0]
    else xs[0] + sep + Join(xs[1..], sep)
  }

  lemma JoinFirst(xs: seq<string>, sep: string)
    requires xs != []
    ensures exists tail :: Join(xs, sep) == xs[0] + tail
  {
    if |xs| > 1 {
      assert Join(xs, sep) == xs[0] + (sep + Join(xs[1..], sep));
    } else {
      assert Join(xs, sep) == xs[0] + [];
    }
  }

  /** Concatenation of a sequence of strings, in order. */
  function Concat(xs: seq<string>): string {
    if xs == [] then [] else Concat(xs[..|xs| - 1]) + xs[|xs| - 1]
  }

  /** Concatenation distributes over appending sequences. */
  lemma {:induction false} ConcatAppend(a: seq<string>, b: seq<string>)
    ensures Concat(a + b) == Concat(a) + Concat(b)
    decreases |b|
  {
    if b == [] {
      assert a + b == a;
    } else {
      var c := b[..|b| - 1];
      assert (a + b)[..|a + b| - 1] == a + c;
      ConcatAppend(a, c);
    }
  }

  function DigitChar(d: nat): char
    requires d < 16
  {
    "0123456789abcdef"[d]
  }

  /** `str(n)` of a non-negative integer: decimal digits, no leading zero. */
  function NatToString(n: nat): (r: string)
    ensures r != [] && (|r| > 1 ==> r[0] != '0')
    ensures forall i :: 0 <= i < |r| ==> '0' <= r[i] <= '9'
  {
    if n < 10 then [DigitChar(n)] else NatToString(n / 10) + [DigitChar(n % 10)]
  }

  /** `str(n)` of an integer. */
  function IntToString(n: int): string {
    if n < 0 then "-" + NatToString(-n) else NatToString(n)
  }

  /** `'{0:0<width>x}'.format(n)`: lower-case hexadecimal padded with zeros to
      `width` digits (for `n < 16^width`). */
  function Hex(n: nat, width: nat): (r: string)
    ensures |r| == width
  {
    if width == 0 then [] else Hex(n / 16, width - 1) + [DigitChar(n % 16)]
  }
}
