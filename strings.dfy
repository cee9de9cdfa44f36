/** The string operations of Python's `str` that the mirrorer relies on,
    over `string` (a `seq<char>`). */
module Strings {

  /** `s.split(c)`: the pieces between the occurrences of `c`. */
  function Split(s: string, c: char): (r: seq<string>)
    ensures |r| >= 1
    ensures forall i :: 0 <= i < |r| ==> c !in r[i]
    decreases |s|
  {
    if s == [] then [""]
    else
      var rest := Split(s[1..], c);
      if s[0] == c then [""] + rest
      else [[s[0]] + rest[0]] + rest[1..]
  }

  /** Every piece of `s.split(c)` is made of characters of `s`. */
  lemma {:induction false} SplitKeepsChars(s: string, c: char, d: char)
    requires d !in s
    ensures forall i :: 0 <= i < |Split(s, c)| ==> d !in Split(s, c)[i]
    decreases |s|
  {
    if s != [] {
      SplitKeepsChars(s[1..], c, d);
    }
  }

  /** A string without the separator is one piece. */
  lemma {:induction false} SplitNoSep(s: string, c: char)
    requires c !in s
    ensures Split(s, c) == [s]
    decreases |s|
  {
    if s != [] {
      SplitNoSep(s[1..], c);
      assert [s[0]] + s[1..] == s;
    }
  }

  /** Splitting distributes over a separator. */
  lemma {:induction false} SplitAppend(x: string, y: string, c: char)
    ensures Split(x + [c] + y, c) == Split(x, c) + Split(y, c)
    decreases |x|
  {
    var s := x + [c] + y;
    var sy := Split(y, c);
    if x == [] {
      assert s == [c] + y && s[1..] == y;
      assert Split(x, c) == [""];
    } else {
      assert s[0] == x[0] && s[1..] == x[1..] + [c] + y;
      SplitAppend(x[1..], y, c);
      var px := Split(x[1..], c);
      var rest := Split(s[1..], c);
      assert rest == px + sy;
      SplitCons(s, c);
      SplitCons(x, c);
      if x[0] == c {
        Assoc([""], px, sy);
      } else {
        HeadMerge([x[0]] + px[0], px, sy);
      }
    }
  }

  /** How `Split` takes the first character. */
  lemma SplitCons(s: string, c: char)
    requires s != []
    ensures s[0] == c ==> Split(s, c) == [""] + Split(s[1..], c)
    ensures s[0] != c ==> Split(s, c) == [[s[0]] + Split(s[1..], c)[0]] + Split(s[1..], c)[1..]
  {
  }

  lemma HeadMerge<T>(f: T, p: seq<T>, q: seq<T>)
    requires p != []
    ensures [f] + (p + q)[1..] == ([f] + p[1..]) + q
  {
    assert (p + q)[1..] == p[1..] + q;
  }

  lemma Assoc<T>(a: seq<T>, b: seq<T>, c: seq<T>)
    ensures a + (b + c) == (a + b) + c
  {
  }

  /** `c.join(parts)`. */
  function Intercalate(parts: seq<string>, c: char): string
    decreases |parts|
  {
    if parts == [] then ""
    else if |parts| == 1 then parts[0]
    else parts[0] + [c] + Intercalate(parts[1..], c)
  }

  /** Joining pieces that do not contain the separator and splitting again gives them back. */
  lemma {:induction false} SplitIntercalate(parts: seq<string>, c: char)
    requires |parts| >= 1
    requires forall i :: 0 <= i < |parts| ==> c !in parts[i]
    ensures Split(Intercalate(parts, c), c) == parts
    decreases |parts|
  {
    if |parts| == 1 {
      SplitNoSep(parts[0], c);
    } else {
      SplitIntercalate(parts[1..], c);
      SplitNoSep(parts[0], c);
      SplitAppend(parts[0], Intercalate(parts[1..], c), c);
      assert [parts[0]] + parts[1..] == parts;
    }
  }

  /** The characters of a joined string come from the pieces or are the separator. */
  lemma {:induction false} IntercalateChars(parts: seq<string>, c: char, d: char)
    requires d != c
    requires forall i :: 0 <= i < |parts| ==> d !in parts[i]
    ensures d !in Intercalate(parts, c)
    decreases |parts|
  {
    if |parts| > 1 {
      IntercalateChars(parts[1..], c, d);
    }
  }

  /** A character-for-character substitution: every character of `bad` becomes `sub`
      (the shape of `re.sub` with a one-character class and `str.replace` of one character). */
  function Substitute(s: string, bad: set<char>, sub: char): (r: string)
    ensures |r| == |s|
    ensures forall i :: 0 <= i < |s| ==> r[i] == (if s[i] in bad then sub else s[i])
  {
    seq(|s|, i requires 0 <= i < |s| => if s[i] in bad then sub else s[i])
  }

  /** `s.lstrip(chars)`: the longest suffix of `s` that does not start with one of `chars`. */
  function LStrip(s: string, chars: set<char>): (r: string)
    ensures EndsWith(s, r)
    ensures forall i :: 0 <= i < |s| - |r| ==> s[i] in chars
    ensures r == [] || r[0] !in chars
    decreases |s|
  {
    if s != [] && s[0] in chars then LStrip(s[1..], chars) else s
  }

  /** `s.rstrip(chars)`: the longest prefix of `s` that does not end with one of `chars`. */
  function RStrip(s: string, chars: set<char>): (r: string)
    ensures r <= s
    ensures forall i :: |r| <= i < |s| ==> s[i] in chars
    ensures r == [] || r[|r| - 1] !in chars
    decreases |s|
  {
    if s != [] && s[|s| - 1] in chars then RStrip(s[..|s| - 1], chars) else s
  }

  /** `s.rfind(c)`: the index of the last `c` in `s`, or -1. */
  function RFind(s: string, c: char): (r: int)
    ensures -1 <= r < |s|
    ensures 0 <= r ==> s[r] == c
    ensures forall j :: r < j < |s| ==> s[j] != c
    decreases |s|
  {
    if s == [] then -1
    else if s[|s| - 1] == c then |s| - 1
    else RFind(s[..|s| - 1], c)
  }

  /** The last occurrence determines `rfind`. */
  lemma RFindAt(s: string, c: char, k: int)
    requires -1 <= k < |s| && (0 <= k ==> s[k] == c)
    requires forall j :: k < j < |s| ==> s[j] != c
    ensures RFind(s, c) == k
  {
  }

  /** The characters for which Python's `str.isspace()` holds: what `str.strip()` removes
      and what separates the tokens of a multi-valued HTML attribute. */
  const Whitespace: set<char> := {
    '\t', '\n', '\U{000B}', '\U{000C}', '\r', '\U{001C}', '\U{001D}', '\U{001E}', '\U{001F}',
    ' ', '\U{0085}', '\U{00A0}', '\U{1680}', '\U{2000}', '\U{2001}', '\U{2002}', '\U{2003}',
    '\U{2004}', '\U{2005}', '\U{2006}', '\U{2007}', '\U{2008}', '\U{2009}', '\U{200A}',
    '\U{2028}', '\U{2029}', '\U{202F}', '\U{205F}', '\U{3000}'
  }

  /** `s.strip()`: the slice of `s` left once the whitespace at both ends is removed. */
  function Strip(s: string): (r: string)
    ensures |r| <= |s|
    ensures r == [] || (r[0] !in Whitespace && r[|r| - 1] !in Whitespace)
    ensures forall k :: 0 <= k < |s| && s[k] !in Whitespace ==> s[k] in r
  {
    StripBoth(s, Whitespace);
    LStrip(RStrip(s, Whitespace), Whitespace)
  }

  /** `s.strip()` is one slice of `s`, with only whitespace before and after it. */
  lemma StripIsSlice(s: string)
    ensures exists a :: StrippedAt(s, Strip(s), a, Whitespace)
  {
    var a := StripSlice(s, Whitespace);
    assert Strip(s) == LStrip(RStrip(s, Whitespace), Whitespace);
    assert StrippedAt(s, Strip(s), a, Whitespace);
  }

  /** `r` is the slice of `s` from `a`, and every character of `s` outside it is in `chars`. */
  predicate StrippedAt(s: string, r: string, a: int, chars: set<char>) {
    0 <= a <= |s| - |r| && r == s[a..a + |r|] &&
    (forall i :: 0 <= i < a ==> s[i] in chars) &&
    (forall i :: a + |r| <= i < |s| ==> s[i] in chars)
  }

  /** Stripping both ends leaves a slice of `s` with only `chars` around it. */
  lemma StripSlice(s: string, chars: set<char>) returns (a: int)
    ensures StrippedAt(s, LStrip(RStrip(s, chars), chars), a, chars)
  {
    var t := RStrip(s, chars);
    var r := LStrip(t, chars);
    a := |t| - |r|;
    assert r == t[a..] == s[a..a + |r|];
    assert forall i :: 0 <= i < a ==> s[i] == t[i];
    assert StrippedAt(s, r, a, chars);
  }

  /** Stripping `chars` from both ends leaves no such character at either end and
      keeps every other character. */
  lemma StripBoth(s: string, chars: set<char>)
    ensures var r := LStrip(RStrip(s, chars), chars);
            r == [] || (r[0] !in chars && r[|r| - 1] !in chars)
    ensures var r := LStrip(RStrip(s, chars), chars);
            forall k :: 0 <= k < |s| && s[k] !in chars ==> s[k] in r
  {
    var t := RStrip(s, chars);
    var r := LStrip(t, chars);
    if r != [] {
      SuffixLast(t, r);
    }
    KeepsInner(s, t, r, chars);
  }

  lemma SuffixLast(t: string, r: string)
    requires EndsWith(t, r) && r != []
    ensures r[|r| - 1] == t[|t| - 1]
  {
  }

  /** `r` is `s` less a prefix and a suffix made of `chars`. */
  lemma KeepsInner(s: string, t: string, r: string, chars: set<char>)
    requires t <= s && forall i :: |t| <= i < |s| ==> s[i] in chars
    requires EndsWith(t, r) && forall i :: 0 <= i < |t| - |r| ==> t[i] in chars
    ensures forall k :: 0 <= k < |s| && s[k] !in chars ==> s[k] in r
  {
    var n := |t| - |r|;
    forall k | 0 <= k < |s| && s[k] !in chars
      ensures s[k] in r
    {
      assert k < |t| && s[k] == t[k];
      assert n <= k && r[k - n] == t[k];
    }
  }

  /** `s.lower()` on the ASCII letters. */
  function LowerChar(ch: char): char {
    if 'A' <= ch <= 'Z' then (ch as int + 32) as char else ch
  }

  function Lower(s: string): (r: string)
    ensures |r| == |s|
    ensures forall i :: 0 <= i < |s| ==> r[i] == LowerChar(s[i])
  {
    seq(|s|, i requires 0 <= i < |s| => LowerChar(s[i]))
  }

  /** `w` is a suffix of `s` (`s.endswith(w)` on strings). */
  predicate EndsWith<T(==)>(s: seq<T>, w: seq<T>) {
    |w| <= |s| && s[|s| - |w|..] == w
  }

  /** `w in s`: `w` occurs as a substring of `s`. */
  predicate Occurs(w: string, s: string) {
    exists i :: 0 <= i <= |s| && OccursAt(s, w, i)
  }

  predicate OccursAt(s: string, w: string, i: int) {
    0 <= i <= |s| - |w| && s[i..i + |w|] == w
  }

  /** `w` occurs in `s` as a whole whitespace-separated token, starting at index `i`. */
  predicate TokenAt(s: string, w: string, i: int) {
    0 <= i <= |s| - |w| && s[i..i + |w|] == w &&
    (i == 0 || s[i - 1] in Whitespace) &&
    (i + |w| == |s| || s[i + |w|] in Whitespace)
  }

  /** `w` is one of the tokens of `s` split at runs of whitespace. */
  predicate HasToken(s: string, w: string) {
    exists i :: 0 <= i <= |s| && TokenAt(s, w, i)
  }
}
