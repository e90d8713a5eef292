/**
 * The handful of Python `str` operations the scraper relies on: `find`,
 * `split`, `join`, `lstrip`/`rstrip`/`strip`, `replace` with an empty
 * replacement, and the ASCII part of `upper`/`lower`.
 */
module Strings {

  /** Position of the first `c` in `s`, or `|s|` when `s` has none (`str.find`, with -1 read as `|s|`). */
  function IndexOf(s: string, c: char): (r: nat)
    ensures r <= |s|
    ensures forall k :: 0 <= k < r ==> s[k] != c
    ensures r < |s| ==> s[r] == c
  {
    if s == [] || s[0] == c then 0 else 1 + IndexOf(s[1..], c)
  }

  /** Position of the first character of `s` that lies in `cs`, or `|s|`. */
  function IndexOfAny(s: string, cs: set<char>): (r: nat)
    ensures r <= |s|
    ensures forall k :: 0 <= k < r ==> s[k] !in cs
    ensures r < |s| ==> s[r] in cs
  {
    if s == [] || s[0] in cs then 0 else 1 + IndexOfAny(s[1..], cs)
  }

  /** A search that passes over `a` without a hit continues in `b`. */
  lemma {:induction false} IndexOfAppend(a: string, b: string, c: char)
    requires c !in a
    ensures IndexOf(a + b, c) == |a| + IndexOf(b, c)
  {
    if a != [] {
      assert (a + b)[0] == a[0] != c;
      assert (a + b)[1..] == a[1..] + b;
      IndexOfAppend(a[1..], b, c);
    } else {
      assert a + b == b;
    }
  }

  /** The same for a search for any character of a set. */
  lemma {:induction false} IndexOfAnyAppend(a: string, b: string, cs: set<char>)
    requires forall k :: 0 <= k < |a| ==> a[k] !in cs
    ensures IndexOfAny(a + b, cs) == |a| + IndexOfAny(b, cs)
  {
    if a != [] {
      assert (a + b)[0] == a[0] && a[0] !in cs;
      assert (a + b)[1..] == a[1..] + b;
      IndexOfAnyAppend(a[1..], b, cs);
    } else {
      assert a + b == b;
    }
  }

  /** `s.split(sep)` for a one-character separator: every piece, empty ones included. */
  function Split(s: string, sep: char): (parts: seq<string>)
    ensures |parts| >= 1
    ensures forall k :: 0 <= k < |parts| ==> sep !in parts[k]
    decreases |s|
  {
    var i := IndexOf(s, sep);
    if i == |s| then [s] else [s[..i]] + Split(s[i + 1..], sep)
  }

  /** `sep.join(parts)`. */
  function Join(parts: seq<string>, sep: char): string
  {
    if parts == [] then ""
    else if |parts| == 1 then parts[0]
    else parts[0] + [sep] + Join(parts[1..], sep)
  }

  /** Joining the pieces of a split gives the original string back. */
  lemma {:induction false} JoinSplit(s: string, sep: char)
    ensures Join(Split(s, sep), sep) == s
    decreases |s|
  {
    var i := IndexOf(s, sep);
    if i < |s| {
      JoinSplit(s[i + 1..], sep);
      assert s == s[..i] + [sep] + s[i + 1..];
    }
  }

  /** The first separator of a join sits right after the first piece. */
  lemma JoinFirstSeparator(parts: seq<string>, sep: char)
    requires |parts| >= 2
    requires sep !in parts[0]
    ensures IndexOf(Join(parts, sep), sep) == |parts[0]|
    ensures Join(parts, sep)[..|parts[0]|] == parts[0]
    ensures Join(parts, sep)[|parts[0]| + 1..] == Join(parts[1..], sep)
  {
    var s := Join(parts, sep);
    var n := |parts[0]|;
    assert s == parts[0] + [sep] + Join(parts[1..], sep);
    assert s[n] == sep;
    assert forall k :: 0 <= k < n ==> s[k] == parts[0][k];
  }

  /** Splitting a join of separator-free pieces gives the pieces back. */
  lemma {:induction false} SplitJoin(parts: seq<string>, sep: char)
    requires |parts| >= 1
    requires forall k :: 0 <= k < |parts| ==> sep !in parts[k]
    ensures Split(Join(parts, sep), sep) == parts
    decreases |parts|
  {
    if |parts| == 1 {
      assert Join(parts, sep) == parts[0];
    } else {
      JoinFirstSeparator(parts, sep);
      SplitJoin(parts[1..], sep);
      assert parts == [parts[0]] + parts[1..];
    }
  }

  /** `s.lstrip(chars)`: drops the longest prefix whose characters all satisfy `drop`. */
  function LStrip(s: string, drop: char -> bool): (r: string)
    ensures |r| <= |s| && r == s[|s| - |r|..]
    ensures r == [] || !drop(r[0])
    ensures forall k :: 0 <= k < |s| - |r| ==> drop(s[k])
  {
    if s != [] && drop(s[0]) then
      assert forall k :: 1 <= k < |s| ==> s[k] == s[1..][k - 1];
      LStrip(s[1..], drop)
    else s
  }

  /** Stripping a prefix made only of dropped characters, in front of text that does not start with one, leaves exactly that text. */
  lemma LStripPrefix(a: string, b: string, drop: char -> bool)
    requires forall k :: 0 <= k < |a| ==> drop(a[k])
    requires b == [] || !drop(b[0])
    ensures LStrip(a + b, drop) == b
  {
    var s := a + b;
    var r := LStrip(s, drop);
    var m := |s| - |r|;
    assert m >= |a|;
    assert s[|a|..] == b;
  }

  /** `s.rstrip(chars)`: drops the longest suffix whose characters all satisfy `drop`. */
  function RStrip(s: string, drop: char -> bool): (r: string)
    ensures |r| <= |s| && r == s[..|r|]
    ensures r == [] || !drop(r[|r| - 1])
    ensures forall k :: |r| <= k < |s| ==> drop(s[k])
  {
    if s != [] && drop(s[|s| - 1]) then RStrip(s[..|s| - 1], drop) else s
  }

  /** Python's `str.isspace` for one character. */
  predicate IsSpace(c: char)
  {
    || '\t' <= c <= '\r'
    || '\U{1C}' <= c <= ' '
    || c == '\U{85}' || c == '\U{A0}' || c == '\U{1680}'
    || '\U{2000}' <= c <= '\U{200A}'
    || c == '\U{2028}' || c == '\U{2029}' || c == '\U{202F}' || c == '\U{205F}' || c == '\U{3000}'
  }

  /** A string with no whitespace at either end. */
  predicate Trimmed(s: string)
  {
    s == [] || (!IsSpace(s[0]) && !IsSpace(s[|s| - 1]))
  }

  /** `s.strip()`: no whitespace left at either end. */
  function Strip(s: string): (r: string)
    ensures Trimmed(r)
    ensures |r| <= |s|
  {
    RStrip(LStrip(s, IsSpace), IsSpace)
  }

  /** Stripping only removes characters: a character absent from `s` is absent from `s.strip()`. */
  lemma StripKeepsOut(s: string, c: char)
    requires c !in s
    ensures c !in Strip(s)
  {
    var t := LStrip(s, IsSpace);
    var r := RStrip(t, IsSpace);
    forall k | 0 <= k < |r| ensures r[k] != c {
      assert r[k] == t[k];
      assert t[k] == s[|s| - |t| + k];
    }
  }

  /** `s.rstrip(chars)` of a string followed by droppable characters. */
  lemma RStripSuffix(a: string, b: string, drop: char -> bool)
    requires a == [] || !drop(a[|a| - 1])
    requires forall k :: 0 <= k < |b| ==> drop(b[k])
    ensures RStrip(a + b, drop) == a
  {
    var s := a + b;
    var r := RStrip(s, drop);
    if a != [] {
      assert s[|a| - 1] == a[|a| - 1];
    }
    assert |r| >= |a|;
    forall k | |a| <= k < |s| ensures drop(s[k]) {
      assert s[k] == b[k - |a|];
    }
    assert r == [] || r[|r| - 1] == s[|r| - 1];
    assert |r| == |a|;
    assert s[..|a|] == a;
  }

  /** Stripping removes exactly the whitespace padding around a trimmed string. */
  lemma StripPadded(left: string, x: string, right: string)
    requires forall k :: 0 <= k < |left| ==> IsSpace(left[k])
    requires forall k :: 0 <= k < |right| ==> IsSpace(right[k])
    requires Trimmed(x) && x != []
    ensures Strip(left + x + right) == x
  {
    assert left + x + right == left + (x + right);
    LStripPrefix(left, x + right, IsSpace);
    RStripSuffix(x, right, IsSpace);
  }

  /** A trimmed string is its own strip. */
  lemma StripTrimmed(x: string)
    requires Trimmed(x)
    ensures Strip(x) == x
  {
    if x != [] {
      StripPadded([], x, []);
      assert [] + x + [] == x;
    }
  }

  /** A string of whitespace only strips to nothing. */
  lemma StripBlank(s: string)
    requires forall k :: 0 <= k < |s| ==> IsSpace(s[k])
    ensures Strip(s) == []
  {
    assert s + [] == s;
    LStripPrefix(s, [], IsSpace);
  }

  /** `s.replace(c, '')` for every `c` in `cs`. */
  function RemoveAll(s: string, cs: set<char>): (r: string)
    ensures forall k :: 0 <= k < |r| ==> r[k] !in cs
    ensures |r| <= |s|
  {
    if s == [] then []
    else if s[0] in cs then RemoveAll(s[1..], cs)
    else [s[0]] + RemoveAll(s[1..], cs)
  }

  /** Removing characters that do not occur changes nothing. */
  lemma {:induction false} RemoveAllAbsent(s: string, cs: set<char>)
    requires forall k :: 0 <= k < |s| ==> s[k] !in cs
    ensures RemoveAll(s, cs) == s
  {
    if s != [] {
      RemoveAllAbsent(s[1..], cs);
    }
  }

  /** `s.replace(c, d)`. */
  function ReplaceChar(s: string, c: char, d: char): (r: string)
    ensures |r| == |s|
    ensures forall k :: 0 <= k < |s| ==> r[k] == if s[k] == c then d else s[k]
  {
    seq(|s|, k requires 0 <= k < |s| => if s[k] == c then d else s[k])
  }

  predicate IsAsciiLetter(c: char)
  {
    'a' <= c <= 'z' || 'A' <= c <= 'Z'
  }

  predicate IsAsciiDigit(c: char)
  {
    '0' <= c <= '9'
  }

  function UpperChar(c: char): char
  {
    if 'a' <= c <= 'z' then (c as int - 32) as char else c
  }

  function LowerChar(c: char): char
  {
    if 'A' <= c <= 'Z' then (c as int + 32) as char else c
  }

  /** `s.upper()` on the ASCII letters. */
  function ToUpper(s: string): (r: string)
    ensures |r| == |s|
  {
    seq(|s|, k requires 0 <= k < |s| => UpperChar(s[k]))
  }

  /** `s.lower()` on the ASCII letters. */
  function ToLower(s: string): (r: string)
    ensures |r| == |s|
  {
    seq(|s|, k requires 0 <= k < |s| => LowerChar(s[k]))
  }
}
