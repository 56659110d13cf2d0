/**
 * The handful of Python `str` operations the modelled code relies on:
 * strip, startswith, `in`, split on one character, join, replace, ASCII
 * lower-casing, slicing with Python's clamping, decimal formatting of a
 * count, and string ordering by code point.
 */
module Text {

  /** `c.isspace()`: the characters Python counts as whitespace. */
  predicate IsSpace(c: char)
  {
    var n := c as int;
    (9 <= n <= 13) || (28 <= n <= 32) || n == 0x85 || n == 0xA0 || n == 0x1680
    || (0x2000 <= n <= 0x200A) || n == 0x2028 || n == 0x2029 || n == 0x202F
    || n == 0x205F || n == 0x3000
  }

  /** `s.lstrip(chars)` where `drop` tells which characters are in `chars`. */
  function LStripBy(s: string, drop: char -> bool): (r: string)
    ensures |r| <= |s| && r == s[|s| - |r|..]
    ensures r == [] || !drop(r[0])
    ensures forall i :: 0 <= i < |s| - |r| ==> drop(s[i])
    decreases |s|
  {
    if s != [] && drop(s[0]) then LStripBy(s[1..], drop) else s
  }

  /** `s.rstrip(chars)`. */
  function RStripBy(s: string, drop: char -> bool): (r: string)
    ensures |r| <= |s| && r == s[..|r|]
    ensures r == [] || !drop(r[|r| - 1])
    ensures forall i :: |r| <= i < |s| ==> drop(s[i])
    decreases |s|
  {
    if s != [] && drop(s[|s| - 1]) then RStripBy(s[..|s| - 1], drop) else s
  }

  /** `s.strip(chars)`. */
  function StripBy(s: string, drop: char -> bool): (r: string)
    ensures |r| <= |s|
    ensures r == [] || (!drop(r[0]) && !drop(r[|r| - 1]))
  {
    RStripBy(LStripBy(s, drop), drop)
  }

  /** `s.strip()`. */
  function Strip(s: string): string
  {
    StripBy(s, IsSpace)
  }

  /** `s.startswith(p)`. */
  predicate StartsWith(s: string, p: string)
  {
    |p| <= |s| && s[..|p|] == p
  }

  /** `s.endswith(p)`. */
  predicate EndsWith(s: string, p: string)
  {
    |p| <= |s| && s[|s| - |p|..] == p
  }

  /** `p in s` for strings: `p` occurs somewhere in `s`. */
  predicate Contains(s: string, p: string)
  {
    exists i :: 0 <= i <= |s| && StartsWith(s[i..], p)
  }

  /** The position of the first `c` in `s`. */
  function IndexOf(s: string, c: char): (i: nat)
    requires c in s
    ensures i < |s| && s[i] == c && c !in s[..i]
  {
    if s[0] == c then 0 else 1 + IndexOf(s[1..], c)
  }

  /** `s.split(sep)` for a one-character separator: never an empty list. */
  function Split(s: string, sep: char): (r: seq<string>)
    ensures |r| >= 1
    ensures forall k :: 0 <= k < |r| ==> sep !in r[k]
    decreases |s|
  {
    if sep !in s then [s]
    else
      var i := IndexOf(s, sep);
      [s[..i]] + Split(s[i + 1..], sep)
  }

  /** `sep.join(parts)`. */
  function Join(parts: seq<string>, sep: string): string
  {
    if parts == [] then ""
    else if |parts| == 1 then parts[0]
    else parts[0] + sep + Join(parts[1..], sep)
  }

  /** `s.replace(pat, rep)`: every non-overlapping occurrence, scanning left to right. */
  function ReplaceAll(s: string, pat: string, rep: string): string
    decreases |s|
  {
    if pat == [] then
      (if s == [] then rep else rep + [s[0]] + ReplaceAll(s[1..], pat, rep))
    else if StartsWith(s, pat) then rep + ReplaceAll(s[|pat|..], pat, rep)
    else if s == [] then []
    else [s[0]] + ReplaceAll(s[1..], pat, rep)
  }

  /** `c.lower()` on the ASCII letters. */
  function LowerChar(c: char): char
  {
    if 'A' <= c <= 'Z' then (c as int + 32) as char else c
  }

  /** `s.lower()` on ASCII text. */
  function Lower(s: string): (r: string)
    ensures |r| == |s| && forall i :: 0 <= i < |s| ==> r[i] == LowerChar(s[i])
  {
    seq(|s|, i requires 0 <= i < |s| => LowerChar(s[i]))
  }

  predicate IsDigit(c: char)
  {
    '0' <= c <= '9'
  }

  /**
   * The characters a file-name slug may hold, `[a-z0-9-]`: the meeting
   * slugs and the scraped-page slugs both end up within this set.
   */
  predicate IsSlugChar(c: char)
  {
    'a' <= c <= 'z' || IsDigit(c) || c == '-'
  }

  /** `c.isalnum()` on ASCII characters. */
  predicate IsAsciiAlnum(c: char)
  {
    IsDigit(c) || 'a' <= c <= 'z' || 'A' <= c <= 'Z'
  }

  /** `s[:k]` for any integer `k`, with Python's clamping and negative indices. */
  function Take<T>(s: seq<T>, k: int): (r: seq<T>)
    ensures |r| <= |s| && r == s[..|r|]
    ensures 0 <= k <= |s| ==> |r| == k
    ensures k >= |s| ==> r == s
  {
    if k >= |s| then s
    else if k >= 0 then s[..k]
    else if |s| + k >= 0 then s[..|s| + k]
    else []
  }

  /** `s[-n:]` for a literal count `n` (with `n == 0` Python returns the whole list). */
  function TakeLast<T>(s: seq<T>, n: nat): (r: seq<T>)
    ensures n > 0 ==> |r| <= n
    ensures |r| <= |s| && r == s[|s| - |r|..]
    ensures |s| <= n ==> r == s
  {
    if n == 0 || |s| <= n then s else s[|s| - n..]
  }

  /** `"".join(c for c in s if keep(c))`. */
  function Filter(s: string, keep: char -> bool): (r: string)
    ensures |r| <= |s| && forall i :: 0 <= i < |r| ==> keep(r[i])
    decreases |s|
  {
    if s == [] then [] else (if keep(s[0]) then [s[0]] else []) + Filter(s[1..], keep)
  }

  /** The concatenation of a list of strings, `"".join(parts)`. */
  function Concat(parts: seq<string>): string
  {
    if parts == [] then "" else parts[0] + Concat(parts[1..])
  }

  function DigitChar(d: nat): (c: char)
    requires d < 10
    ensures IsDigit(c)
  {
    ('0' as int + d) as char
  }

  /** `str(n)` for a non-negative integer. */
  function NatToString(n: nat): (r: string)
    ensures |r| >= 1 && forall i :: 0 <= i < |r| ==> IsDigit(r[i])
    decreases n
  {
    if n < 10 then [DigitChar(n)] else NatToString(n / 10) + [DigitChar(n % 10)]
  }

  /** `int(s)` for a string of decimal digits. */
  function DecimalValue(s: string): nat
    requires forall i :: 0 <= i < |s| ==> IsDigit(s[i])
  {
    if s == [] then 0
    else
      assert IsDigit(s[|s| - 1]);
      DecimalValue(s[..|s| - 1]) * 10 + (s[|s| - 1] as int - '0' as int)
  }

  /** Python's `a < b` on strings: code point by code point, a proper prefix first. */
  predicate LexLess(a: string, b: string)
    decreases |a|
  {
    if a == [] then b != []
    else if b == [] then false
    else if a[0] != b[0] then a[0] < b[0]
    else LexLess(a[1..], b[1..])
  }

  // ---------------------------------------------------------------------
  // Properties
  // ---------------------------------------------------------------------

  /** Formatting a count and reading it back gives the count. */
  lemma {:induction false} DecimalRoundTrip(n: nat)
    ensures DecimalValue(NatToString(n)) == n
    decreases n
  {
    if n >= 10 {
      var s := NatToString(n);
      DecimalRoundTrip(n / 10);
      assert s[..|s| - 1] == NatToString(n / 10);
    }
  }

  /** Splitting on a separator and joining with it gives back the text. */
  lemma {:induction false} JoinSplit(s: string, sep: char)
    ensures Join(Split(s, sep), [sep]) == s
    decreases |s|
  {
    if sep in s {
      var i := IndexOf(s, sep);
      var rest := Split(s[i + 1..], sep);
      JoinSplit(s[i + 1..], sep);
      assert Split(s, sep) == [s[..i]] + rest;
      assert ([s[..i]] + rest)[1..] == rest;
      assert s == s[..i] + [sep] + s[i + 1..];
    }
  }

  /** Joining lines free of the separator and splitting again gives back the lines. */
  lemma {:induction false} SplitJoin(lines: seq<string>, sep: char)
    requires |lines| >= 1
    requires forall k :: 0 <= k < |lines| ==> sep !in lines[k]
    ensures Split(Join(lines, [sep]), sep) == lines
    decreases |lines|
  {
    if |lines| > 1 {
      var tail := Join(lines[1..], [sep]);
      assert Join(lines, [sep]) == lines[0] + [sep] + tail;
      SplitAfterFirst(lines[0], sep, tail);
      SplitJoin(lines[1..], sep);
      assert lines == [lines[0]] + lines[1..];
    }
  }

  /** Stripping keeps a prefix that starts and ends with kept characters. */
  lemma StripKeepsPrefix(s: string, q: string, drop: char -> bool)
    requires StartsWith(s, q) && q != []
    requires !drop(q[0]) && !drop(q[|q| - 1])
    ensures StartsWith(StripBy(s, drop), q)
  {
    assert s[0] == q[0];
    assert LStripBy(s, drop) == s;
    var r := RStripBy(s, drop);
    assert s[|q| - 1] == q[|q| - 1];
    assert |r| >= |q|;
    assert r[..|q|] == s[..|q|];
  }

  /** Replacing one character by another keeps the length and maps each position. */
  lemma {:induction false} ReplaceCharAt(s: string, a: char, b: char)
    ensures |ReplaceAll(s, [a], [b])| == |s|
    ensures forall i :: 0 <= i < |s| ==> ReplaceAll(s, [a], [b])[i] == (if s[i] == a then b else s[i])
    decreases |s|
  {
    if s != [] {
      ReplaceCharAt(s[1..], a, b);
      var r := ReplaceAll(s, [a], [b]);
      var tail := ReplaceAll(s[1..], [a], [b]);
      if s[0] == a {
        assert StartsWith(s, [a]);
        assert r == [b] + tail;
      } else {
        assert !StartsWith(s, [a]);
        assert r == [s[0]] + tail;
      }
      forall i | 0 <= i < |s|
        ensures r[i] == (if s[i] == a then b else s[i])
      {
        if i > 0 { assert r[i] == tail[i - 1]; assert s[i] == s[1..][i - 1]; }
      }
    }
  }

  /** Replacing every occurrence of a string by itself changes nothing. */
  lemma {:induction false} ReplaceIdentity(s: string, pat: string)
    requires pat != []
    ensures ReplaceAll(s, pat, pat) == s
    decreases |s|
  {
    if StartsWith(s, pat) {
      ReplaceIdentity(s[|pat|..], pat);
      assert s == pat + s[|pat|..];
    } else if s != [] {
      ReplaceIdentity(s[1..], pat);
      assert s == [s[0]] + s[1..];
    }
  }

  lemma {:induction false} LexLessIrreflexive(a: string)
    ensures !LexLess(a, a)
    decreases |a|
  {
    if a != [] { LexLessIrreflexive(a[1..]); }
  }

  lemma {:induction false} LexLessTransitive(a: string, b: string, c: string)
    requires LexLess(a, b) && LexLess(b, c)
    ensures LexLess(a, c)
    decreases |a|
  {
    if a != [] && b != [] && c != [] && a[0] == b[0] && b[0] == c[0] {
      LexLessTransitive(a[1..], b[1..], c[1..]);
    }
  }

  lemma {:induction false} LexLessTotal(a: string, b: string)
    ensures a == b || LexLess(a, b) || LexLess(b, a)
    decreases |a|
  {
    if a != [] && b != [] && a[0] == b[0] {
      LexLessTotal(a[1..], b[1..]);
      if a[1..] == b[1..] {
        assert a == [a[0]] + a[1..] && b == [b[0]] + b[1..];
      }
    }
  }

  lemma {:induction false} LexLessAsymmetric(a: string, b: string)
    requires LexLess(a, b)
    ensures !LexLess(b, a)
    decreases |a|
  {
    if a != [] && b != [] && a[0] == b[0] {
      LexLessAsymmetric(a[1..], b[1..]);
    }
  }

  /** Every part of a join occurs in the joined text. */
  lemma {:induction false} JoinContains(parts: seq<string>, sep: string, k: nat)
    requires k < |parts|
    ensures Contains(Join(parts, sep), parts[k])
    decreases |parts|
  {
    var s := Join(parts, sep);
    if k == 0 {
      assert StartsWith(s[0..], parts[0]) by {
        if |parts| > 1 { assert s == parts[0] + (sep + Join(parts[1..], sep)); }
      }
    } else {
      var rest := Join(parts[1..], sep);
      JoinContains(parts[1..], sep, k - 1);
      var j :| 0 <= j <= |rest| && StartsWith(rest[j..], parts[1..][k - 1]);
      var off := |parts[0]| + |sep|;
      assert s == (parts[0] + sep) + rest;
      assert s[off + j..] == rest[j..];
      assert StartsWith(s[off + j..], parts[k]);
    }
  }

  /** Every part of a join occurs in the joined text. */
  lemma JoinContainsAll(parts: seq<string>, sep: string)
    ensures forall k :: 0 <= k < |parts| ==> Contains(Join(parts, sep), parts[k])
  {
    forall k | 0 <= k < |parts| ensures Contains(Join(parts, sep), parts[k]) {
      JoinContains(parts, sep, k);
    }
  }

  /** A text made of a head and a framed part starts with the head and contains the part. */
  lemma FramedParts(head: string, before: string, p: string, tail: string)
    ensures StartsWith(head + (before + p + tail), head)
    ensures Contains(head + (before + p + tail), p)
  {
    assert (head + (before + p + tail))[..|head|] == head;
    assert head + (before + p + tail) == (head + before) + p + tail;
    ContainsMiddle(head + before, p, tail);
  }

  /** Text found inside text that `s` contains is found in `s`. */
  lemma ContainsWithin(s: string, a: string, p: string, j: nat)
    requires Contains(s, a) && j <= |a| && StartsWith(a[j..], p)
    ensures Contains(s, p)
  {
    var i :| 0 <= i <= |s| && StartsWith(s[i..], a);
    assert s[i + j..][..|p|] == a[j..][..|p|];
  }

  /** Text found in `b` is found in `a + b`. */
  lemma ContainsAfter(a: string, b: string, p: string)
    requires Contains(b, p)
    ensures Contains(a + b, p)
  {
    var i :| 0 <= i <= |b| && StartsWith(b[i..], p);
    assert (a + b)[|a| + i..] == b[i..];
  }

  /** `p` is found in `a + p + c`. */
  lemma ContainsMiddle(a: string, p: string, c: string)
    ensures Contains(a + p + c, p)
  {
    assert (a + p + c)[|a|..][..|p|] == p;
  }

  /**
   * For a text that does not start with a dropped character, stripping it
   * neither creates nor destroys a prefix that starts and ends with kept
   * characters.
   */
  lemma StripPrefixIff(s: string, q: string, drop: char -> bool)
    requires s == [] || !drop(s[0])
    requires q != [] && !drop(q[0]) && !drop(q[|q| - 1])
    ensures StartsWith(StripBy(s, drop), q) <==> StartsWith(s, q)
  {
    if StartsWith(s, q) {
      StripKeepsPrefix(s, q, drop);
    }
    if s != [] {
      assert LStripBy(s, drop) == s;
    }
  }

  /** Filtering a concatenation filters each part. */
  lemma {:induction false} FilterAppend(a: string, b: string, keep: char -> bool)
    ensures Filter(a + b, keep) == Filter(a, keep) + Filter(b, keep)
    decreases |a|
  {
    if a != [] {
      FilterAppend(a[1..], b, keep);
      assert (a + b)[1..] == a[1..] + b;
    } else {
      assert a + b == b;
    }
  }

  /** A filter that keeps every character changes nothing, and keeps only characters of its input. */
  lemma {:induction false} FilterKeepsAll(s: string, keep: char -> bool)
    ensures (forall i :: 0 <= i < |s| ==> keep(s[i])) ==> Filter(s, keep) == s
    ensures forall c :: c in Filter(s, keep) ==> c in s && keep(c)
    decreases |s|
  {
    if s != [] {
      FilterKeepsAll(s[1..], keep);
      assert s == [s[0]] + s[1..];
    }
  }

  /** Stripping only removes characters. */
  lemma StripSubset(s: string, drop: char -> bool)
    ensures forall c :: c in StripBy(s, drop) ==> c in s
  {
    var a := LStripBy(s, drop);
    assert forall c :: c in a ==> c in s;
    var b := RStripBy(a, drop);
    assert forall c :: c in b ==> c in a;
  }

  /** Filtering leaves nothing exactly when no character is kept. */
  lemma {:induction false} FilterEmptyIff(s: string, keep: char -> bool)
    ensures Filter(s, keep) == [] <==> forall i :: 0 <= i < |s| ==> !keep(s[i])
    decreases |s|
  {
    if s != [] {
      FilterEmptyIff(s[1..], keep);
      assert forall i :: 0 < i < |s| ==> s[i] == s[1..][i - 1];
    }
  }

  /** Replacing a character that does not occur changes nothing. */
  lemma ReplaceAbsentChar(s: string, a: char, b: char)
    requires a !in s
    ensures ReplaceAll(s, [a], [b]) == s
  {
    ReplaceCharAt(s, a, b);
  }

  /** The first occurrence is the only position holding `c` with no `c` before it. */
  lemma IndexOfUnique(s: string, c: char, i: nat)
    requires i < |s| && s[i] == c && c !in s[..i]
    ensures IndexOf(s, c) == i
  {
  }

  /** Splitting at the first separator: the piece before it, then the split of the rest. */
  lemma SplitAt(s: string, sep: char, i: nat)
    requires i < |s| && s[i] == sep && sep !in s[..i]
    ensures Split(s, sep) == [s[..i]] + Split(s[i + 1..], sep)
  {
    IndexOfUnique(s, sep, i);
  }

  /** Splitting at a first separator preceded by `a`. */
  lemma SplitAfterFirst(a: string, sep: char, b: string)
    requires sep !in a
    ensures Split(a + [sep] + b, sep) == [a] + Split(b, sep)
  {
    var s := a + [sep] + b;
    assert s[..|a|] == a && s[|a|] == sep && s[|a| + 1..] == b;
    SplitAt(s, sep, |a|);
  }

  /** Splitting `a + sep + b` splits `a` and `b` separately. */
  lemma {:induction false} SplitAppend(a: string, sep: char, b: string)
    ensures Split(a + [sep] + b, sep) == Split(a, sep) + Split(b, sep)
    decreases |a|
  {
    if sep in a {
      var j := IndexOf(a, sep);
      var head, tail := a[..j], a[j + 1..];
      assert a == head + [sep] + tail;
      assert a + [sep] + b == head + [sep] + (tail + [sep] + b);
      SplitAfterFirst(head, sep, tail + [sep] + b);
      SplitAfterFirst(head, sep, tail);
      SplitAppend(tail, sep, b);
    } else {
      SplitAfterFirst(a, sep, b);
    }
  }
}
