/**
 * The Python 2 byte-string operations the script relies on, over `string`:
 * `startswith`, `in` between two strings, `lower`, `strip`, and `split`
 * with a one-character separator, together with the facts about them that
 * the rest of the model needs.
 */
module Text {

  /** Python 2's `isspace` on one byte in the C locale. */
  predicate IsSpace(c: char) {
    c == ' ' || c == '\t' || c == '\n' || c == '\r' || c == '\U{000B}' || c == '\U{000C}'
  }

  predicate IsDigit(c: char) {
    '0' <= c <= '9'
  }

  /** `s.startswith(prefix)` */
  predicate StartsWith(s: string, prefix: string) {
    |prefix| <= |s| && s[..|prefix|] == prefix
  }

  /** `s.endswith(suffix)` */
  predicate EndsWith(s: string, suffix: string) {
    |suffix| <= |s| && s[|s| - |suffix|..] == suffix
  }

  /** `needle` occurs in `haystack` starting at position `k`. */
  predicate OccursAt(needle: string, haystack: string, k: int) {
    0 <= k <= |haystack| - |needle| && haystack[k..k + |needle|] == needle
  }

  /** `needle in haystack` for two strings: `needle` occurs contiguously. */
  predicate IsSubstring(needle: string, haystack: string) {
    exists k :: 0 <= k <= |haystack| && OccursAt(needle, haystack, k)
  }

  /** An occurrence at position `k` makes `needle` a substring. */
  lemma SubstringAt(needle: string, haystack: string, k: nat)
    requires k <= |haystack|
    requires StartsWith(haystack[k..], needle)
    ensures IsSubstring(needle, haystack)
  {
    assert haystack[k..][..|needle|] == haystack[k..k + |needle|];
    assert OccursAt(needle, haystack, k);
  }

  /** Every character of a substring is a character of the whole. */
  lemma SubstringChars(needle: string, haystack: string, c: char)
    requires IsSubstring(needle, haystack)
    requires c in needle
    ensures c in haystack
  {
    var k :| 0 <= k <= |haystack| && OccursAt(needle, haystack, k);
    var i :| 0 <= i < |needle| && needle[i] == c;
    assert haystack[k..k + |needle|][i] == haystack[k + i];
  }

  /** Every string is a substring of itself. */
  lemma SubstringReflexive(s: string)
    ensures IsSubstring(s, s)
  {
    assert OccursAt(s, s, 0);
  }

  /** A substring is never longer than the whole. */
  lemma SubstringLength(needle: string, haystack: string)
    requires IsSubstring(needle, haystack)
    ensures |needle| <= |haystack|
  {
  }

  /** Python 2 `lower` on one byte in the C locale: only A-Z change. */
  function LowerChar(c: char): (r: char)
    ensures 'A' <= c <= 'Z' ==> 'a' <= r <= 'z' && r as int - c as int == 32
    ensures !('A' <= c <= 'Z') ==> r == c
  {
    if 'A' <= c <= 'Z' then (c as int + 32) as char else c
  }

  /** `s.lower()` */
  function Lower(s: string): (r: string)
    ensures |r| == |s|
    ensures forall i :: 0 <= i < |s| ==> r[i] == LowerChar(s[i])
  {
    seq(|s|, i requires 0 <= i < |s| => LowerChar(s[i]))
  }

  /** Leading whitespace removed: the longest suffix not starting with a space. */
  function TrimStart(s: string): (r: string)
    ensures |r| <= |s| && r == s[|s| - |r|..]
    ensures forall i :: 0 <= i < |s| - |r| ==> IsSpace(s[i])
    ensures |r| > 0 ==> !IsSpace(r[0])
    decreases |s|
  {
    if |s| > 0 && IsSpace(s[0]) then TrimStart(s[1..]) else s
  }

  /** Trailing whitespace removed: the longest prefix not ending with a space. */
  function TrimEnd(s: string): (r: string)
    ensures |r| <= |s| && r == s[..|r|]
    ensures forall i :: |r| <= i < |s| ==> IsSpace(s[i])
    ensures |r| > 0 ==> !IsSpace(r[|r| - 1])
    decreases |s|
  {
    if |s| > 0 && IsSpace(s[|s| - 1]) then TrimEnd(s[..|s| - 1]) else s
  }

  /** `s.strip()` */
  function Strip(s: string): string {
    TrimEnd(TrimStart(s))
  }

  /** Number of occurrences of `c` in `s`. */
  function Count(s: string, c: char): nat
    decreases |s|
  {
    if |s| == 0 then 0 else (if s[0] == c then 1 else 0) + Count(s[1..], c)
  }

  /** A character is absent exactly when it occurs zero times. */
  lemma {:induction false} CountZero(s: string, c: char)
    ensures Count(s, c) == 0 <==> c !in s
    decreases |s|
  {
    if |s| > 0 {
      CountZero(s[1..], c);
      assert s == [s[0]] + s[1..];
    }
  }

  /**
   * `s.split(sep)` for a one-character separator: the pieces between the
   * occurrences of `sep`, so there is always at least one piece.
   */
  function Split(s: string, sep: char): (r: seq<string>)
    ensures |r| >= 1
    decreases |s|
  {
    if |s| == 0 then [""]
    else
      var rest := Split(s[1..], sep);
      if s[0] == sep then [""] + rest else [[s[0]] + rest[0]] + rest[1..]
  }

  /** `sep.join(parts)` for a one-character separator. */
  function Join(parts: seq<string>, sep: char): string
    requires |parts| >= 1
  {
    if |parts| == 1 then parts[0] else parts[0] + [sep] + Join(parts[1..], sep)
  }

  /** No piece returned by `split` holds the separator. */
  predicate FreeOf(parts: seq<string>, sep: char) {
    forall i :: 0 <= i < |parts| ==> sep !in parts[i]
  }

  /** Joining the pieces of a split gives back the string. */
  lemma {:induction false} JoinSplit(s: string, sep: char)
    ensures Join(Split(s, sep), sep) == s
    decreases |s|
  {
    if |s| > 0 {
      var rest := Split(s[1..], sep);
      JoinSplit(s[1..], sep);
      if s[0] != sep && |rest| > 1 {
        assert rest == [rest[0]] + rest[1..];
        assert Join(rest, sep) == rest[0] + [sep] + Join(rest[1..], sep);
      }
      assert s == [s[0]] + s[1..];
    }
  }

  /** The pieces of a split never contain the separator. */
  lemma {:induction false} SplitFreeOf(s: string, sep: char)
    ensures FreeOf(Split(s, sep), sep)
    decreases |s|
  {
    if |s| > 0 {
      SplitFreeOf(s[1..], sep);
      var rest := Split(s[1..], sep);
      if s[0] != sep {
        assert sep !in rest[0];
        var r := Split(s, sep);
        forall i | 0 <= i < |r|
          ensures sep !in r[i]
        {
          if i > 0 {
            assert r[i] == rest[i];
          }
        }
      }
    }
  }

  /** A split yields one piece more than there are separators. */
  lemma {:induction false} SplitCount(s: string, sep: char)
    ensures |Split(s, sep)| == Count(s, sep) + 1
    decreases |s|
  {
    if |s| > 0 {
      SplitCount(s[1..], sep);
    }
  }

  /** Without the separator a string splits into itself. */
  lemma {:induction false} SplitWithout(a: string, sep: char)
    requires sep !in a
    ensures Split(a, sep) == [a]
    decreases |a|
  {
    if |a| > 0 {
      assert sep !in a[1..];
      SplitWithout(a[1..], sep);
      assert a == [a[0]] + a[1..];
    }
  }

  /** A separator-free leading piece comes off first. */
  lemma {:induction false} SplitPiece(a: string, b: string, sep: char)
    requires sep !in a
    ensures Split(a + [sep] + b, sep) == [a] + Split(b, sep)
    decreases |a|
  {
    var s := a + [sep] + b;
    if |a| == 0 {
      assert s == [sep] + b;
      assert s[1..] == b;
    } else {
      assert s[1..] == a[1..] + [sep] + b;
      assert sep !in a[1..];
      SplitPiece(a[1..], b, sep);
      assert a == [a[0]] + a[1..];
    }
  }

  /** Splitting a join of separator-free pieces gives the pieces back. */
  lemma {:induction false} SplitJoin(parts: seq<string>, sep: char)
    requires |parts| >= 1
    requires FreeOf(parts, sep)
    ensures Split(Join(parts, sep), sep) == parts
    decreases |parts|
  {
    assert sep !in parts[0];
    if |parts| == 1 {
      SplitWithout(parts[0], sep);
    } else {
      assert FreeOf(parts[1..], sep) by {
        forall i | 0 <= i < |parts[1..]|
          ensures sep !in parts[1..][i]
        {
          assert parts[1..][i] == parts[i + 1];
        }
      }
      SplitJoin(parts[1..], sep);
      SplitPiece(parts[0], Join(parts[1..], sep), sep);
      assert parts == [parts[0]] + parts[1..];
    }
  }

  /**
   * Extending one piece by a separator and more text joins to the same
   * string as giving that text a piece of its own right after it.
   */
  lemma {:induction false} JoinSplice(parts: seq<string>, j: nat, y: string, sep: char)
    requires j < |parts|
    ensures Join(parts[j := parts[j] + [sep] + y], sep) == Join(parts[..j + 1] + [y] + parts[j + 1..], sep)
    decreases j
  {
    var spliced := parts[..j + 1] + [y] + parts[j + 1..];
    if j == 0 {
      if |parts| == 1 {
        assert spliced == [parts[0], y];
        assert spliced[1..] == [y];
      } else {
        var rest := Join(parts[1..], sep);
        assert spliced[1..] == [y] + parts[1..];
        assert ([y] + parts[1..])[1..] == parts[1..];
        assert Join(spliced, sep) == parts[0] + [sep] + (y + [sep] + rest);
        assert parts[j := parts[j] + [sep] + y][1..] == parts[1..];
      }
    } else {
      var tail := parts[1..];
      JoinSplice(tail, j - 1, y, sep);
      assert parts[j := parts[j] + [sep] + y][1..] == tail[j - 1 := tail[j - 1] + [sep] + y];
      assert spliced[1..] == tail[..j] + [y] + tail[j..];
    }
  }

  /**
   * Splitting a join of separator-free pieces, one of which was extended by
   * a separator and separator-free text, gives the pieces with that text
   * as an extra piece after the extended one.
   */
  lemma SplitSpliced(parts: seq<string>, j: nat, y: string, sep: char)
    requires j < |parts|
    requires FreeOf(parts, sep) && sep !in y
    ensures Split(Join(parts[j := parts[j] + [sep] + y], sep), sep) == parts[..j + 1] + [y] + parts[j + 1..]
  {
    var spliced := parts[..j + 1] + [y] + parts[j + 1..];
    JoinSplice(parts, j, y, sep);
    forall i | 0 <= i < |spliced|
      ensures sep !in spliced[i]
    {
      if i < j + 1 {
        assert spliced[i] == parts[i];
      } else if i > j + 1 {
        assert spliced[i] == parts[i - 1];
      }
    }
    SplitJoin(spliced, sep);
  }

  /** A string with exactly one separator splits into the text on either side. */
  lemma SplitOnce(a: string, b: string, sep: char)
    requires sep !in a && sep !in b
    ensures Split(a + [sep] + b, sep) == [a, b]
  {
    SplitPiece(a, b, sep);
    SplitWithout(b, sep);
  }

  // ---------------------------------------------------------------------
  // Regrouping concatenations. These carry no modelling content: each
  // states one rearrangement of `+` that the solver would otherwise search
  // for inside a larger proof.
  // ---------------------------------------------------------------------

  /** Joining two or more pieces is the first piece, the separator, and the join of the rest. */
  lemma JoinCons(parts: seq<string>, sep: char)
    requires |parts| >= 2
    ensures Join(parts, sep) == parts[0] + [sep] + Join(parts[1..], sep)
  {
  }

  /** Four texts joined right to left read the same as joined left to right. */
  lemma Assoc4(a: string, b: string, c: string, d: string)
    ensures a + b + c + d == a + (b + (c + d))
  {
  }

  /** An empty middle text contributes nothing. */
  lemma DropEmpty(a: string, b: string, c: string)
    ensures a + "" + b + c == (a + b) + c
  {
  }

  /** Three nested splits put back together in one line. */
  lemma Assemble(s: string, a: string, rest: string, b: string, c: string, rest': string, d: string, e: string)
    requires s == a + rest && rest == b + c + rest' && rest' == d + e
    ensures s == a + b + c + d + e
  {
  }

  /** Seven texts joined right to left read the same as joined left to right. */
  lemma Nest(p0: string, a: string, p1: string, b: string, p2: string, c: string, p3: string)
    ensures p0 + (a + (p1 + (b + (p2 + (c + p3))))) == p0 + a + p1 + b + p2 + c + p3
  {
    var t := c + p3;
    assert p2 + t == p2 + c + p3;
    assert b + (p2 + t) == b + p2 + c + p3;
    assert p1 + (b + (p2 + t)) == p1 + b + p2 + c + p3;
    assert a + (p1 + (b + (p2 + t))) == a + p1 + b + p2 + c + p3;
  }
}
