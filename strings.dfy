/**
 * The few Python string operations the model relies on: `lower`, `startswith`,
 * `replace`, `rpartition` and `join`, defined on `seq<char>` and proved to
 * behave as Python documents them.
 */
module Strings {
  import opened Wrappers

  /** `c.lower()` for ASCII letters; every other character is left alone. */
  function LowerChar(c: char): char {
    if 'A' <= c <= 'Z' then (c as int + 32) as char else c
  }

  /** `s.lower()`, character by character. */
  function Lower(s: string): (r: string)
    ensures |r| == |s|
    ensures forall i :: 0 <= i < |s| ==> r[i] == LowerChar(s[i])
  {
    if s == [] then [] else [LowerChar(s[0])] + Lower(s[1..])
  }

  lemma LowerAppend(a: string, b: string)
    ensures Lower(a + b) == Lower(a) + Lower(b)
  {
    assert forall i :: 0 <= i < |a + b| ==> Lower(a + b)[i] == (Lower(a) + Lower(b))[i];
  }

  /** `s.startswith(p)`. */
  predicate StartsWith(s: string, p: string) {
    |p| <= |s| && s[..|p|] == p
  }

  /** `p in s`: some position of `s` starts an occurrence of `p`. */
  predicate Occurs(s: string, p: string)
    requires |p| > 0
    decreases |s|
  {
    |s| >= |p| && (s[..|p|] == p || Occurs(s[1..], p))
  }

  /**
   * `s.replace(p, r)` for a non-empty pattern: occurrences of `p` are found
   * from left to right without overlapping, and each is replaced by `r`.
   */
  function Replace(s: string, p: string, r: string): (t: string)
    requires |p| > 0
    ensures !Occurs(s, p) ==> t == s
    decreases |s|
  {
    if |s| < |p| then s
    else if s[..|p|] == p then r + Replace(s[|p|..], p, r)
    else [s[0]] + Replace(s[1..], p, r)
  }

  /** The number of occurrences `Replace` substitutes: `s.count(p)`. */
  function Count(s: string, p: string): nat
    requires |p| > 0
    decreases |s|
  {
    if |s| < |p| then 0
    else if s[..|p|] == p then 1 + Count(s[|p|..], p)
    else Count(s[1..], p)
  }

  /** Removing a pattern shortens the string by the pattern's length once per occurrence. */
  lemma {:induction false} ReplaceRemovesCount(s: string, p: string)
    requires |p| > 0
    ensures |Replace(s, p, "")| == |s| - |p| * Count(s, p)
    decreases |s|
  {
    if |s| < |p| {
    } else if s[..|p|] == p {
      var rest := s[|p|..];
      ReplaceRemovesCount(rest, p);
      assert Replace(s, p, "") == Replace(rest, p, "");
      assert Count(s, p) == 1 + Count(rest, p);
      assert |p| * (1 + Count(rest, p)) == |p| + |p| * Count(rest, p);
    } else {
      ReplaceRemovesCount(s[1..], p);
      assert Replace(s, p, "") == [s[0]] + Replace(s[1..], p, "");
    }
  }

  /** A leading occurrence of the pattern is replaced and scanning resumes after it. */
  lemma ReplaceLeading(p: string, s: string, r: string)
    requires |p| > 0
    ensures Replace(p + s, p, r) == r + Replace(s, p, r)
  {
    assert (p + s)[..|p|] == p;
    assert (p + s)[|p|..] == s;
  }

  /**
   * A prefix that does not contain the pattern's first character cannot start
   * an occurrence, so `Replace` copies it and carries on with the rest.
   */
  lemma {:induction false} ReplaceSkips(a: string, b: string, p: string, r: string)
    requires |p| > 0 && p[0] !in a
    ensures Replace(a + b, p, r) == a + Replace(b, p, r)
    decreases |a|
  {
    if a != [] {
      var s := a + b;
      if |s| < |p| {
        assert Replace(b, p, r) == b;
      } else {
        assert s[..|p|][0] == a[0] != p[0];
        assert s[1..] == a[1..] + b;
        ReplaceSkips(a[1..], b, p, r);
        calc {
          Replace(s, p, r);
          [s[0]] + Replace(s[1..], p, r);
          [a[0]] + (a[1..] + Replace(b, p, r));
          a + Replace(b, p, r);
        }
      }
    } else {
      assert a + b == b;
    }
  }

  /**
   * When `a` holds no occurrence of `p`, `b` starts with `p`'s first
   * character and that character does not recur in `p`, no occurrence can
   * start inside `a` either, so `Replace` copies `a` and carries on with `b`.
   */
  lemma {:induction false} ReplaceBeforeFreshStart(a: string, b: string, p: string, r: string)
    requires |p| > 0 && !Occurs(a, p)
    requires b == [] || b[0] == p[0]
    requires forall j :: 0 < j < |p| ==> p[j] != p[0]
    ensures Replace(a + b, p, r) == a + Replace(b, p, r)
    decreases |a|
  {
    var s := a + b;
    if a == [] {
      assert s == b;
    } else if |s| < |p| {
      assert Replace(b, p, r) == b;
    } else {
      if |a| >= |p| {
        assert s[..|p|] == a[..|p|];
      } else {
        assert s[..|p|][|a|] == b[0] == p[0] != p[|a|];
      }
      assert s[1..] == a[1..] + b;
      ReplaceBeforeFreshStart(a[1..], b, p, r);
      calc {
        Replace(s, p, r);
        [s[0]] + Replace(s[1..], p, r);
        [a[0]] + (a[1..] + Replace(b, p, r));
        a + Replace(b, p, r);
      }
    }
  }

  /** The last index of `c` in `s`, if any. */
  function LastIndex(s: string, c: char): (r: Option<nat>)
    ensures r.None? <==> c !in s
    ensures r.Some? ==> r.value < |s| && s[r.value] == c && c !in s[r.value + 1..]
    decreases |s|
  {
    if s == [] then None
    else if s[|s| - 1] == c then Some(|s| - 1)
    else
      var r := LastIndex(s[..|s| - 1], c);
      assert r.Some? ==> s[r.value + 1..] == s[..|s| - 1][r.value + 1..] + [s[|s| - 1]];
      r
  }

  /** `s.rpartition(c)`: the text before the last `c`, the separator, the text after it. */
  function RPartition(s: string, c: char): (string, string, string) {
    match LastIndex(s, c)
    case None => ("", "", s)
    case Some(i) => (s[..i], [c], s[i + 1..])
  }

  /**
   * `rpartition` splits without loss at the LAST separator; with no separator
   * the head and the separator are empty and the tail is the whole string.
   */
  lemma RPartitionSplits(s: string, c: char)
    ensures var (head, sep, tail) := RPartition(s, c);
      && head + sep + tail == s
      && c !in tail
      && (sep == "" <==> c !in s)
      && (c !in s ==> head == "" && tail == s)
  {
    match LastIndex(s, c)
    case None =>
    case Some(i) =>
      assert s[..i] + [c] + s[i + 1..] == s;
  }

  /** Splitting `head + [c] + tail` at its last `c` gives back the two parts. */
  lemma {:induction false} RPartitionOfJoined(head: string, c: char, tail: string)
    requires c !in tail
    ensures RPartition(head + [c] + tail, c) == (head, [c], tail)
  {
    var s := head + [c] + tail;
    var r := LastIndex(s, c);
    assert s[|head|] == c;
    assert s[..|head|] == head && s[|head| + 1..] == tail;
  }

  /** `sep.join(xs)`. */
  function Join(sep: string, xs: seq<string>): string
    decreases |xs|
  {
    if |xs| == 0 then ""
    else if |xs| == 1 then xs[0]
    else xs[0] + sep + Join(sep, xs[1..])
  }
}
