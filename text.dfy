/** The handful of Python `str` operations the managers rely on, over `seq<char>`. */
module Text {

  /** `s.startswith(prefix)` */
  predicate StartsWith(s: string, prefix: string) {
    |prefix| <= |s| && s[..|prefix|] == prefix
  }

  /** `s.endswith(suffix)` */
  predicate EndsWith(s: string, suffix: string) {
    |suffix| <= |s| && s[|s| - |suffix|..] == suffix
  }

  /** `p` occurs in `s` starting at index `i`. */
  predicate OccursAt(s: string, p: string, i: nat) {
    i + |p| <= |s| && s[i..i + |p|] == p
  }

  /** `p in s` */
  ghost predicate Contains(s: string, p: string) {
    exists i: nat :: OccursAt(s, p, i)
  }

  /** `s.replace(pat, repl)` for a non-empty `pat`: a single left-to-right pass that
      replaces every non-overlapping occurrence; text a replacement produces is
      not scanned again. */
  function Replace(s: string, pat: string, repl: string): string
    requires |pat| > 0
    decreases |s|
  {
    if |s| < |pat| then s
    else if s[..|pat|] == pat then repl + Replace(s[|pat|..], pat, repl)
    else [s[0]] + Replace(s[1..], pat, repl)
  }

  /** `sep.join(parts)` */
  function Join(sep: string, parts: seq<string>): string
    decreases |parts|
  {
    if |parts| == 0 then ""
    else if |parts| == 1 then parts[0]
    else parts[0] + sep + Join(sep, parts[1..])
  }

  /** Three pieces joined: the separator between each neighbouring pair. */
  lemma JoinThree(sep: string, a: string, b: string, c: string)
    ensures Join(sep, [a, b, c]) == a + sep + (b + sep + c)
  {
    assert [a, b, c][1..] == [b, c];
    assert [b, c][1..] == [c];
    assert Join(sep, [c]) == c;
    assert Join(sep, [b, c]) == b + sep + c;
  }

  /** `s.split(c)` for a one-character separator: always at least one piece. */
  function Split(s: string, c: char): (pieces: seq<string>)
    ensures |pieces| >= 1
    decreases |s|
  {
    if |s| == 0 then [""]
    else
      var rest := Split(s[1..], c);
      if s[0] == c then [""] + rest else [[s[0]] + rest[0]] + rest[1..]
  }

  /** An occurrence in a suffix is an occurrence in the whole string. */
  lemma OccursInTail(s: string, p: string, i: nat)
    requires |s| > 0 && OccursAt(s[1..], p, i)
    ensures OccursAt(s, p, i + 1)
  {
    assert s[i + 1..i + 1 + |p|] == s[1..][i..i + |p|];
  }

  /** Replacing something that does not occur changes nothing. */
  lemma {:induction false} ReplaceAbsent(s: string, pat: string, repl: string)
    requires |pat| > 0 && !Contains(s, pat)
    ensures Replace(s, pat, repl) == s
    decreases |s|
  {
    if |s| >= |pat| {
      assert !OccursAt(s, pat, 0);
      assert s[..|pat|] != pat;
      if Contains(s[1..], pat) {
        var i: nat :| OccursAt(s[1..], pat, i);
        OccursInTail(s, pat, i);
        assert false;
      }
      ReplaceAbsent(s[1..], pat, repl);
      assert s == [s[0]] + s[1..];
    }
  }

  /** An occurrence at the front is replaced and the scan resumes after it. */
  lemma ReplaceAtFront(pat: string, rest: string, repl: string)
    requires |pat| > 0
    ensures Replace(pat + rest, pat, repl) == repl + Replace(rest, pat, repl)
  {
    assert (pat + rest)[..|pat|] == pat;
    assert (pat + rest)[|pat|..] == rest;
  }

  /** Dropping the first character keeps the prefix free of occurrences. */
  lemma NoOccurrenceInTail(x: string, rest: string, pat: string)
    requires |x| > 0
    requires forall i: nat :: i < |x| ==> !OccursAt(x + rest, pat, i)
    ensures forall i: nat :: i < |x| - 1 ==> !OccursAt(x[1..] + rest, pat, i)
  {
    var s := x + rest;
    assert s[1..] == x[1..] + rest;
    forall i: nat | i < |x| - 1
      ensures !OccursAt(x[1..] + rest, pat, i)
    {
      if OccursAt(s[1..], pat, i) {
        OccursInTail(s, pat, i);
      }
    }
  }

  /** A prefix in which no occurrence starts is copied unchanged. */
  lemma {:induction false} ReplaceKeepsPrefix(x: string, rest: string, pat: string, repl: string)
    requires |pat| > 0
    requires forall i: nat :: i < |x| ==> !OccursAt(x + rest, pat, i)
    ensures Replace(x + rest, pat, repl) == x + Replace(rest, pat, repl)
    decreases |x|
  {
    var s := x + rest;
    if |x| == 0 {
      assert s == rest;
    } else {
      assert !OccursAt(s, pat, 0);
      NoOccurrenceInTail(x, rest, pat);
      ReplaceKeepsPrefix(x[1..], rest, pat, repl);
      if |s| >= |pat| {
        assert s[..|pat|] != pat;
        calc {
          Replace(s, pat, repl);
          { assert s[1..] == x[1..] + rest; }
          [s[0]] + Replace(x[1..] + rest, pat, repl);
          [s[0]] + (x[1..] + Replace(rest, pat, repl));
          { assert [s[0]] + x[1..] == x; }
          x + Replace(rest, pat, repl);
        }
      } else {
        assert Replace(rest, pat, repl) == rest;
      }
    }
  }

  /** A string without the character `c` does not contain the one-character string `[c]`. */
  lemma AbsentChar(s: string, c: char)
    requires c !in s
    ensures !Contains(s, [c])
  {
    forall i: nat | i + 1 <= |s|
      ensures !OccursAt(s, [c], i)
    {
      assert s[i..i + 1] == [s[i]];
    }
  }

  /** A leading occurrence of the character is replaced and the scan goes on after it. */
  lemma ReplaceLeadingChar(c: char, tail: string, repl: string)
    ensures Replace([c] + tail, [c], repl) == repl + Replace(tail, [c], repl)
  {
    assert ([c] + tail)[..1] == [c];
    assert ([c] + tail)[1..] == tail;
  }

  /** A character absent from the text and from the replacement stays absent. */
  lemma {:induction false} ReplaceKeepsAbsent(s: string, pat: string, repl: string, c: char)
    requires |pat| > 0
    ensures c !in s && c !in repl ==> c !in Replace(s, pat, repl)
    decreases |s|
  {
    if |s| >= |pat| && c !in s && c !in repl {
      if s[..|pat|] == pat {
        assert forall k :: 0 <= k < |s[|pat|..]| ==> s[|pat|..][k] == s[|pat| + k];
        ReplaceKeepsAbsent(s[|pat|..], pat, repl, c);
      } else {
        assert forall k :: 0 <= k < |s[1..]| ==> s[1..][k] == s[1 + k];
        ReplaceKeepsAbsent(s[1..], pat, repl, c);
      }
    }
  }

  /** Replacing a character by text without it removes every occurrence. */
  lemma {:induction false} ReplaceCharGone(s: string, c: char, repl: string)
    ensures c !in repl ==> c !in Replace(s, [c], repl)
    decreases |s|
  {
    if |s| >= 1 && c !in repl {
      ReplaceCharGone(s[1..], c, repl);
      if s[..1] != [c] {
        assert s[0] != c;
      }
    }
  }

  /** Replacing a single character distributes over concatenation: no occurrence
      can straddle the seam. */
  lemma {:induction false} ReplaceCharConcat(a: string, b: string, c: char, repl: string)
    ensures Replace(a + b, [c], repl) == Replace(a, [c], repl) + Replace(b, [c], repl)
    decreases |a|
  {
    if |a| > 0 {
      assert (a + b)[1..] == a[1..] + b;
      assert (a + b)[..1] == a[..1];
      assert (a + b)[1..] == (a + b)[|[c]|..];
      ReplaceCharConcat(a[1..], b, c, repl);
    } else {
      assert a + b == b;
    }
  }

  /** Replacing the separator character `c` of a `c`-joined list of pieces that
      do not contain `c` yields the same pieces joined by `repl`. */
  lemma {:induction false} ReplaceJoinSeparator(parts: seq<string>, c: char, repl: string)
    requires forall k :: 0 <= k < |parts| ==> c !in parts[k]
    ensures Replace(Join([c], parts), [c], repl) == Join(repl, parts)
    decreases |parts|
  {
    if |parts| == 0 {
    } else if |parts| == 1 {
      AbsentChar(parts[0], c);
      ReplaceAbsent(parts[0], [c], repl);
    } else {
      var head, tail := parts[0], Join([c], parts[1..]);
      assert Join([c], parts) == head + ([c] + tail);
      ReplaceCharConcat(head, [c] + tail, c, repl);
      AbsentChar(head, c);
      ReplaceAbsent(head, [c], repl);
      ReplaceLeadingChar(c, tail, repl);
      ReplaceJoinSeparator(parts[1..], c, repl);
    }
  }

  /** Splitting a piece free of `c` gives the piece itself. */
  lemma {:induction false} SplitAbsent(s: string, c: char)
    requires c !in s
    ensures Split(s, c) == [s]
    decreases |s|
  {
    if |s| > 0 {
      SplitAbsent(s[1..], c);
      assert [s[0]] + s[1..] == s;
    }
  }

  /** Splitting at the first `c` peels off the text before it. */
  lemma {:induction false} SplitAtFirst(a: string, b: string, c: char)
    requires c !in a
    ensures Split(a + [c] + b, c) == [a] + Split(b, c)
    decreases |a|
  {
    if |a| == 0 {
      assert a + [c] + b == [c] + b;
      assert ([c] + b)[1..] == b;
    } else {
      var s := a + [c] + b;
      assert s[0] == a[0];
      assert s[1..] == a[1..] + [c] + b;
      SplitAtFirst(a[1..], b, c);
      assert [a[0]] + a[1..] == a;
    }
  }

  /** `s.split(c)` undoes `c.join(parts)` for a non-empty list of pieces free of `c`. */
  lemma {:induction false} SplitJoin(parts: seq<string>, c: char)
    requires |parts| >= 1
    requires forall k :: 0 <= k < |parts| ==> c !in parts[k]
    ensures Split(Join([c], parts), c) == parts
    decreases |parts|
  {
    if |parts| == 1 {
      SplitAbsent(parts[0], c);
    } else {
      SplitAtFirst(parts[0], Join([c], parts[1..]), c);
      SplitJoin(parts[1..], c);
      assert [parts[0]] + parts[1..] == parts;
    }
  }
}
