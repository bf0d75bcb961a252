/**
 * The few Python `str` operations the core relies on: `sep.join`,
 * `s.split(c)` with a one-character separator, substring search and
 * `startswith`, written over `seq<char>`.
 */
module Strings {

  /** sub occurs in s starting at index k. */
  predicate OccursAt(s: string, sub: string, k: int) {
    0 <= k && k + |sub| <= |s| && s[k..k + |sub|] == sub
  }

  /** `sub in s` */
  predicate Contains(s: string, sub: string) {
    exists k :: 0 <= k <= |s| && OccursAt(s, sub, k)
  }

  /** `s.endswith(suffix)` */
  predicate EndsWith(s: string, suffix: string) {
    |suffix| <= |s| && s[|s| - |suffix|..] == suffix
  }

  lemma PrefixOfConcat(a: string, c: string)
    ensures a <= a + c
  {
    assert (a + c)[..|a|] == a;
  }

  lemma PrefixExtend(a: string, s: string, c: string)
    requires a <= s
    ensures a <= s + c
  {
    assert (s + c)[..|a|] == s[..|a|];
  }

  lemma SuffixOfConcat(a: string, c: string)
    ensures EndsWith(a + c, c)
  {
    assert (a + c)[|a|..] == c;
  }

  /** A suffix followed by more text is a suffix of the longer string. */
  lemma SuffixGrow(s: string, u: string, c: string)
    requires EndsWith(s, u)
    ensures EndsWith(s + c, u + c)
  {
    assert (s + c)[|s + c| - |u + c|..] == s[|s| - |u|..] + c;
  }

  lemma SuffixContained(s: string, u: string)
    requires EndsWith(s, u)
    ensures Contains(s, u)
  {
    assert OccursAt(s, u, |s| - |u|);
  }

  lemma ContainsMiddle(a: string, sub: string, c: string)
    ensures Contains(a + sub + c, sub)
  {
    var s := a + sub + c;
    assert s[|a|..|a| + |sub|] == sub;
    assert OccursAt(s, sub, |a|);
  }

  lemma ContainsWiden(s: string, sub: string, a: string, c: string)
    requires Contains(s, sub)
    ensures Contains(a + s + c, sub)
  {
    var k :| 0 <= k <= |s| && OccursAt(s, sub, k);
    var t := a + s + c;
    assert t[|a| + k..|a| + k + |sub|] == s[k..k + |sub|];
    assert OccursAt(t, sub, |a| + k);
  }

  lemma ContainsExtend(s: string, sub: string, c: string)
    requires Contains(s, sub)
    ensures Contains(s + c, sub)
  {
    var k :| 0 <= k <= |s| && OccursAt(s, sub, k);
    assert (s + c)[k..k + |sub|] == s[k..k + |sub|];
    assert OccursAt(s + c, sub, k);
  }

  /** Number of occurrences of c in s (`s.count(c)`). */
  function Count(s: string, c: char): (n: nat)
    ensures n == 0 <==> c !in s
  {
    if s == [] then 0 else (if s[0] == c then 1 else 0) + Count(s[1..], c)
  }

  lemma {:induction false} CountAppend(a: string, b: string, c: char)
    ensures Count(a + b, c) == Count(a, c) + Count(b, c)
  {
    if a == [] {
      assert a + b == b;
    } else {
      assert (a + b)[0] == a[0];
      assert (a + b)[1..] == a[1..] + b;
      CountAppend(a[1..], b, c);
    }
  }

  /** `sep.join(parts)` */
  function Join(parts: seq<string>, sep: string): string {
    if |parts| == 0 then ""
    else if |parts| == 1 then parts[0]
    else parts[0] + sep + Join(parts[1..], sep)
  }

  lemma JoinStartsWithFirst(parts: seq<string>, sep: string)
    requires |parts| >= 1
    ensures parts[0] <= Join(parts, sep)
  {
    if |parts| > 1 {
      PrefixOfConcat(parts[0], sep);
      PrefixExtend(parts[0], parts[0] + sep, Join(parts[1..], sep));
    }
  }

  /** `s.split(c)`: the maximal runs between occurrences of c, empty runs included. */
  function Split(s: string, c: char): (parts: seq<string>)
    ensures |parts| == Count(s, c) + 1
    ensures forall k :: 0 <= k < |parts| ==> c !in parts[k]
  {
    if s == [] then [""]
    else
      var rest := Split(s[1..], c);
      if s[0] == c then [""] + rest
      else [[s[0]] + rest[0]] + rest[1..]
  }

  /** Splitting and re-joining with the same separator gives back the input. */
  lemma {:induction false} JoinSplit(s: string, c: char)
    ensures Join(Split(s, c), [c]) == s
  {
    if s != [] {
      var rest := Split(s[1..], c);
      JoinSplit(s[1..], c);
      if s[0] == c {
        assert Split(s, c)[1..] == rest;
      } else {
        var parts := Split(s, c);
        if |rest| == 1 {
          assert parts == [[s[0]] + rest[0]];
        } else {
          assert parts[1..] == rest[1..];
          assert Join(rest, [c]) == rest[0] + [c] + Join(rest[1..], [c]);
        }
      }
    }
  }

  /** Joining pieces free of c and splitting at c gives back the pieces. */
  lemma {:induction false} SplitJoin(parts: seq<string>, c: char)
    requires |parts| >= 1
    requires forall k :: 0 <= k < |parts| ==> c !in parts[k]
    ensures Split(Join(parts, [c]), c) == parts
    decreases |parts|, |parts[0]|
  {
    var first := parts[0];
    if |parts| == 1 {
      SplitOfFree(first, c);
    } else if first == [] {
      var tail := Join(parts[1..], [c]);
      assert Join(parts, [c]) == [c] + tail;
      assert ([c] + tail)[1..] == tail;
      SplitJoin(parts[1..], c);
      assert parts == [""] + parts[1..];
    } else {
      var shorter := [first[1..]] + parts[1..];
      assert Join(parts, [c]) == [first[0]] + Join(shorter, [c]);
      assert ([first[0]] + Join(shorter, [c]))[1..] == Join(shorter, [c]);
      SplitJoin(shorter, c);
      assert [first[0]] + first[1..] == first;
      assert shorter[1..] == parts[1..];
      assert parts == [[first[0]] + shorter[0]] + shorter[1..];
    }
  }

  /** A string without c splits into itself alone. */
  lemma {:induction false} SplitOfFree(s: string, c: char)
    requires c !in s
    ensures Split(s, c) == [s]
  {
    if s != [] {
      SplitOfFree(s[1..], c);
      assert [s[0]] + s[1..] == s;
    }
  }

  /** A string with exactly one c, at index k, splits into what precedes and what follows it. */
  lemma SplitAtOnly(s: string, c: char, k: int)
    requires 0 <= k < |s| && s[k] == c && Count(s, c) == 1
    ensures Split(s, c) == [s[..k], s[k + 1..]]
  {
    var before, after := s[..k], s[k + 1..];
    assert s == before + [c] + after;
    CountAppend(before + [c], after, c);
    CountAppend(before, [c], c);
    var parts := [before, after];
    assert parts[1..] == [after];
    assert Join(parts, [c]) == s;
    SplitJoin(parts, c);
  }
}
