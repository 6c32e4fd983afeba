/** The handful of Go `strings` functions the core relies on, over `seq<char>`;
    the one-separator splits also serve byte strings. */
module Strings {

  import opened Wrappers

  /** strings.HasPrefix */
  predicate HasPrefix(s: string, prefix: string)
  {
    |prefix| <= |s| && s[..|prefix|] == prefix
  }

  /** strings.Contains(s, sub): `sub` occurs somewhere in `s` */
  predicate Contains(s: string, sub: string)
  {
    exists i :: 0 <= i <= |s| && OccursAt(s, sub, i)
  }

  /** `sub` occurs in `s` starting at index `i` */
  predicate OccursAt(s: string, sub: string, i: int)
  {
    0 <= i <= |s| - |sub| && s[i..i + |sub|] == sub
  }

  /** Index of the first `c` in `s`, or |s| when there is none. */
  function IndexOf<T(==)>(s: seq<T>, c: T): (k: nat)
    ensures k <= |s|
    ensures k < |s| ==> s[k] == c
    ensures forall j :: 0 <= j < k ==> s[j] != c
  {
    if s == [] then 0
    else if s[0] == c then 0
    else 1 + IndexOf(s[1..], c)
  }

  /** strings.SplitN(s, sep, 2) for a one-character separator: the text before the
      first separator, and the text after it when there is one. */
  function SplitFirst<T(==)>(s: seq<T>, c: T): (r: (seq<T>, Option<seq<T>>))
    ensures c !in r.0
    ensures r.1.None? <==> c !in s
    ensures r.1.None? ==> r.0 == s
    ensures r.1.Some? ==> s == r.0 + [c] + r.1.value
  {
    var k := IndexOf(s, c);
    if k == |s| then (s, None)
    else
      assert s == s[..k] + [c] + s[k + 1..];
      (s[..k], Some(s[k + 1..]))
  }

  /** Splitting text made of a separator-free head, the separator and a tail gives
      back the head and the tail. */
  lemma SplitFirstAt<T>(head: seq<T>, c: T, tail: seq<T>)
    requires c !in head
    ensures SplitFirst(head + [c] + tail, c) == (head, Some(tail))
  {
    var s := head + [c] + tail;
    var k := IndexOf(s, c);
    assert s[|head|] == c;
    assert k == |head| by {
      assert forall j :: 0 <= j < |head| ==> s[j] == head[j];
    }
    assert s[..k] == head;
    assert s[k + 1..] == tail;
  }

  /** strings.Split(s, sep) for a one-character separator. */
  function Split(s: string, c: char): (parts: seq<string>)
    ensures |parts| >= 1
    ensures parts[0] == SplitFirst(s, c).0
    decreases |s|
  {
    var (head, rest) := SplitFirst(s, c);
    if rest.None? then [head] else [head] + Split(rest.value, c)
  }

  /** strings.Join(parts, sep) */
  function Join(parts: seq<string>, sep: string): string
  {
    if parts == [] then ""
    else if |parts| == 1 then parts[0]
    else parts[0] + sep + Join(parts[1..], sep)
  }

  /** strings.ToLower, restricted to ASCII letters. */
  function ToLower(s: string): (r: string)
    ensures |r| == |s|
    ensures forall i :: 0 <= i < |s| ==> r[i] == LowerChar(s[i])
  {
    seq(|s|, i requires 0 <= i < |s| => LowerChar(s[i]))
  }

  function LowerChar(c: char): char
  {
    if 'A' <= c <= 'Z' then (c as int - 'A' as int + 'a' as int) as char else c
  }

  /** strings.ReplaceAll(s, pat, rep): every non-overlapping occurrence of `pat`,
      found left to right, is replaced by `rep`. An empty `pat` matches at the start
      and after every character. */
  function ReplaceAll(s: string, pat: string, rep: string): (r: string)
    ensures pat != [] && |rep| == |pat| ==> |r| == |s|
    ensures pat == [] && rep == [] ==> r == s
    decreases |s|
  {
    if pat == [] then
      if s == [] then rep else rep + [s[0]] + ReplaceAll(s[1..], pat, rep)
    else if |s| < |pat| then s
    else if s[..|pat|] == pat then rep + ReplaceAll(s[|pat|..], pat, rep)
    else [s[0]] + ReplaceAll(s[1..], pat, rep)
  }

  /** Text with no occurrence of a non-empty `pat` is left as it is. */
  lemma {:induction false} ReplaceAllWithoutOccurrence(s: string, pat: string, rep: string)
    requires pat != []
    requires !Contains(s, pat)
    ensures ReplaceAll(s, pat, rep) == s
    decreases |s|
  {
    if |s| < |pat| {
    } else {
      assert !OccursAt(s, pat, 0);
      assert s[0..|pat|] == s[..|pat|];
      assert !Contains(s[1..], pat) by {
        if Contains(s[1..], pat) {
          var i :| 0 <= i <= |s[1..]| && OccursAt(s[1..], pat, i);
          assert s[1..][i..i + |pat|] == s[i + 1..i + 1 + |pat|];
          assert OccursAt(s, pat, i + 1);
        }
      }
      ReplaceAllWithoutOccurrence(s[1..], pat, rep);
    }
  }

  /** Replacing a text by itself changes nothing. */
  lemma {:induction false} ReplaceAllBySelf(s: string, pat: string)
    ensures ReplaceAll(s, pat, pat) == s
    decreases |s|
  {
    if pat == [] {
      if s != [] {
        ReplaceAllBySelf(s[1..], pat);
        assert s == [s[0]] + s[1..];
      }
    } else if |s| < |pat| {
    } else if s[..|pat|] == pat {
      ReplaceAllBySelf(s[|pat|..], pat);
      assert s == s[..|pat|] + s[|pat|..];
    } else {
      ReplaceAllBySelf(s[1..], pat);
      assert s == [s[0]] + s[1..];
    }
  }

  /** When the content changes, `pat` occurred in it (for a non-empty `pat`). */
  lemma ReplaceAllChangesOnlyWithOccurrence(s: string, pat: string, rep: string)
    requires pat != []
    requires ReplaceAll(s, pat, rep) != s
    ensures Contains(s, pat)
  {
    if !Contains(s, pat) {
      ReplaceAllWithoutOccurrence(s, pat, rep);
    }
  }

  /** An occurrence at the front is replaced, and the rest is processed after it. */
  lemma ReplaceAllAtFront(pat: string, rep: string, t: string)
    requires pat != []
    ensures ReplaceAll(pat + t, pat, rep) == rep + ReplaceAll(t, pat, rep)
  {
    assert (pat + t)[..|pat|] == pat;
    assert (pat + t)[|pat|..] == t;
  }

  /** The whole text equal to `pat` becomes `rep`. */
  lemma ReplaceAllWhole(pat: string, rep: string)
    requires pat != []
    ensures ReplaceAll(pat, pat, rep) == rep
  {
    ReplaceAllAtFront(pat, rep, []);
    assert pat + [] == pat;
  }

  /** Splitting at the first separator and joining back gives the text. */
  lemma {:induction false} SplitJoin(s: string, c: char)
    ensures Join(Split(s, c), [c]) == s
    decreases |s|
  {
    var (head, rest) := SplitFirst(s, c);
    if rest.Some? {
      SplitJoin(rest.value, c);
      var tail := Split(rest.value, c);
      assert Split(s, c) == [head] + tail;
      assert |[head] + tail| > 1;
      assert ([head] + tail)[1..] == tail;
    }
  }

  /** No part of a split holds the separator. */
  lemma {:induction false} SplitPartsLackSeparator(s: string, c: char)
    ensures forall i :: 0 <= i < |Split(s, c)| ==> c !in Split(s, c)[i]
    decreases |s|
  {
    var (head, rest) := SplitFirst(s, c);
    if rest.Some? {
      SplitPartsLackSeparator(rest.value, c);
      assert Split(s, c) == [head] + Split(rest.value, c);
    }
  }
}
