/**
  The Python string operations the core relies on: the `in` operator between strings,
  `s.split(c)[0]`, `s.split(c)`, `c.join(parts)` and `s.replace(old, new)`.
 */
module Strings {

  /** Python's `t in s` for two strings: `t` occurs as a contiguous block of `s`. */
  predicate HasInfix(s: string, t: string)
    decreases |s|
  {
    t <= s || (|s| > 0 && HasInfix(s[1..], t))
  }

  ghost predicate OccursAt(s: string, t: string, i: int) {
    0 <= i && i + |t| <= |s| && s[i..i + |t|] == t
  }

  /** An occurrence at any position makes `HasInfix` hold. */
  lemma {:induction false} OccursAtHasInfix(s: string, t: string, i: int)
    requires OccursAt(s, t, i)
    ensures HasInfix(s, t)
    decreases i
  {
    if i == 0 {
      assert s[..|t|] == t;
    } else {
      assert s[1..][i - 1..i - 1 + |t|] == s[i..i + |t|];
      OccursAtHasInfix(s[1..], t, i - 1);
    }
  }

  /** `HasInfix` holds exactly when some position of `s` starts a copy of `t`. */
  lemma {:induction false} HasInfixIff(s: string, t: string)
    ensures HasInfix(s, t) <==> exists i :: OccursAt(s, t, i)
    decreases |s|
  {
    if t <= s {
      assert s[0..|t|] == t;
      assert OccursAt(s, t, 0);
    } else if HasInfix(s, t) {
      HasInfixIff(s[1..], t);
      var i :| OccursAt(s[1..], t, i);
      assert s[1..][i..i + |t|] == s[i + 1..i + 1 + |t|];
      assert OccursAt(s, t, i + 1);
    } else if exists i :: OccursAt(s, t, i) {
      var i :| OccursAt(s, t, i);
      OccursAtHasInfix(s, t, i);
      assert false;
    }
  }

  /** Python's `s.split(c)[0]`: the text before the first `c`, or all of `s`. */
  function BeforeFirst(s: string, c: char): (r: string)
    ensures r <= s
    ensures c !in r
    ensures |r| < |s| ==> s[|r|] == c
  {
    if s == [] || s[0] == c then [] else [s[0]] + BeforeFirst(s[1..], c)
  }

  /** The text before `c` is recovered from anything that extends it past a `c`. */
  lemma {:induction false} BeforeFirstOf(a: string, c: char, b: string)
    requires c !in a
    ensures BeforeFirst(a + [c] + b, c) == a
    ensures BeforeFirst(a, c) == a
  {
    if a != [] {
      assert (a + [c] + b)[1..] == a[1..] + [c] + b;
      BeforeFirstOf(a[1..], c, b);
    }
  }

  /** Python's `c.join(parts)` for a one-character separator. */
  function Join(parts: seq<string>, c: char): string {
    if |parts| == 0 then ""
    else if |parts| == 1 then parts[0]
    else parts[0] + [c] + Join(parts[1..], c)
  }

  /** Python's `s.split(c)` for a one-character separator. */
  function Split(s: string, c: char): (parts: seq<string>)
    ensures |parts| >= 1
    decreases |s|
  {
    var head := BeforeFirst(s, c);
    if |head| == |s| then [s] else [head] + Split(s[|head| + 1..], c)
  }

  /** Where `s` holds a `c`, it is the first part, the separator, and the rest. */
  lemma SplitUnfold(s: string, c: char)
    requires |BeforeFirst(s, c)| < |s|
    ensures s == BeforeFirst(s, c) + [c] + s[|BeforeFirst(s, c)| + 1..]
    ensures Split(s, c) == [BeforeFirst(s, c)] + Split(s[|BeforeFirst(s, c)| + 1..], c)
  {
    var head := BeforeFirst(s, c);
    var r := head + [c] + s[|head| + 1..];
    forall i | 0 <= i < |s| ensures r[i] == s[i] {
      if i < |head| {
        assert r[i] == head[i];
      } else if i > |head| {
        assert r[i] == s[|head| + 1..][i - |head| - 1];
      }
    }
  }

  /** The parts hold no separator, and joining them back gives the string that was split. */
  lemma {:induction false} JoinSplit(s: string, c: char)
    ensures forall i :: 0 <= i < |Split(s, c)| ==> c !in Split(s, c)[i]
    ensures Join(Split(s, c), c) == s
    decreases |s|
  {
    var head := BeforeFirst(s, c);
    if |head| == |s| {
      assert head == s;
    } else {
      var tail := s[|head| + 1..];
      JoinSplit(tail, c);
      SplitUnfold(s, c);
      var parts := Split(s, c);
      assert parts[1..] == Split(tail, c);
      forall i | 0 <= i < |parts| ensures c !in parts[i] {
        if i > 0 {
          assert parts[i] == Split(tail, c)[i - 1];
        }
      }
    }
  }

  /** A separator-free head followed by a separator splits off as the first part. */
  lemma SplitCons(head: string, c: char, tail: string)
    requires c !in head
    ensures Split(head + [c] + tail, c) == [head] + Split(tail, c)
  {
    var s := head + [c] + tail;
    BeforeFirstOf(head, c, tail);
    assert s[|head| + 1..] == tail;
  }

  /** Splitting a join of separator-free parts gives the parts back. */
  lemma {:induction false} SplitJoin(parts: seq<string>, c: char)
    requires |parts| >= 1
    requires forall i :: 0 <= i < |parts| ==> c !in parts[i]
    ensures Split(Join(parts, c), c) == parts
  {
    if |parts| == 1 {
      BeforeFirstOf(parts[0], c, []);
    } else {
      var tail := parts[1..];
      assert Join(parts, c) == parts[0] + [c] + Join(tail, c);
      SplitCons(parts[0], c, Join(tail, c));
      SplitJoin(tail, c);
      assert parts == [parts[0]] + tail;
    }
  }

  /** Python's `s.replace(pat, rep)`: every non-overlapping `pat`, left to right, becomes `rep`. */
  function ReplaceAll(s: string, pat: string, rep: string): (r: string)
    requires pat != []
    ensures !HasInfix(s, pat) ==> r == s
    decreases |s|
  {
    if s == [] then []
    else if pat <= s then rep + ReplaceAll(s[|pat|..], pat, rep)
    else [s[0]] + ReplaceAll(s[1..], pat, rep)
  }

  /** A result that does not start like `rep` starts with an untouched first character. */
  lemma ReplaceAllHead(s: string, pat: string, rep: string)
    requires pat != [] && rep != []
    requires ReplaceAll(s, pat, rep) != [] && ReplaceAll(s, pat, rep)[0] != rep[0]
    ensures s != [] && !(pat <= s)
    ensures ReplaceAll(s, pat, rep) == [s[0]] + ReplaceAll(s[1..], pat, rep)
  {
  }
}
