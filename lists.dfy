/**
  The list idioms the source builds with `for` loops: keep the items that pass a test,
  transform every item, remove repeated items (the `if not i in add` pattern) and add up
  lengths. Every function recurses on the last element, the way the source's loops append.
 */
module Lists {
  import opened Wrappers

  /** The items of `s` that satisfy `p`, in their original order. */
  function Filter<T>(p: T -> bool, s: seq<T>): (r: seq<T>)
    ensures |r| <= |s|
  {
    if s == [] then [] else Filter(p, s[..|s| - 1]) + (if p(s[|s| - 1]) then [s[|s| - 1]] else [])
  }

  /** The filtered list holds exactly the items of `s` that pass. */
  lemma {:induction false} FilterMembers<T>(p: T -> bool, s: seq<T>)
    ensures forall i :: 0 <= i < |Filter(p, s)| ==> p(Filter(p, s)[i]) && Filter(p, s)[i] in s
    ensures forall i :: 0 <= i < |s| && p(s[i]) ==> s[i] in Filter(p, s)
  {
    if s != [] {
      var init := s[..|s| - 1];
      FilterMembers(p, init);
      assert s == init + [s[|s| - 1]];
      var r := Filter(p, s);
      forall i | 0 <= i < |s| && p(s[i]) ensures s[i] in r {
        if i < |init| {
          assert s[i] == init[i];
        }
      }
    }
  }

  /** Filtering distributes over concatenation, so order is kept. */
  lemma {:induction false} FilterConcat<T>(p: T -> bool, a: seq<T>, b: seq<T>)
    ensures Filter(p, a + b) == Filter(p, a) + Filter(p, b)
    decreases |b|
  {
    if b == [] {
      assert a + b == a;
    } else {
      var b' := b[..|b| - 1];
      assert (a + b)[..|a + b| - 1] == a + b';
      FilterConcat(p, a, b');
    }
  }

  /** A sequence whose every item passes is left as it is. */
  lemma {:induction false} FilterKeepsAll<T>(p: T -> bool, s: seq<T>)
    requires forall i :: 0 <= i < |s| ==> p(s[i])
    ensures Filter(p, s) == s
  {
    if s != [] {
      FilterKeepsAll(p, s[..|s| - 1]);
      assert s == s[..|s| - 1] + [s[|s| - 1]];
    }
  }

  /** Filtering twice is filtering once. */
  lemma FilterIdempotent<T>(p: T -> bool, s: seq<T>)
    ensures Filter(p, Filter(p, s)) == Filter(p, s)
  {
    var r := Filter(p, s);
    FilterMembers(p, s);
    FilterKeepsAll(p, r);
  }

  /** Every passing item keeps its number of occurrences; every failing one disappears. */
  lemma {:induction false} FilterCount<T>(p: T -> bool, s: seq<T>, x: T)
    ensures multiset(Filter(p, s))[x] == if p(x) then multiset(s)[x] else 0
  {
    if s != [] {
      var init := s[..|s| - 1];
      assert s == init + [s[|s| - 1]];
      FilterCount(p, init, x);
    }
  }

  /** `f` applied to every item, in order. */
  function Map<A, B>(f: A -> B, s: seq<A>): (r: seq<B>)
    ensures |r| == |s|
  {
    if s == [] then [] else Map(f, s[..|s| - 1]) + [f(s[|s| - 1])]
  }

  /** Item `i` of the mapped list is `f` of item `i`. */
  lemma {:induction false} MapAt<A, B>(f: A -> B, s: seq<A>)
    ensures forall i :: 0 <= i < |s| ==> Map(f, s)[i] == f(s[i])
  {
    if s != [] {
      MapAt(f, s[..|s| - 1]);
    }
  }

  predicate NoDuplicates<T(==)>(s: seq<T>) {
    forall i, j :: 0 <= i < j < |s| ==> s[i] != s[j]
  }

  /** Position of the first occurrence of `x` in `s`. */
  function FirstIndex<T(==)>(s: seq<T>, x: T): (k: nat)
    requires x in s
    ensures k < |s| && s[k] == x && x !in s[..k]
  {
    if s[0] == x then 0
    else
      var k := FirstIndex(s[1..], x);
      assert s[..k + 1] == [s[0]] + s[1..][..k];
      1 + k
  }

  /** The first occurrence of `x` in a prefix is its first occurrence in the whole. */
  lemma {:induction false} FirstIndexInPrefix<T>(s: seq<T>, m: nat, x: T)
    requires m <= |s| && x in s[..m]
    ensures FirstIndex(s, x) == FirstIndex(s[..m], x)
    decreases m
  {
    if s[0] != x {
      assert s[..m][1..] == s[1..][..m - 1];
      FirstIndexInPrefix(s[1..], m - 1, x);
    }
  }

  /**
    Each item kept only at its first occurrence: the list the source builds by
    appending an item only when it is not yet in the list.
   */
  function Dedup<T(==)>(s: seq<T>): (r: seq<T>)
    ensures |r| <= |s|
  {
    if s == [] then []
    else
      var d := Dedup(s[..|s| - 1]);
      if s[|s| - 1] in d then d else d + [s[|s| - 1]]
  }

  /** Dedup keeps every item of `s`, adds none, and repeats none. */
  lemma {:induction false} DedupMembers<T>(s: seq<T>)
    ensures forall i :: 0 <= i < |Dedup(s)| ==> Dedup(s)[i] in s
    ensures forall i :: 0 <= i < |s| ==> s[i] in Dedup(s)
    ensures NoDuplicates(Dedup(s))
  {
    if s != [] {
      var init := s[..|s| - 1];
      DedupMembers(init);
      assert s == init + [s[|s| - 1]];
      var r := Dedup(s);
      forall i | 0 <= i < |s| ensures s[i] in r {
        if i < |init| {
          assert s[i] == init[i];
        }
      }
    }
  }

  /** The items of `d` occur in `s`, in the order of their first occurrences there. */
  ghost predicate InFirstOrder<T>(s: seq<T>, d: seq<T>) {
    forall i, j :: 0 <= i < j < |d| ==>
      d[i] in s && d[j] in s && FirstIndex(s, d[i]) < FirstIndex(s, d[j])
  }

  /** Items of a prefix keep their first positions when the list grows by one item. */
  lemma FirstOrderSnoc<T>(init: seq<T>, x: T, d: seq<T>)
    requires forall y :: y in d ==> y in init
    requires InFirstOrder(init, d)
    ensures InFirstOrder(init + [x], d)
    ensures forall y :: y in d ==> FirstIndex(init + [x], y) < |init|
  {
    var s := init + [x];
    assert s[..|init|] == init;
    forall y | y in d ensures FirstIndex(s, y) == FirstIndex(init, y) {
      FirstIndexInPrefix(s, |init|, y);
    }
  }

  /** An item missing from `init` first occurs in `init + [x]` at the end. */
  lemma {:induction false} FirstIndexOfNew<T>(init: seq<T>, x: T)
    requires x !in init
    ensures FirstIndex(init + [x], x) == |init|
  {
    if init != [] {
      assert (init + [x])[1..] == init[1..] + [x];
      FirstIndexOfNew(init[1..], x);
    }
  }

  /** A new last item first occurs at the end, after everything already in order. */
  lemma FirstOrderAppend<T>(init: seq<T>, x: T, d: seq<T>)
    requires x !in init
    requires forall y :: y in d ==> y in init + [x] && FirstIndex(init + [x], y) < |init|
    requires InFirstOrder(init + [x], d)
    ensures InFirstOrder(init + [x], d + [x])
  {
    var s := init + [x];
    FirstIndexOfNew(init, x);
    var r := d + [x];
    forall i, j | 0 <= i < j < |r|
      ensures r[i] in s && r[j] in s && FirstIndex(s, r[i]) < FirstIndex(s, r[j])
    {
      assert r[i] == d[i];
      if j < |d| {
        assert r[j] == d[j];
      } else {
        assert r[j] == x;
      }
    }
  }

  /** Dedup keeps the order in which items first occur. */
  lemma {:induction false} DedupOrder<T>(s: seq<T>)
    ensures InFirstOrder(s, Dedup(s))
  {
    if s != [] {
      var n := |s| - 1;
      var init := s[..n];
      assert s == init + [s[n]];
      var d := Dedup(init);
      DedupMembers(init);
      DedupOrder(init);
      FirstOrderSnoc(init, s[n], d);
      if s[n] !in d {
        FirstOrderAppend(init, s[n], d);
      }
    }
  }

  /** A list without repeated items is its own Dedup. */
  lemma {:induction false} DedupOfDistinct<T>(s: seq<T>)
    requires NoDuplicates(s)
    ensures Dedup(s) == s
  {
    if s != [] {
      var n := |s| - 1;
      var init := s[..n];
      assert s == init + [s[n]];
      DedupOfDistinct(init);
      assert s[n] !in init;
    }
  }

  /** Walking `b` after `a`: the start, one step, and the end. */
  lemma AppendTake<T>(a: seq<T>, b: seq<T>, i: nat)
    requires i <= |b|
    ensures a + b[..0] == a
    ensures i < |b| ==> a + b[..i + 1] == (a + b[..i]) + [b[i]]
    ensures a + b[..|b|] == a + b
  {
    if i < |b| {
      assert a + b[..i + 1] == (a + b[..i]) + [b[i]];
    }
    assert b[..|b|] == b;
  }

  /** Updating a key twice keeps only the second value. */
  lemma UpdateTwice<K, V>(m: map<K, V>, k: K, a: V, b: V)
    ensures m[k := a][k := b] == m[k := b]
  {
    assert m[k := a][k := b].Keys == m[k := b].Keys;
  }

  /** A loop over `s` that has seen its first `i` items. */
  lemma TakeStep<T>(s: seq<T>, i: nat)
    requires i <= |s|
    ensures i < |s| ==> s[..i + 1] == s[..i] + [s[i]]
    ensures s[..|s|] == s
  {
    if i < |s| {
      assert s[..i + 1] == s[..i] + [s[i]];
    }
  }

  /** One more item extends the filtered list exactly when the item passes. */
  lemma FilterSnoc<T>(p: T -> bool, s: seq<T>, x: T)
    ensures Filter(p, s + [x]) == Filter(p, s) + (if p(x) then [x] else [])
  {
    assert (s + [x])[..|s|] == s;
  }

  /** One more item adds its image at the end. */
  lemma MapSnoc<A, B>(f: A -> B, s: seq<A>, x: A)
    ensures Map(f, s + [x]) == Map(f, s) + [f(x)]
  {
    assert (s + [x])[..|s|] == s;
  }

  /** One more item is appended to the deduplicated list unless it is already there. */
  lemma DedupSnoc<T>(s: seq<T>, x: T)
    ensures Dedup(s + [x]) == if x in Dedup(s) then Dedup(s) else Dedup(s) + [x]
  {
    assert (s + [x])[..|s|] == s;
  }

  /** One more item for "keep the passing items once each". */
  lemma DedupFilterSnoc<T>(p: T -> bool, s: seq<T>, x: T)
    ensures var d := Dedup(Filter(p, s));
            Dedup(Filter(p, s + [x])) == if p(x) && x !in d then d + [x] else d
  {
    FilterSnoc(p, s, x);
    if p(x) {
      DedupSnoc(Filter(p, s), x);
    } else {
      assert Filter(p, s + [x]) == Filter(p, s);
    }
  }

  /** One more item for "the images of the passing items, once each". */
  lemma DedupMapFilterSnoc<T, U>(p: T -> bool, f: T -> U, s: seq<T>, x: T)
    ensures var d := Dedup(Map(f, Filter(p, s)));
            Dedup(Map(f, Filter(p, s + [x]))) == if p(x) && f(x) !in d then d + [f(x)] else d
  {
    FilterSnoc(p, s, x);
    if p(x) {
      MapSnoc(f, Filter(p, s), x);
      DedupSnoc(Map(f, Filter(p, s)), f(x));
    } else {
      assert Filter(p, s + [x]) == Filter(p, s);
    }
  }

  /** Every passing item has its image, exactly once, in "the images of the passing items, once each". */
  lemma DedupMapFilterCovers<T, U>(p: T -> bool, f: T -> U, s: seq<T>)
    ensures NoDuplicates(Dedup(Map(f, Filter(p, s))))
    ensures forall i :: 0 <= i < |s| && p(s[i]) ==> f(s[i]) in Dedup(Map(f, Filter(p, s)))
  {
    var kept := Filter(p, s);
    FilterMembers(p, s);
    MapAt(f, kept);
    DedupMembers(Map(f, kept));
    forall i | 0 <= i < |s| && p(s[i]) ensures f(s[i]) in Dedup(Map(f, kept)) {
      var k :| 0 <= k < |kept| && kept[k] == s[i];
      assert Map(f, kept)[k] == f(s[i]);
    }
  }

  /** Sum of a list of lengths. */
  function Sum(s: seq<nat>): nat {
    if s == [] then 0 else Sum(s[..|s| - 1]) + s[|s| - 1]
  }

  /** The value of a running total after each item. */
  function RunningSums(s: seq<nat>): (r: seq<nat>)
    ensures |r| == |s|
  {
    if s == [] then [] else RunningSums(s[..|s| - 1]) + [Sum(s)]
  }

  /** Entry `i` of the running totals is the sum of the first `i + 1` items. */
  lemma {:induction false} RunningSumsArePrefixSums(s: seq<nat>)
    ensures forall i :: 0 <= i < |s| ==> RunningSums(s)[i] == Sum(s[..i + 1])
  {
    if s != [] {
      var init := s[..|s| - 1];
      RunningSumsArePrefixSums(init);
      assert forall i {:trigger init[..i + 1]} :: 0 <= i < |init| ==> init[..i + 1] == s[..i + 1];
      assert s[..|s|] == s;
    }
  }

  /** A longer prefix of positive items has a strictly larger sum. */
  lemma {:induction false} SumPrefixGrows(s: seq<nat>, i: nat, j: nat)
    requires i < j <= |s|
    requires forall k :: 0 <= k < |s| ==> s[k] > 0
    ensures Sum(s[..i]) < Sum(s[..j])
    decreases j
  {
    var t := s[..j];
    assert t[..|t| - 1] == s[..j - 1];
    if i < j - 1 {
      SumPrefixGrows(s, i, j - 1);
    }
  }

  /** With positive items the running total strictly increases. */
  lemma RunningSumsIncrease(s: seq<nat>)
    requires forall k :: 0 <= k < |s| ==> s[k] > 0
    ensures forall i, j :: 0 <= i < j < |s| ==> RunningSums(s)[i] < RunningSums(s)[j]
  {
    RunningSumsArePrefixSums(s);
    forall i, j | 0 <= i < j < |s| ensures RunningSums(s)[i] < RunningSums(s)[j] {
      SumPrefixGrows(s, i + 1, j + 1);
    }
  }

  /**
    Run `f` on every item with its position, in order, and concatenate what it returns; the
    first failure ends the walk. The shape of a `for` loop that appends and may raise.
   */
  function Collect<T, U, E>(f: (nat, T) -> Result<seq<U>, E>, s: seq<T>): Result<seq<U>, E> {
    if s == [] then Success([])
    else
      match Collect(f, s[..|s| - 1])
      case Failure(e) => Failure(e)
      case Success(prev) =>
        match f(|s| - 1, s[|s| - 1])
        case Failure(e) => Failure(e)
        case Success(more) => Success(prev + more)
  }

  /** One more item for `Collect`, for a loop that has gone through the first `i` items. */
  lemma CollectStep<T, U, E>(f: (nat, T) -> Result<seq<U>, E>, s: seq<T>, i: nat)
    requires i < |s|
    ensures Collect(f, s[..i]).Failure? ==> Collect(f, s[..i + 1]) == Collect(f, s[..i])
    ensures Collect(f, s[..i]).Success? && f(i, s[i]).Failure? ==>
              Collect(f, s[..i + 1]) == Failure(f(i, s[i]).error)
    ensures Collect(f, s[..i]).Success? && f(i, s[i]).Success? ==>
              Collect(f, s[..i + 1]) == Success(Collect(f, s[..i]).value + f(i, s[i]).value)
  {
    assert s[..i + 1][..i] == s[..i];
  }

  /** Once a prefix fails, the whole walk fails with the same error. */
  lemma {:induction false} CollectFailureStays<T, U, E>(f: (nat, T) -> Result<seq<U>, E>, s: seq<T>, i: nat)
    requires i <= |s| && Collect(f, s[..i]).Failure?
    ensures Collect(f, s) == Collect(f, s[..i])
    decreases |s| - i
  {
    if i < |s| {
      CollectStep(f, s, i);
      CollectFailureStays(f, s, i + 1);
    } else {
      assert s[..i] == s;
    }
  }

  /** What holds of everything `f` returns holds of everything `Collect` returns. */
  lemma {:induction false} CollectAll<T, U, E>(f: (nat, T) -> Result<seq<U>, E>, s: seq<T>, p: U -> bool)
    requires forall i, x :: f(i, x).Success? ==> forall y :: y in f(i, x).value ==> p(y)
    ensures Collect(f, s).Success? ==> forall y :: y in Collect(f, s).value ==> p(y)
  {
    if s != [] {
      CollectAll(f, s[..|s| - 1], p);
    }
  }

  /** When every step appends exactly one item, item `i` of the result is what step `i` appended. */
  lemma {:induction false} CollectSingles<T, U, E>(f: (nat, T) -> Result<seq<U>, E>, s: seq<T>)
    requires forall i, x :: f(i, x).Success? ==> |f(i, x).value| == 1
    requires Collect(f, s).Success?
    ensures |Collect(f, s).value| == |s|
    ensures forall i :: 0 <= i < |s| ==> f(i, s[i]).Success? && Collect(f, s).value[i] == f(i, s[i]).value[0]
  {
    if s != [] {
      var n := |s| - 1;
      var init := s[..n];
      CollectSingles(f, init);
      assert forall i :: 0 <= i < n ==> s[i] == init[i];
    }
  }

  /**
    The listing loop `for x in s: if p(x): dt = f(x); if dt not in added: kept.append(dt);
    added.append(dt)`, which keeps the image of each item that passes `p` unless an equal
    image is listed already.
   */
  method CollectDistinct<T, U(==)>(p: T -> bool, f: T -> U, s: seq<T>) returns (kept: seq<U>)
    ensures kept == Dedup(Map(f, Filter(p, s)))
  {
    kept := [];
    var added: seq<U> := [];
    var i := 0;
    ghost var seen: seq<T> := [];
    while i < |s|
      invariant 0 <= i <= |s|
      invariant seen == s[..i]
      invariant kept == added == Dedup(Map(f, Filter(p, seen)))
    {
      var x := s[i];
      DedupMapFilterSnoc(p, f, seen, x);
      TakeStep(s, i);
      seen := seen + [x];
      if p(x) {
        var dt := f(x);
        if dt !in added {
          kept := kept + [dt];
          added := added + [dt];
        }
      }
      i := i + 1;
    }
    TakeStep(s, i);
  }

  /** What a scan that stops at the first item `look` has a verdict for ends with. */
  function FirstSome<T, R>(look: T -> Option<R>, s: seq<T>): Option<R> {
    if s == [] then None
    else if look(s[0]).Some? then look(s[0])
    else FirstSome(look, s[1..])
  }

  /** The scan has no verdict exactly when no item has one. */
  lemma {:induction false} FirstSomeNone<T, R>(look: T -> Option<R>, s: seq<T>)
    ensures FirstSome(look, s).None? <==> forall j :: 0 <= j < |s| ==> look(s[j]).None?
  {
    if s != [] {
      FirstSomeNone(look, s[1..]);
      assert forall j :: 0 < j < |s| ==> s[1..][j - 1] == s[j];
    }
  }

  /** A verdict is that of some item, and every item before it has none. */
  lemma {:induction false} FirstSomeAt<T, R>(look: T -> Option<R>, s: seq<T>)
    requires FirstSome(look, s).Some?
    ensures exists k :: 0 <= k < |s| && look(s[k]) == FirstSome(look, s) &&
              forall j :: 0 <= j < k ==> look(s[j]).None?
  {
    if look(s[0]).None? {
      FirstSomeAt(look, s[1..]);
      var k :| 0 <= k < |s| - 1 && look(s[1..][k]) == FirstSome(look, s[1..]) &&
                forall j :: 0 <= j < k ==> look(s[1..][j]).None?;
      assert look(s[k + 1]) == FirstSome(look, s);
      forall j | 0 <= j < k + 1 ensures look(s[j]).None? {
        if j > 0 {
          assert s[j] == s[1..][j - 1];
        }
      }
    }
  }

  /** Going past an item without a verdict leaves the scan's verdict unchanged. */
  lemma FirstSomeStep<T, R>(look: T -> Option<R>, s: seq<T>, i: nat)
    requires i < |s|
    ensures FirstSome(look, s[i..]) == if look(s[i]).Some? then look(s[i]) else FirstSome(look, s[i + 1..])
  {
    assert s[i..][1..] == s[i + 1..];
  }

  /**
    With `p` the test `look` stops at: the scan ends without a verdict exactly when no item
    passes `p`, and otherwise with the verdict of the first item that does.
   */
  lemma FirstSomeBy<T, R>(look: T -> Option<R>, s: seq<T>, p: T -> bool)
    requires forall j :: 0 <= j < |s| ==> (look(s[j]).Some? <==> p(s[j]))
    ensures FirstSome(look, s).None? <==> forall j :: 0 <= j < |s| ==> !p(s[j])
    ensures FirstSome(look, s).Some? ==>
              exists k :: 0 <= k < |s| && p(s[k]) && look(s[k]) == FirstSome(look, s) &&
                forall j :: 0 <= j < k ==> !p(s[j])
  {
    FirstSomeNone(look, s);
    if FirstSome(look, s).Some? {
      FirstSomeAt(look, s);
    }
  }

  /** When the items before position `k` have no verdict and item `k` has one, the scan gives it. */
  lemma {:induction false} FirstSomeAfterNones<T, R>(look: T -> Option<R>, s: seq<T>, k: nat)
    requires k < |s| && look(s[k]).Some?
    requires forall j :: 0 <= j < k ==> look(s[j]).None?
    ensures FirstSome(look, s) == look(s[k])
  {
    if k > 0 {
      assert look(s[0]).None?;
      assert forall j :: 0 <= j < k - 1 ==> s[1..][j] == s[j + 1];
      FirstSomeAfterNones(look, s[1..], k - 1);
    }
  }
}
