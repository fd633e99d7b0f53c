/**
 * List operations the source spells as `Array.prototype.filter`, Python list
 * comprehensions with a condition, and `list(dict.fromkeys(xs))`.
 */
module Seqs {

  /** `ys` is obtained from `xs` by deleting elements, keeping the order of the rest. */
  ghost predicate IsSubsequence<T>(ys: seq<T>, xs: seq<T>)
    decreases |xs|
  {
    if ys == [] then true
    else if xs == [] then false
    else if ys[0] == xs[0] then IsSubsequence(ys[1..], xs[1..])
    else IsSubsequence(ys, xs[1..])
  }

  ghost predicate NoDuplicates<T>(xs: seq<T>) {
    forall i, j | 0 <= i < j < |xs| :: xs[i] != xs[j]
  }

  /** The elements of `xs` that satisfy `keep`, in their original order. */
  function Filter<T>(xs: seq<T>, keep: T -> bool): (r: seq<T>)
    ensures |r| <= |xs|
    ensures forall k | 0 <= k < |r| :: keep(r[k])
    decreases |xs|
  {
    if xs == [] then []
    else
      assert xs == [xs[0]] + xs[1..];
      (if keep(xs[0]) then [xs[0]] else []) + Filter(xs[1..], keep)
  }

  /** The values of `f` at 0, 1, …, n - 1, in order. */
  function Tabulate<T>(f: nat -> T, n: nat): (r: seq<T>)
    ensures |r| == n
    ensures forall k | 0 <= k < n :: r[k] == f(k)
  {
    if n == 0 then [] else Tabulate(f, n - 1) + [f(n - 1)]
  }

  /** When no element satisfies the condition, nothing survives. */
  lemma {:induction false} FilterNone<T>(xs: seq<T>, keep: T -> bool)
    requires forall x | x in xs :: !keep(x)
    ensures Filter(xs, keep) == []
    decreases |xs|
  {
    if xs != [] {
      assert xs[0] in xs;
      FilterNone(xs[1..], keep);
    }
  }

  /** An element survives the filter exactly when it is in the list and satisfies the condition. */
  lemma FilterMembership<T>(xs: seq<T>, keep: T -> bool, x: T)
    ensures x in Filter(xs, keep) <==> x in xs && keep(x)
  {
    var r := Filter(xs, keep);
    FilterCount(xs, keep, x);
    assert x in r <==> multiset(r)[x] > 0;
    assert x in xs <==> multiset(xs)[x] > 0;
  }

  /** Filtering keeps every copy of a kept element and no copy of a dropped one. */
  lemma {:induction false} FilterCount<T>(xs: seq<T>, keep: T -> bool, x: T)
    ensures multiset(Filter(xs, keep))[x] == if keep(x) then multiset(xs)[x] else 0
    decreases |xs|
  {
    if xs != [] {
      FilterCount(xs[1..], keep, x);
      assert xs == [xs[0]] + xs[1..];
    }
  }

  /** Filtering keeps the relative order of what it keeps. */
  lemma {:induction false} FilterIsSubsequence<T>(xs: seq<T>, keep: T -> bool)
    ensures IsSubsequence(Filter(xs, keep), xs)
    decreases |xs|
  {
    if xs != [] {
      FilterIsSubsequence(xs[1..], keep);
      var rest := Filter(xs[1..], keep);
      if keep(xs[0]) {
        assert Filter(xs, keep) == [xs[0]] + rest;
        assert ([xs[0]] + rest)[1..] == rest;
      } else {
        assert Filter(xs, keep) == rest;
        SubsequenceSkip(rest, xs);
      }
    }
  }

  lemma {:induction false} SubsequenceSkip<T>(ys: seq<T>, xs: seq<T>)
    requires xs != []
    requires IsSubsequence(ys, xs[1..])
    ensures IsSubsequence(ys, xs)
    decreases |xs|, |ys|
  {
    if ys != [] && ys[0] == xs[0] {
      SubsequenceTail(ys, xs[1..]);
    }
  }

  lemma {:induction false} SubsequenceTail<T>(ys: seq<T>, xs: seq<T>)
    requires ys != []
    requires IsSubsequence(ys, xs)
    ensures IsSubsequence(ys[1..], xs)
    decreases |xs|, |ys|
  {
    assert xs != [];
    if ys[0] == xs[0] {
      if ys[1..] != [] {
        SubsequenceTail(ys[1..], xs[1..]);
        SubsequenceSkip(ys[1..], xs);
      }
    } else {
      SubsequenceTail(ys, xs[1..]);
      if ys[1..] != [] {
        SubsequenceSkip(ys[1..], xs);
      }
    }
  }

  /** A filter that keeps every element is the identity. */
  lemma {:induction false} FilterKeepsAll<T>(xs: seq<T>, keep: T -> bool)
    requires forall k | 0 <= k < |xs| :: keep(xs[k])
    ensures Filter(xs, keep) == xs
    decreases |xs|
  {
    if xs != [] {
      FilterKeepsAll(xs[1..], keep);
    }
  }

  /** Filtering twice with the same condition is filtering once. */
  lemma FilterIdempotent<T>(xs: seq<T>, keep: T -> bool)
    ensures Filter(Filter(xs, keep), keep) == Filter(xs, keep)
  {
    FilterKeepsAll(Filter(xs, keep), keep);
  }

  lemma {:induction false} FilterAppend<T>(xs: seq<T>, ys: seq<T>, keep: T -> bool)
    ensures Filter(xs + ys, keep) == Filter(xs, keep) + Filter(ys, keep)
    decreases |xs|
  {
    if xs != [] {
      assert (xs + ys)[1..] == xs[1..] + ys;
      FilterAppend(xs[1..], ys, keep);
    } else {
      assert xs + ys == ys;
    }
  }

  /**
   * `r` lists its elements in the order of their first occurrence in `xs`:
   * every occurrence in `xs` of a later element of `r` comes after an
   * occurrence of each earlier one.
   */
  ghost predicate FirstOccurrenceOrder<T>(r: seq<T>, xs: seq<T>) {
    forall i, j, q | 0 <= i < j < |r| && 0 <= q < |xs| && xs[q] == r[j] :: r[i] in xs[..q]
  }

  /**
   * First occurrences of the elements of `xs`, in order: Python's
   * `list(dict.fromkeys(xs))`.
   */
  function Dedup<T(==)>(xs: seq<T>): (r: seq<T>)
    ensures NoDuplicates(r)
    ensures forall k | 0 <= k < |xs| :: xs[k] in r
    ensures forall k | 0 <= k < |r| :: r[k] in xs
    ensures FirstOccurrenceOrder(r, xs)
    decreases |xs|
  {
    if xs == [] then []
    else
      var d := Dedup(xs[..|xs| - 1]);
      var last := xs[|xs| - 1];
      assert xs == xs[..|xs| - 1] + [last];
      DedupStepOrder(xs[..|xs| - 1], d, last);
      if last in d then d else d + [last]
  }

  /** Keeping or appending the next element preserves first-occurrence order. */
  lemma DedupStepOrder<T>(init: seq<T>, d: seq<T>, last: T)
    requires FirstOccurrenceOrder(d, init)
    requires forall k | 0 <= k < |init| :: init[k] in d
    requires forall k | 0 <= k < |d| :: d[k] in init
    ensures FirstOccurrenceOrder(if last in d then d else d + [last], init + [last])
  {
    var r, xs := if last in d then d else d + [last], init + [last];
    forall i, j, q | 0 <= i < j < |r| && 0 <= q < |xs| && xs[q] == r[j] ensures r[i] in xs[..q] {
      assert r[i] == d[i];
      if q < |init| {
        assert xs[q] == init[q] && xs[..q] == init[..q];
        if j < |d| {
          assert r[j] == d[j];
        }
      } else {
        assert xs[..q] == init;
        if j < |d| {
          assert r[j] == d[j];
          var q' :| 0 <= q' < |init| && init[q'] == d[j];
          assert d[i] in init[..q'];
          assert init[..q'] == xs[..q'];
        }
      }
    }
  }

  /** The position of the first occurrence of `x` in `xs`. */
  ghost function FirstIndex<T>(xs: seq<T>, x: T): (q: nat)
    requires x in xs
    ensures q < |xs| && xs[q] == x && x !in xs[..q]
    decreases |xs|
  {
    if xs[0] == x then 0
    else
      var q := 1 + FirstIndex(xs[1..], x);
      assert xs[..q] == [xs[0]] + xs[1..][..q - 1];
      q
  }

  /** In first-occurrence order, later elements first occur no earlier in `xs`. */
  lemma FirstIndexMonotone<T>(r: seq<T>, xs: seq<T>, i: nat, j: nat)
    requires FirstOccurrenceOrder(r, xs)
    requires forall k | 0 <= k < |r| :: r[k] in xs
    requires i <= j < |r|
    ensures FirstIndex(xs, r[i]) <= FirstIndex(xs, r[j])
  {
    if i < j {
      var q := FirstIndex(xs, r[j]);
      assert r[i] in xs[..q];
      var q' :| 0 <= q' < q && xs[..q][q'] == r[i];
      assert xs[q'] == r[i];
      FirstIndexLeast(xs, r[i], q');
    }
  }

  /** No occurrence comes before the first one. */
  lemma {:induction false} FirstIndexLeast<T>(xs: seq<T>, x: T, q: nat)
    requires q < |xs| && xs[q] == x
    ensures FirstIndex(xs, x) <= q
    decreases q
  {
    if xs[0] != x {
      assert xs[1..][q - 1] == x;
      FirstIndexLeast(xs[1..], x, q - 1);
    }
  }

  /**
   * Two duplicate-free lists with the same elements, all of them in `xs` and
   * both in first-occurrence order, are the same list.
   */
  lemma {:induction false} FirstOccurrenceOrderUnique<T>(p: seq<T>, r: seq<T>, xs: seq<T>)
    requires NoDuplicates(p) && NoDuplicates(r)
    requires forall x :: x in p <==> x in r
    requires forall k | 0 <= k < |p| :: p[k] in xs
    requires FirstOccurrenceOrder(p, xs) && FirstOccurrenceOrder(r, xs)
    ensures p == r
    decreases |p|
  {
    if p == [] {
      assert forall x :: x !in r;
      NoMembersEmpty(r);
    } else {
      assert p[0] in r;
      assert r != [];
      assert r[0] in p;
      assert forall k | 0 <= k < |r| :: r[k] in xs by {
        forall k | 0 <= k < |r| ensures r[k] in xs {
          assert r[k] in p;
        }
      }
      var j :| 0 <= j < |p| && p[j] == r[0];
      var i :| 0 <= i < |r| && r[i] == p[0];
      FirstIndexMonotone(p, xs, 0, j);
      FirstIndexMonotone(r, xs, 0, i);
      assert p[0] == r[0];
      forall x ensures x in p[1..] <==> x in r[1..] {
        assert x in p <==> x == p[0] || x in p[1..];
        assert x in r <==> x == r[0] || x in r[1..];
        assert p[0] !in p[1..] && r[0] !in r[1..];
      }
      forall k | 0 <= k < |p[1..]| ensures p[1..][k] in xs {
        assert p[1..][k] == p[k + 1];
      }
      FirstOccurrenceOrderTail(p, xs);
      FirstOccurrenceOrderTail(r, xs);
      FirstOccurrenceOrderUnique(p[1..], r[1..], xs);
      assert p == [p[0]] + p[1..] && r == [r[0]] + r[1..];
    }
  }

  lemma NoMembersEmpty<T>(r: seq<T>)
    requires forall x :: x !in r
    ensures r == []
  {
    forall x ensures multiset(r)[x] == 0 {
      assert x !in r;
    }
    assert multiset(r) == multiset{};
    assert |multiset(r)| == |r|;
  }

  lemma FirstOccurrenceOrderTail<T>(r: seq<T>, xs: seq<T>)
    requires r != [] && FirstOccurrenceOrder(r, xs)
    ensures FirstOccurrenceOrder(r[1..], xs)
  {
    var t := r[1..];
    forall i, j, q | 0 <= i < j < |t| && 0 <= q < |xs| && xs[q] == t[j] ensures t[i] in xs[..q] {
      assert t[i] == r[i + 1] && t[j] == r[j + 1];
    }
  }

  /**
   * The deduplication is pinned down by its contract: any duplicate-free list
   * holding exactly the elements of `xs`, in first-occurrence order, is it.
   */
  lemma DedupUnique<T>(xs: seq<T>, r: seq<T>)
    requires NoDuplicates(r)
    requires forall x :: x in r <==> x in xs
    requires FirstOccurrenceOrder(r, xs)
    ensures r == Dedup(xs)
  {
    var d := Dedup(xs);
    forall x ensures x in d <==> x in r {
      if x in d {
        var k :| 0 <= k < |d| && d[k] == x;
      }
      if x in xs {
        var k :| 0 <= k < |xs| && xs[k] == x;
      }
    }
    FirstOccurrenceOrderUnique(d, r, xs);
  }

  /** Deduplication gives the empty list only for the empty list. */
  lemma DedupEmpty<T>(xs: seq<T>)
    ensures Dedup(xs) == [] <==> xs == []
  {
    if xs != [] {
      assert xs[0] in Dedup(xs);
    }
  }

  /** Deduplication keeps elements in the order of their first occurrence. */
  lemma {:induction false} DedupIsSubsequence<T>(xs: seq<T>)
    ensures IsSubsequence(Dedup(xs), xs)
    decreases |xs|
  {
    if xs != [] {
      var init, last := xs[..|xs| - 1], xs[|xs| - 1];
      DedupIsSubsequence(init);
      assert xs == init + [last];
      if last in Dedup(init) {
        SubsequenceAppend(Dedup(init), init, [last]);
      } else {
        SubsequenceExtend(Dedup(init), init, [last]);
      }
    }
  }

  /** A subsequence of `xs`, followed by a subsequence of `tail`, is a subsequence of `xs + tail`. */
  lemma {:induction false} SubsequenceExtend<T>(ys: seq<T>, xs: seq<T>, tail: seq<T>)
    requires IsSubsequence(ys, xs)
    requires |tail| <= 1
    ensures IsSubsequence(ys + tail, xs + tail)
    decreases |xs|
  {
    if ys == [] {
      assert ys + tail == tail;
      if tail != [] {
        SubsequenceSelf(tail);
        SubsequenceSuffix(tail, xs);
      } else {
        assert IsSubsequence(ys + tail, xs + tail);
      }
    } else {
      assert xs != [];
      assert (xs + tail)[1..] == xs[1..] + tail;
      assert (ys + tail)[1..] == ys[1..] + tail;
      if ys[0] == xs[0] {
        SubsequenceExtend(ys[1..], xs[1..], tail);
      } else {
        SubsequenceExtend(ys, xs[1..], tail);
      }
    }
  }

  /** A subsequence of `xs` is a subsequence of any extension of `xs`. */
  lemma {:induction false} SubsequenceAppend<T>(ys: seq<T>, xs: seq<T>, tail: seq<T>)
    requires IsSubsequence(ys, xs)
    ensures IsSubsequence(ys, xs + tail)
    decreases |xs|
  {
    if ys != [] {
      assert xs != [];
      assert (xs + tail)[1..] == xs[1..] + tail;
      if ys[0] == xs[0] {
        SubsequenceAppend(ys[1..], xs[1..], tail);
      } else {
        SubsequenceAppend(ys, xs[1..], tail);
      }
    }
  }

  lemma {:induction false} SubsequenceSelf<T>(xs: seq<T>)
    ensures IsSubsequence(xs, xs)
    decreases |xs|
  {
    if xs != [] {
      SubsequenceSelf(xs[1..]);
    }
  }

  lemma {:induction false} SubsequenceSuffix<T>(ys: seq<T>, xs: seq<T>)
    requires IsSubsequence(ys, ys)
    ensures IsSubsequence(ys, xs + ys)
    decreases |xs|
  {
    if xs != [] {
      assert (xs + ys)[1..] == xs[1..] + ys;
      SubsequenceSuffix(ys, xs[1..]);
      SubsequenceSkip(ys, xs + ys);
    } else {
      assert xs + ys == ys;
    }
  }

  /** A list without repetitions is its own deduplication. */
  lemma {:induction false} DedupNoDuplicates<T>(xs: seq<T>)
    requires NoDuplicates(xs)
    ensures Dedup(xs) == xs
    decreases |xs|
  {
    if xs != [] {
      var init := xs[..|xs| - 1];
      DedupNoDuplicates(init);
      assert xs[|xs| - 1] !in init;
      assert xs == init + [xs[|xs| - 1]];
    }
  }
}
