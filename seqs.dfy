/**
 * The list operations the handlers and pages are built from: `Array.prototype.filter`,
 * `filter(...).length`, `findOne` (the first document in natural order that matches a
 * query), `sort` on one numeric key, and `reduce` with `+`.
 */
module Seqs {
  import opened Common

  /** `xs.filter(p)`: the elements satisfying `p`, in their original order. */
  function Filter<T>(xs: seq<T>, p: T -> bool): (r: seq<T>)
    ensures |r| <= |xs|
    ensures forall i :: 0 <= i < |r| ==> p(r[i])
  {
    if xs == [] then []
    else
      var rest := Filter(xs[1..], p);
      assert xs == [xs[0]] + xs[1..];
      if p(xs[0]) then [xs[0]] + rest else rest
  }

  /** Membership in a filtered list, in both directions. */
  lemma {:induction false} FilterMember<T>(xs: seq<T>, p: T -> bool, x: T)
    ensures x in Filter(xs, p) <==> x in xs && p(x)
  {
    if xs != [] {
      FilterMember(xs[1..], p, x);
      assert xs == [xs[0]] + xs[1..];
    }
  }

  /** Filtering keeps every occurrence of an element that satisfies `p` and none of one that does not. */
  lemma {:induction false} FilterMultiset<T>(xs: seq<T>, p: T -> bool, x: T)
    ensures multiset(Filter(xs, p))[x] == if p(x) then multiset(xs)[x] else 0
  {
    if xs != [] {
      FilterMultiset(xs[1..], p, x);
      assert xs == [xs[0]] + xs[1..];
    }
  }

  /** Filtering a list extended by one element extends the filtered list by that element or not at all. */
  lemma {:induction false} FilterSnoc<T>(xs: seq<T>, x: T, p: T -> bool)
    ensures Filter(xs + [x], p) == Filter(xs, p) + (if p(x) then [x] else [])
  {
    var tail := if p(x) then [x] else [];
    if xs == [] {
      assert [x][1..] == [];
      assert Filter([x], p) == tail + Filter([], p);
    } else {
      var ys := xs + [x];
      assert ys[0] == xs[0] && ys[1..] == xs[1..] + [x];
      var head := if p(xs[0]) then [xs[0]] else [];
      assert Filter(ys, p) == head + Filter(xs[1..] + [x], p);
      FilterSnoc(xs[1..], x, p);
      assert Filter(xs, p) == head + Filter(xs[1..], p);
    }
  }

  /** A predicate that holds everywhere keeps the whole list. */
  lemma {:induction false} FilterAll<T>(xs: seq<T>, p: T -> bool)
    requires forall i :: 0 <= i < |xs| ==> p(xs[i])
    ensures Filter(xs, p) == xs
  {
    if xs != [] {
      FilterAll(xs[1..], p);
    }
  }

  /** Filtering by `p` and by its negation splits a list in two: the counts add up and no element is lost. */
  lemma {:induction false} FilterPartition<T>(xs: seq<T>, p: T -> bool, q: T -> bool)
    requires forall x :: q(x) == !p(x)
    ensures |Filter(xs, p)| + |Filter(xs, q)| == |xs|
    ensures multiset(Filter(xs, p)) + multiset(Filter(xs, q)) == multiset(xs)
  {
    if xs != [] {
      FilterPartition(xs[1..], p, q);
      assert xs == [xs[0]] + xs[1..];
    }
  }

  /** Filtering twice is filtering once by the conjunction. */
  lemma {:induction false} FilterFilter<T>(xs: seq<T>, p: T -> bool, q: T -> bool, pq: T -> bool)
    requires forall x :: pq(x) == (p(x) && q(x))
    ensures Filter(Filter(xs, p), q) == Filter(xs, pq)
  {
    if xs != [] {
      FilterFilter(xs[1..], p, q, pq);
      assert xs == [xs[0]] + xs[1..];
    }
  }

  /** `findOne`: the index of the first element satisfying `p`, if any. */
  function FirstIndex<T>(xs: seq<T>, p: T -> bool): (r: Option<nat>)
    ensures r.Some? ==> r.value < |xs| && p(xs[r.value])
    ensures r.Some? ==> forall j :: 0 <= j < r.value ==> !p(xs[j])
    ensures r.None? <==> forall j :: 0 <= j < |xs| ==> !p(xs[j])
  {
    if xs == [] then None
    else if p(xs[0]) then Some(0)
    else
      var r := FirstIndex(xs[1..], p);
      assert forall j :: 1 <= j < |xs| ==> xs[j] == xs[1..][j - 1];
      if r.Some? then Some(r.value + 1) else None
  }

  ghost predicate SortedBy<T>(xs: seq<T>, key: T -> int)
  {
    forall i, j :: 0 <= i < j < |xs| ==> key(xs[i]) <= key(xs[j])
  }

  /** Insertion of one element into a list already sorted by `key`. */
  function InsertBy<T>(x: T, xs: seq<T>, key: T -> int): (r: seq<T>)
    requires SortedBy(xs, key)
    ensures |r| == |xs| + 1
    ensures key(r[0]) == if xs == [] || key(x) <= key(xs[0]) then key(x) else key(xs[0])
    ensures SortedBy(r, key)
    ensures multiset(r) == multiset(xs) + multiset{x}
  {
    if xs == [] || key(x) <= key(xs[0]) then [x] + xs
    else
      assert xs == [xs[0]] + xs[1..];
      [xs[0]] + InsertBy(x, xs[1..], key)
  }

  /** `sort({ key: 1 })`: the same elements, ascending by `key` (ties in any order). */
  function SortBy<T>(xs: seq<T>, key: T -> int): (r: seq<T>)
    ensures |r| == |xs|
    ensures SortedBy(r, key)
    ensures multiset(r) == multiset(xs)
  {
    if xs == [] then []
    else
      assert xs == [xs[0]] + xs[1..];
      InsertBy(xs[0], SortBy(xs[1..], key), key)
  }

  /** A property of every element survives a reordering. */
  lemma PermutationKeeps<T>(xs: seq<T>, ys: seq<T>, p: T -> bool)
    requires multiset(ys) == multiset(xs)
    requires forall i :: 0 <= i < |xs| ==> p(xs[i])
    ensures forall i :: 0 <= i < |ys| ==> p(ys[i])
  {
    forall i | 0 <= i < |ys|
      ensures p(ys[i])
    {
      assert ys[i] in multiset(xs);
      var j :| 0 <= j < |xs| && xs[j] == ys[i];
    }
  }

  /** `xs.map(f)`. */
  function Map<T, U>(xs: seq<T>, f: T -> U): (r: seq<U>)
    ensures |r| == |xs|
    ensures forall i :: 0 <= i < |xs| ==> r[i] == f(xs[i])
  {
    seq(|xs|, i requires 0 <= i < |xs| => f(xs[i]))
  }

  /** Mapping distributes over concatenation. */
  lemma MapConcat<T, U>(xs: seq<T>, ys: seq<T>, f: T -> U)
    ensures Map(xs + ys, f) == Map(xs, f) + Map(ys, f)
  {
  }

  /** Taking one occurrence of `ys[j]` out of both sides keeps them permutations of each other. */
  lemma RemoveBoth<T>(xs: seq<T>, ys: seq<T>, j: int)
    requires multiset(xs) == multiset(ys)
    requires |xs| > 0 && 0 <= j < |ys| && ys[j] == xs[0]
    ensures multiset(xs[1..]) == multiset(ys[..j] + ys[j + 1..])
  {
    var rest := ys[..j] + ys[j + 1..];
    assert ys == ys[..j] + [ys[j]] + ys[j + 1..];
    assert multiset(ys) == multiset(ys[..j]) + multiset{ys[j]} + multiset(ys[j + 1..]);
    assert multiset(rest) == multiset(ys[..j]) + multiset(ys[j + 1..]);
    assert xs == [xs[0]] + xs[1..];
    assert multiset(xs) == multiset{xs[0]} + multiset(xs[1..]);
    assert multiset(rest) == multiset(ys) - multiset{ys[j]};
    assert multiset(xs[1..]) == multiset(xs) - multiset{xs[0]};
  }

  /** Moving one element of a list keeps its image a permutation. */
  lemma MapSplice<T, U>(x: T, rest: seq<T>, before: seq<T>, after: seq<T>, f: T -> U)
    requires multiset(Map(rest, f)) == multiset(Map(before + after, f))
    ensures multiset(Map([x] + rest, f)) == multiset(Map(before + [x] + after, f))
  {
    MapConcat(before, [x], f);
    MapConcat(before + [x], after, f);
    MapConcat(before, after, f);
    MapConcat([x], rest, f);
  }

  /** Reordering a list reorders its image: the same values, as often. */
  lemma {:induction false} MapPermutation<T, U>(xs: seq<T>, ys: seq<T>, f: T -> U)
    requires multiset(xs) == multiset(ys)
    ensures multiset(Map(xs, f)) == multiset(Map(ys, f))
    decreases |xs|
  {
    if xs == [] {
      assert |ys| == |multiset(ys)| == 0;
    } else {
      assert xs[0] in multiset(ys) by { assert xs[0] in multiset(xs); }
      var j :| 0 <= j < |ys| && ys[j] == xs[0];
      RemoveBoth(xs, ys, j);
      MapPermutation(xs[1..], ys[..j] + ys[j + 1..], f);
      MapSplice(xs[0], xs[1..], ys[..j], ys[j + 1..], f);
      assert xs == [xs[0]] + xs[1..];
      assert ys == ys[..j] + [xs[0]] + ys[j + 1..];
    }
  }

  /** `xs.reduce((sum, x) => sum + f(x), 0)`, folded from the left as `reduce` does. */
  function SumBy<T>(xs: seq<T>, f: T -> int): int
  {
    if xs == [] then 0 else SumBy(xs[..|xs| - 1], f) + f(xs[|xs| - 1])
  }

  /** A sum of non-negative terms is non-negative. */
  lemma {:induction false} SumByNonNegative<T>(xs: seq<T>, f: T -> int)
    requires forall i :: 0 <= i < |xs| ==> f(xs[i]) >= 0
    ensures SumBy(xs, f) >= 0
  {
    if xs != [] {
      SumByNonNegative(xs[..|xs| - 1], f);
    }
  }

  /** Terms that `p` rejects contribute nothing when `f` is zero on them: the sum may be taken over `Filter(xs, p)`. */
  lemma {:induction false} SumByFilter<T>(xs: seq<T>, f: T -> int, p: T -> bool)
    requires forall i :: 0 <= i < |xs| && !p(xs[i]) ==> f(xs[i]) == 0
    ensures SumBy(Filter(xs, p), f) == SumBy(xs, f)
  {
    if xs != [] {
      var init, last := xs[..|xs| - 1], xs[|xs| - 1];
      assert xs == init + [last];
      SumByFilter(init, f, p);
      FilterSnoc(init, last, p);
      assert SumBy(xs, f) == SumBy(init, f) + f(last);
      var fi := Filter(init, p);
      if p(last) {
        assert (fi + [last])[..|fi + [last]| - 1] == fi;
        assert SumBy(fi + [last], f) == SumBy(fi, f) + f(last);
      } else {
        assert Filter(xs, p) == fi;
      }
    }
  }
}
