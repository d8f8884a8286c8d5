/** Slices of a list, how they tile it, and filtered lists. */
module Paging {
  import opened Soroban

  /** At most `limit` elements from `offset` on; empty beyond the end. */
  function Slice<T>(xs: seq<T>, offset: nat, limit: nat): seq<T> {
    if offset >= |xs| then [] else xs[offset..Min(offset + limit, |xs|)]
  }

  /** A slice has as many elements as there are from `offset` on, up to `limit`, each at its place. */
  lemma SliceExact<T>(xs: seq<T>, offset: nat, limit: nat, k: nat)
    ensures |Slice(xs, offset, limit)| == if offset >= |xs| then 0 else Min(limit, |xs| - offset)
    ensures k < |Slice(xs, offset, limit)| ==> offset + k < |xs| && Slice(xs, offset, limit)[k] == xs[offset + k]
  {
  }

  /** Where a zero-based page of a given size starts. */
  function Start(page: nat, size: nat): nat {
    page * size
  }

  /** The first `n` pages of a given size, one after the other. */
  function Pages<T>(xs: seq<T>, size: nat, n: nat): seq<T> {
    if n == 0 then [] else Pages(xs, size, n - 1) + Slice(xs, Start(n - 1, size), size)
  }

  lemma SliceFollows<T>(xs: seq<T>, offset: nat, limit: nat)
    ensures xs[..Min(offset, |xs|)] + Slice(xs, offset, limit) == xs[..Min(offset + limit, |xs|)]
  {
  }

  /** Successive pages repeat nothing, skip nothing and keep the order. */
  lemma {:induction false} PagesTile<T>(xs: seq<T>, size: nat, n: nat)
    ensures Pages(xs, size, n) == xs[..Min(Start(n, size), |xs|)]
  {
    StartSteps(n, size);
    hide Start, Slice;
    if n > 0 {
      PagesTile(xs, size, n - 1);
      SliceFollows(xs, Start(n - 1, size), size);
    }
  }

  lemma StartSteps(n: nat, size: nat)
    ensures Start(n, size) == if n == 0 then 0 else Start(n - 1, size) + size
  {
  }

  /** A longer prefix of a list does not change a slice that is already full. */
  lemma FullSliceStays<T>(xs: seq<T>, ys: seq<T>, offset: nat, limit: nat)
    requires |Slice(xs, offset, limit)| >= limit
    ensures Slice(xs + ys, offset, limit) == Slice(xs, offset, limit)
  {
  }

  /** One more element enters a slice if it lies past the offset and there is room. */
  lemma SliceExtends<T>(xs: seq<T>, x: T, offset: nat, limit: nat)
    ensures |Slice(xs, offset, limit)| == if offset >= |xs| then 0 else Min(limit, |xs| - offset)
    ensures Slice(xs + [x], offset, limit) ==
            if offset <= |xs| < offset + limit then Slice(xs, offset, limit) + [x] else Slice(xs, offset, limit)
  {
  }

  /** `xs` without the members of `gone`. */
  function FilterOut<T(==)>(xs: seq<T>, gone: set<T>): seq<T> {
    if xs == [] then []
    else FilterOut(xs[..|xs| - 1], gone) + if xs[|xs| - 1] in gone then [] else [xs[|xs| - 1]]
  }

  /** Taking keys out in two steps. */
  lemma MinusTwice<K, V>(m: map<K, V>, gone: set<K>, more: set<K>)
    ensures m - gone - more == m - (gone + more)
  {
  }

  ghost predicate NoRepeats<T>(xs: seq<T>) {
    forall i, j :: 0 <= i < j < |xs| ==> xs[i] != xs[j]
  }

  lemma {:induction false} FilterOutConcat<T>(xs: seq<T>, ys: seq<T>, gone: set<T>)
    ensures FilterOut(xs + ys, gone) == FilterOut(xs, gone) + FilterOut(ys, gone)
  {
    if ys == [] {
      assert xs + ys == xs;
    } else {
      var last := |ys| - 1;
      assert (xs + ys)[..|xs| + last] == xs + ys[..last];
      FilterOutConcat(xs, ys[..last], gone);
    }
  }

  lemma FilterOutNext<T>(xs: seq<T>, x: T, gone: set<T>)
    ensures FilterOut(xs + [x], gone) == FilterOut(xs, gone) + if x in gone then [] else [x]
  {
    assert (xs + [x])[..|xs|] == xs;
  }

  lemma {:induction false} FilterOutNothing<T>(xs: seq<T>, gone: set<T>)
    requires forall x :: x in xs ==> x !in gone
    ensures FilterOut(xs, gone) == xs
  {
    if xs != [] {
      FilterOutNothing(xs[..|xs| - 1], gone);
    }
  }

  /** Only what is met matters. */
  lemma {:induction false} FilterOutSame<T>(xs: seq<T>, gone: set<T>, gone': set<T>)
    requires forall x :: x in xs ==> (x in gone <==> x in gone')
    ensures FilterOut(xs, gone) == FilterOut(xs, gone')
  {
    if xs != [] {
      FilterOutSame(xs[..|xs| - 1], gone, gone');
    }
  }

  lemma {:induction false} FilterOutMembers<T>(xs: seq<T>, gone: set<T>)
    ensures forall x :: x in FilterOut(xs, gone) <==> x in xs && x !in gone
    ensures |FilterOut(xs, gone)| <= |xs|
  {
    if xs != [] {
      var init, x := xs[..|xs| - 1], xs[|xs| - 1];
      FilterOutMembers(init, gone);
      assert xs == init + [x];
    }
  }

  lemma {:induction false} FilterOutNoRepeats<T>(xs: seq<T>, gone: set<T>)
    requires NoRepeats(xs)
    ensures NoRepeats(FilterOut(xs, gone))
  {
    if xs != [] {
      var init, x := xs[..|xs| - 1], xs[|xs| - 1];
      FilterOutNoRepeats(init, gone);
      FilterOutMembers(init, gone);
      assert x !in init;
    }
  }

  /** Taking out one member that occurs exactly once shortens the list by one. */
  lemma {:induction false} FilterOutOne<T>(xs: seq<T>, x: T)
    requires NoRepeats(xs) && x in xs
    ensures |FilterOut(xs, {x})| == |xs| - 1
  {
    var init, last := xs[..|xs| - 1], xs[|xs| - 1];
    if last == x {
      FilterOutNothing(init, {x});
    } else {
      assert x in init;
      FilterOutOne(init, x);
    }
  }

  /** Taking out what was just appended. */
  lemma FilterOutAppended<T>(xs: seq<T>, x: T)
    requires x !in xs
    ensures FilterOut(xs + [x], {x}) == xs
  {
    FilterOutNothing(xs, {x});
    assert (xs + [x])[..|xs|] == xs;
  }

  /** On a list without repeats, taking out members of the front leaves the back alone. */
  lemma FilterFront<T>(list: seq<T>, k: nat, gone: set<T>)
    requires NoRepeats(list) && k <= |list| && forall x :: x in gone ==> x in list[..k]
    ensures FilterOut(list, gone) == FilterOut(list[..k], gone) + list[k..]
  {
    assert list == list[..k] + list[k..];
    FilterOutConcat(list[..k], list[k..], gone);
    forall x | x in list[k..] ensures x !in gone {
      var j :| 0 <= j < |list[k..]| && list[k..][j] == x;
      assert list[k + j] == x;
    }
    FilterOutNothing(list[k..], gone);
  }
}
