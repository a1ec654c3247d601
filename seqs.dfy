/** Sequence helpers behind the iterator adaptors the solutions use:
    `filter` (`Filter`, with the indices it keeps, `Hits`) and `sum` / `fold`
    over a mapped sequence (`SumOf`). */
module Seqs {

  predicate Distinct<T(==)>(xs: seq<T>) {
    forall i, j :: 0 <= i < j < |xs| ==> xs[i] != xs[j]
  }

  /** `xs` is `ys` with some elements left out, the rest kept in order. */
  predicate SubsequenceOf<T(==)>(xs: seq<T>, ys: seq<T>)
    decreases |ys|
  {
    |xs| == 0 ||
    (|ys| > 0 && if xs[0] == ys[0] then SubsequenceOf(xs[1..], ys[1..]) else SubsequenceOf(xs, ys[1..]))
  }

  /** `iter().filter(keep)`: the elements of `xs` that satisfy `keep`, in order. */
  function Filter<T(==,!new)>(xs: seq<T>, keep: T -> bool): (r: seq<T>)
    ensures forall x :: multiset(r)[x] == if keep(x) then multiset(xs)[x] else 0
    ensures SubsequenceOf(r, xs)
    ensures Distinct(xs) ==> Distinct(r)
    decreases |xs|
  {
    if |xs| == 0 then []
    else
      assert xs == [xs[0]] + xs[1..];
      var rest := Filter(xs[1..], keep);
      if keep(xs[0]) then
        assert ([xs[0]] + rest)[1..] == rest;
        assert Distinct(xs) ==> xs[0] !in xs[1..];
        [xs[0]] + rest
      else
        assert |rest| > 0 ==> rest[0] in rest && keep(rest[0]) && rest[0] != xs[0];
        rest
  }

  /** Every element `Filter` keeps satisfies `keep`. */
  lemma FilterKeeps<T(!new)>(xs: seq<T>, keep: T -> bool)
    ensures forall k :: 0 <= k < |Filter(xs, keep)| ==> keep(Filter(xs, keep)[k])
  {
    var r := Filter(xs, keep);
    forall k | 0 <= k < |r| ensures keep(r[k]) {
      assert multiset(r)[r[k]] > 0;
    }
  }

  /** The indices `k >= from` of the elements of `xs` that satisfy `keep`, increasing. */
  function Hits<T>(xs: seq<T>, keep: T -> bool, from: nat): (r: seq<nat>)
    requires from <= |xs|
    ensures forall n :: 0 <= n < |r| ==> from <= r[n] < |xs| && keep(xs[r[n]])
    ensures forall n, m :: 0 <= n < m < |r| ==> r[n] < r[m]
    decreases |xs| - from
  {
    if from == |xs| then []
    else
      var rest := Hits(xs, keep, from + 1);
      if keep(xs[from]) then [from] + rest else rest
  }

  /** `Hits` misses no element that satisfies `keep`. */
  lemma {:induction false} HitsComplete<T>(xs: seq<T>, keep: T -> bool, from: nat, k: nat)
    requires from <= k < |xs| && keep(xs[k])
    ensures k in Hits(xs, keep, from)
    decreases |xs| - from
  {
    if from < k {
      HitsComplete(xs, keep, from + 1, k);
    }
  }

  lemma HitsNonEmpty<T>(xs: seq<T>, keep: T -> bool)
    ensures |Hits(xs, keep, 0)| > 0 <==> exists k :: 0 <= k < |xs| && keep(xs[k])
  {
    if exists k :: 0 <= k < |xs| && keep(xs[k]) {
      var k :| 0 <= k < |xs| && keep(xs[k]);
      HitsComplete(xs, keep, 0, k);
    }
    var hits := Hits(xs, keep, 0);
    if |hits| > 0 {
      assert keep(xs[hits[0]]);
    }
  }

  /** The first index `Hits` lists is the first element that satisfies `keep`. */
  lemma HitsFirst<T>(xs: seq<T>, keep: T -> bool, i: nat)
    requires i < |xs| && keep(xs[i])
    requires forall k :: 0 <= k < i ==> !keep(xs[k])
    ensures |Hits(xs, keep, 0)| > 0 && Hits(xs, keep, 0)[0] == i
  {
    var hits := Hits(xs, keep, 0);
    HitsComplete(xs, keep, 0, i);
    assert keep(xs[hits[0]]);
  }

  /** The last index `Hits` lists is the last element that satisfies `keep`. */
  lemma HitsLast<T>(xs: seq<T>, keep: T -> bool, j: nat)
    requires j < |xs| && keep(xs[j])
    requires forall k :: j < k < |xs| ==> !keep(xs[k])
    ensures |Hits(xs, keep, 0)| > 0 && Hits(xs, keep, 0)[|Hits(xs, keep, 0)| - 1] == j
  {
    var hits := Hits(xs, keep, 0);
    HitsComplete(xs, keep, 0, j);
    assert keep(xs[hits[|hits| - 1]]);
  }

  /** `Filter` keeps exactly the elements at the indices `Hits` lists. */
  lemma {:induction false} FilterHits<T(!new)>(xs: seq<T>, keep: T -> bool, from: nat)
    requires from <= |xs|
    ensures |Filter(xs[from..], keep)| == |Hits(xs, keep, from)|
    ensures forall n :: 0 <= n < |Hits(xs, keep, from)| ==> Filter(xs[from..], keep)[n] == xs[Hits(xs, keep, from)[n]]
    decreases |xs| - from
  {
    if from < |xs| {
      FilterHits(xs, keep, from + 1);
      assert xs[from..][1..] == xs[from + 1..];
    }
  }

  /** Exactly the elements at `i < j` satisfy `keep`. */
  predicate OnlyHits<T>(xs: seq<T>, keep: T -> bool, i: nat, j: nat) {
    && i < j < |xs| && keep(xs[i]) && keep(xs[j])
    && forall k :: 0 <= k < |xs| && keep(xs[k]) ==> k == i || k == j
  }

  lemma HitsOfTwo<T>(xs: seq<T>, keep: T -> bool)
    ensures |Hits(xs, keep, 0)| == 2 ==> OnlyHits(xs, keep, Hits(xs, keep, 0)[0], Hits(xs, keep, 0)[1])
    ensures forall i: nat, j: nat :: OnlyHits(xs, keep, i, j) ==> Hits(xs, keep, 0) == [i, j]
  {
    var hits := Hits(xs, keep, 0);
    if |hits| == 2 {
      forall k | 0 <= k < |xs| && keep(xs[k]) ensures k == hits[0] || k == hits[1] {
        HitsComplete(xs, keep, 0, k);
      }
    }
    forall i: nat, j: nat | OnlyHits(xs, keep, i, j) ensures hits == [i, j] {
      HitsComplete(xs, keep, 0, i);
      HitsComplete(xs, keep, 0, j);
      assert forall n :: 0 <= n < |hits| ==> hits[n] == i || hits[n] == j;
      assert hits[0] == i;
      assert hits[1] == j;
      assert hits[|hits| - 1] == j;
    }
  }

  /** `iter().map(f).sum()`. */
  function SumOf<T>(xs: seq<T>, f: T -> nat): nat
    decreases |xs|
  {
    if |xs| == 0 then 0 else f(xs[0]) + SumOf(xs[1..], f)
  }

  /** The identity on naturals: `SumOf(xs, Identity)` is `iter().sum()`. */
  function Identity(x: nat): nat {
    x
  }

  lemma {:induction false} SumOfAppend<T>(xs: seq<T>, ys: seq<T>, f: T -> nat)
    ensures SumOf(xs + ys, f) == SumOf(xs, f) + SumOf(ys, f)
    decreases |xs|
  {
    if |xs| > 0 {
      var zs := xs + ys;
      assert zs[0] == xs[0];
      assert zs[1..] == xs[1..] + ys;
      SumOfAppend(xs[1..], ys, f);
      assert SumOf(zs, f) == f(xs[0]) + SumOf(zs[1..], f);
    } else {
      assert xs + ys == ys;
    }
  }

  lemma {:induction false} SumOfPointwise<T>(xs: seq<T>, f: T -> nat, g: T -> nat)
    requires forall x :: x in xs ==> f(x) == g(x)
    ensures SumOf(xs, f) == SumOf(xs, g)
    decreases |xs|
  {
    if |xs| > 0 {
      SumOfPointwise(xs[1..], f, g);
    }
  }

  /** Summing terms that are each no larger gives no larger a sum. */
  lemma {:induction false} SumOfBelow<T>(xs: seq<T>, ys: seq<T>, f: T -> nat)
    requires |xs| == |ys|
    requires forall k :: 0 <= k < |xs| ==> f(xs[k]) <= f(ys[k])
    ensures SumOf(xs, f) <= SumOf(ys, f)
    decreases |xs|
  {
    if |xs| > 0 {
      SumOfBelow(xs[1..], ys[1..], f);
    }
  }

  /** `f`, with 0 for the elements `keep` rejects. */
  function Masked<T>(keep: T -> bool, f: T -> nat): T -> nat {
    x => if keep(x) then f(x) else 0
  }

  /** Summing the kept elements is summing every element, with 0 for those dropped. */
  lemma {:induction false} SumOfFilter<T(!new)>(xs: seq<T>, keep: T -> bool, f: T -> nat)
    ensures SumOf(Filter(xs, keep), f) == SumOf(xs, Masked(keep, f))
    decreases |xs|
  {
    if |xs| > 0 {
      SumOfFilter(xs[1..], keep, f);
      var rest := Filter(xs[1..], keep);
      if keep(xs[0]) {
        assert Filter(xs, keep) == [xs[0]] + rest;
        assert ([xs[0]] + rest)[1..] == rest;
      } else {
        assert Filter(xs, keep) == rest;
      }
    }
  }

  lemma SumOfRemove<T>(ys: seq<T>, i: nat, f: T -> nat)
    requires i < |ys|
    ensures SumOf(ys, f) == f(ys[i]) + SumOf(ys[..i] + ys[i + 1..], f)
  {
    SumOfAppend(ys[..i], [ys[i]] + ys[i + 1..], f);
    SumOfAppend(ys[..i], ys[i + 1..], f);
    assert ([ys[i]] + ys[i + 1..])[1..] == ys[i + 1..];
    assert ys[..i] + ([ys[i]] + ys[i + 1..]) == ys;
  }

  lemma MultisetRemove<T>(xs: seq<T>, ys: seq<T>, i: nat)
    requires multiset(xs) == multiset(ys) && |xs| > 0 && i < |ys| && ys[i] == xs[0]
    ensures multiset(xs[1..]) == multiset(ys[..i] + ys[i + 1..])
  {
    assert ys == ys[..i] + [ys[i]] + ys[i + 1..];
    assert xs == [xs[0]] + xs[1..];
    assert multiset(xs[1..]) == multiset(xs) - multiset{xs[0]};
    assert multiset(ys[..i] + ys[i + 1..]) == multiset(ys) - multiset{ys[i]};
  }

  /** No term exceeds the sum. */
  lemma SumOfTerm<T>(xs: seq<T>, k: nat, f: T -> nat)
    requires k < |xs|
    ensures f(xs[k]) <= SumOf(xs, f)
  {
    SumOfRemove(xs, k, f);
  }

  /** A sum does not depend on the order of its terms. */
  lemma {:induction false} SumOfPermutation<T>(xs: seq<T>, ys: seq<T>, f: T -> nat)
    requires multiset(xs) == multiset(ys)
    ensures SumOf(xs, f) == SumOf(ys, f)
    decreases |xs|
  {
    if |xs| > 0 {
      assert xs[0] in multiset(ys);
      var i :| 0 <= i < |ys| && ys[i] == xs[0];
      MultisetRemove(xs, ys, i);
      SumOfPermutation(xs[1..], ys[..i] + ys[i + 1..], f);
      SumOfRemove(ys, i, f);
    } else {
      assert ys == [];
    }
  }
}
