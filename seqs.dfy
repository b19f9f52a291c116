/** Generic sequence operations the extraction scripts are built from: mapping,
    filtering, flattening nested loops, and the "append if not already present"
    de-duplication. Every operation is defined by recursion on the last element,
    so that a loop which appends one element per iteration keeps the invariant
    "accumulator == Op(prefix)". */
module Seqs {

  /** `[f(x) for x in xs]`. */
  function Map<T, U>(f: T -> U, xs: seq<T>): (r: seq<U>)
    ensures |r| == |xs|
    ensures forall i :: 0 <= i < |xs| ==> r[i] == f(xs[i])
  {
    if xs == [] then [] else Map(f, xs[..|xs| - 1]) + [f(xs[|xs| - 1])]
  }

  /** `[x for x in xs if p(x)]`. */
  function Filter<T>(p: T -> bool, xs: seq<T>): seq<T>
  {
    if xs == [] then []
    else
      var last := xs[|xs| - 1];
      Filter(p, xs[..|xs| - 1]) + (if p(last) then [last] else [])
  }

  /** `[y for x in xs for y in f(x)]`: the values a nested loop appends. */
  function FlatMap<T, U>(f: T -> seq<U>, xs: seq<T>): (r: seq<U>)
  {
    if xs == [] then [] else FlatMap(f, xs[..|xs| - 1]) + f(xs[|xs| - 1])
  }

  /** Every element of `xs` satisfies `p`. Stated by recursion, so that the
      verifier looks at one element only when asked to. */
  predicate All<T>(p: T -> bool, xs: seq<T>)
  {
    xs == [] || (All(p, xs[..|xs| - 1]) && p(xs[|xs| - 1]))
  }

  /** Number of elements of `xs` equal to `x`. */
  function Count<T(==)>(xs: seq<T>, x: T): nat
  {
    if xs == [] then 0 else Count(xs[..|xs| - 1], x) + (if xs[|xs| - 1] == x then 1 else 0)
  }

  ghost predicate NoDuplicates<T>(xs: seq<T>)
  {
    forall i, j :: 0 <= i < j < |xs| ==> xs[i] != xs[j]
  }

  /** The list a loop `if x not in acc: acc.append(x)` leaves in `acc` after
      visiting `xs` in order. */
  function AppendNew<T(==)>(acc: seq<T>, xs: seq<T>): seq<T>
  {
    if xs == [] then acc
    else
      var a := AppendNew(acc, xs[..|xs| - 1]);
      var last := xs[|xs| - 1];
      if last in a then a else a + [last]
  }

  /** The same loop started from an empty list. */
  function Dedup<T(==)>(xs: seq<T>): seq<T>
  {
    AppendNew([], xs)
  }

  /** Index of the first occurrence of `x` in `xs`. */
  function FirstIndex<T(==)>(xs: seq<T>, x: T): (k: nat)
    requires x in xs
    ensures k < |xs| && xs[k] == x
    ensures forall j :: 0 <= j < k ==> xs[j] != x
  {
    if xs[0] == x then 0 else 1 + FirstIndex(xs[1..], x)
  }

  // ---------------------------------------------------------------------------
  // One more loop iteration: the value on `xs[..k + 1]` from the value on `xs[..k]`.

  lemma MapSnoc<T, U>(f: T -> U, xs: seq<T>, k: nat)
    requires k < |xs|
    ensures Map(f, xs[..k + 1]) == Map(f, xs[..k]) + [f(xs[k])]
  {
    assert xs[..k + 1][..k] == xs[..k];
  }

  lemma MapAppend<T, U>(f: T -> U, xs: seq<T>, x: T)
    ensures Map(f, xs + [x]) == Map(f, xs) + [f(x)]
  {
    assert (xs + [x])[..|xs|] == xs;
  }

  lemma FilterSnoc<T>(p: T -> bool, xs: seq<T>, k: nat)
    requires k < |xs|
    ensures Filter(p, xs[..k + 1]) == Filter(p, xs[..k]) + (if p(xs[k]) then [xs[k]] else [])
  {
    assert xs[..k + 1][..k] == xs[..k];
  }

  /** One step of a loop that appends `f(x)` for each `x` passing `p`. */
  lemma FilterMapSnoc<T, U>(f: T -> U, p: T -> bool, xs: seq<T>, k: nat)
    requires k < |xs|
    ensures Map(f, Filter(p, xs[..k + 1])) ==
      Map(f, Filter(p, xs[..k])) + if p(xs[k]) then [f(xs[k])] else []
  {
    FilterSnoc(p, xs, k);
    if p(xs[k]) {
      MapAppend(f, Filter(p, xs[..k]), xs[k]);
    }
  }

  lemma FlatMapSnoc<T, U>(f: T -> seq<U>, xs: seq<T>, k: nat)
    requires k < |xs|
    ensures FlatMap(f, xs[..k + 1]) == FlatMap(f, xs[..k]) + f(xs[k])
  {
    assert xs[..k + 1][..k] == xs[..k];
  }

  lemma AppendNewSnoc<T>(acc: seq<T>, xs: seq<T>, x: T)
    ensures AppendNew(acc, xs + [x]) ==
      if x in AppendNew(acc, xs) then AppendNew(acc, xs) else AppendNew(acc, xs) + [x]
  {
    assert (xs + [x])[..|xs|] == xs;
  }

  lemma DedupSnoc<T>(xs: seq<T>, x: T)
    ensures Dedup(xs + [x]) == if x in Dedup(xs) then Dedup(xs) else Dedup(xs) + [x]
  {
    AppendNewSnoc([], xs, x);
  }

  /** Running the loop over `xs + ys` is running it over `xs`, then over `ys`
      starting from what the first part left. */
  lemma {:induction false} AppendNewConcat<T>(acc: seq<T>, xs: seq<T>, ys: seq<T>)
    ensures AppendNew(acc, xs + ys) == AppendNew(AppendNew(acc, xs), ys)
    decreases |ys|
  {
    if ys == [] {
      assert xs + ys == xs;
    } else {
      var n := |ys| - 1;
      AppendNewConcat(acc, xs, ys[..n]);
      assert xs + ys == (xs + ys[..n]) + [ys[n]];
      assert ys == ys[..n] + [ys[n]];
      AppendNewSnoc(acc, xs + ys[..n], ys[n]);
      AppendNewSnoc(AppendNew(acc, xs), ys[..n], ys[n]);
    }
  }

  lemma CountSnoc<T>(xs: seq<T>, x: T, y: T)
    ensures Count(xs + [x], y) == Count(xs, y) + (if x == y then 1 else 0)
  {
    assert (xs + [x])[..|xs|] == xs;
  }

  // ---------------------------------------------------------------------------
  // Properties.

  lemma {:induction false} AllAt<T>(p: T -> bool, xs: seq<T>, k: nat)
    requires All(p, xs) && k < |xs|
    ensures p(xs[k])
    decreases |xs|
  {
    if k < |xs| - 1 {
      AllAt(p, xs[..|xs| - 1], k);
    }
  }

  /** `All` is the universal statement over the indices. */
  lemma {:induction false} AllIndices<T>(p: T -> bool, xs: seq<T>)
    ensures All(p, xs) <==> forall k :: 0 <= k < |xs| ==> p(xs[k])
    decreases |xs|
  {
    if xs != [] {
      var n := |xs| - 1;
      AllIndices(p, xs[..n]);
      assert forall k :: 0 <= k < n ==> xs[..n][k] == xs[k];
    }
  }

  /** A value is produced by a flattening loop exactly when some visited
      element yields it. */
  lemma {:induction false} FlatMapMembership<T, U>(f: T -> seq<U>, xs: seq<T>, y: U)
    ensures y in FlatMap(f, xs) <==> exists i :: 0 <= i < |xs| && y in f(xs[i])
  {
    if xs != [] {
      var n := |xs| - 1;
      FlatMapMembership(f, xs[..n], y);
      if y in FlatMap(f, xs) && y !in f(xs[n]) {
        var i :| 0 <= i < n && y in f(xs[..n][i]);
        assert y in f(xs[i]);
      }
      if exists i :: 0 <= i < |xs| && y in f(xs[i]) {
        var i :| 0 <= i < |xs| && y in f(xs[i]);
        if i < n {
          assert y in f(xs[..n][i]);
        }
      }
    }
  }

  /** The same, down to the position inside the visited element's values. */
  lemma FlatMapPositions<T, U>(f: T -> seq<U>, xs: seq<T>, y: U)
    ensures y in FlatMap(f, xs) <==> exists a, b :: 0 <= a < |xs| && 0 <= b < |f(xs[a])| && f(xs[a])[b] == y
  {
    FlatMapMembership(f, xs, y);
    if y in FlatMap(f, xs) {
      var a :| 0 <= a < |xs| && y in f(xs[a]);
      var b :| 0 <= b < |f(xs[a])| && f(xs[a])[b] == y;
    }
  }

  lemma {:induction false} FlatMapConcat<T, U>(f: T -> seq<U>, xs: seq<T>, ys: seq<T>)
    ensures FlatMap(f, xs + ys) == FlatMap(f, xs) + FlatMap(f, ys)
    decreases |ys|
  {
    if ys == [] {
      assert xs + ys == xs;
    } else {
      var n := |ys| - 1;
      FlatMapConcat(f, xs, ys[..n]);
      assert (xs + ys)[..|xs + ys| - 1] == xs + ys[..n];
    }
  }

  /** Filtering keeps exactly the elements that pass the test. */
  lemma {:induction false} FilterMembers<T>(p: T -> bool, xs: seq<T>)
    ensures |Filter(p, xs)| <= |xs|
    ensures forall i :: 0 <= i < |Filter(p, xs)| ==> Filter(p, xs)[i] in xs && p(Filter(p, xs)[i])
    ensures forall i :: 0 <= i < |xs| && p(xs[i]) ==> xs[i] in Filter(p, xs)
  {
    if xs != [] {
      var n := |xs| - 1;
      FilterMembers(p, xs[..n]);
      assert xs == xs[..n] + [xs[n]];
    }
  }

  /** Every element that passes the test has its image in the mapped result. */
  lemma MapFilterMembers<T, U>(f: T -> U, p: T -> bool, xs: seq<T>)
    ensures forall k :: 0 <= k < |xs| && p(xs[k]) ==> f(xs[k]) in Map(f, Filter(p, xs))
  {
    FilterMembers(p, xs);
    forall k | 0 <= k < |xs| && p(xs[k])
      ensures f(xs[k]) in Map(f, Filter(p, xs))
    {
      var i :| 0 <= i < |Filter(p, xs)| && Filter(p, xs)[i] == xs[k];
      assert Map(f, Filter(p, xs))[i] == f(xs[k]);
    }
  }

  /** The de-duplicated list has no repeated element and holds exactly the
      elements of the input. */
  lemma {:induction false} DedupDistinctSameElements<T>(xs: seq<T>)
    ensures NoDuplicates(Dedup(xs))
    ensures forall i :: 0 <= i < |Dedup(xs)| ==> Dedup(xs)[i] in xs
    ensures forall i :: 0 <= i < |xs| ==> xs[i] in Dedup(xs)
  {
    if xs != [] {
      var n := |xs| - 1;
      DedupDistinctSameElements(xs[..n]);
      assert xs == xs[..n] + [xs[n]];
      DedupSnoc(xs[..n], xs[n]);
    }
  }

  /** The de-duplicated list keeps the order of first occurrences: an earlier
      entry was first seen earlier in the input. */
  lemma {:induction false} DedupKeepsFirstOccurrenceOrder<T>(xs: seq<T>)
    ensures forall i, j :: 0 <= i < j < |Dedup(xs)| ==>
      Dedup(xs)[i] in xs && Dedup(xs)[j] in xs &&
      FirstIndex(xs, Dedup(xs)[i]) < FirstIndex(xs, Dedup(xs)[j])
  {
    if xs != [] {
      var n := |xs| - 1;
      var pre, last := xs[..n], xs[n];
      assert xs == pre + [last];
      DedupKeepsFirstOccurrenceOrder(pre);
      DedupDistinctSameElements(pre);
      var d := Dedup(pre);
      DedupSnoc(pre, last);
      forall i, j | 0 <= i < j < |Dedup(xs)|
        ensures Dedup(xs)[i] in xs && Dedup(xs)[j] in xs &&
          FirstIndex(xs, Dedup(xs)[i]) < FirstIndex(xs, Dedup(xs)[j])
      {
        assert Dedup(xs)[i] == d[i] && d[i] in d;
        assert d[i] in pre;
        FirstIndexExtend(pre, last, d[i]);
        if j < |d| {
          assert Dedup(xs)[j] == d[j] && d[j] in d;
          assert d[j] in pre;
          FirstIndexExtend(pre, last, d[j]);
        } else {
          assert Dedup(xs) == d + [last] && last !in pre;
          assert Dedup(xs)[j] == last;
          assert FirstIndex(xs, last) == n;
        }
      }
    } else {
      assert Dedup(xs) == [];
    }
  }

  lemma FirstIndexExtend<T>(xs: seq<T>, y: T, x: T)
    requires x in xs
    ensures FirstIndex(xs + [y], x) == FirstIndex(xs, x)
  {
    var a, b := FirstIndex(xs + [y], x), FirstIndex(xs, x);
    assert (xs + [y])[b] == x;
  }

  /** Summing, over the distinct values of `xs`, how often each occurs gives
      `|xs|`: grouping and counting neither loses nor invents elements. */
  lemma {:induction false} SumOfCounts<T>(xs: seq<T>)
    ensures SumCounts(xs, Dedup(xs)) == |xs|
  {
    if xs != [] {
      var n := |xs| - 1;
      var pre, last := xs[..n], xs[n];
      assert xs == pre + [last];
      SumOfCounts(pre);
      DedupDistinctSameElements(pre);
      var d := Dedup(pre);
      SumCountsSnoc(pre, last, d);
      if last in d {
        assert Dedup(xs) == d;
      } else {
        assert Dedup(xs) == d + [last];
        SumCountsAppend(xs, d, last);
        assert Count(xs, last) == Count(pre, last) + 1;
        CountAbsent(pre, last);
      }
    }
  }

  /** `sum(Count(xs, k) for k in keys)`. */
  function SumCounts<T(==)>(xs: seq<T>, keys: seq<T>): nat
  {
    if keys == [] then 0 else SumCounts(xs, keys[..|keys| - 1]) + Count(xs, keys[|keys| - 1])
  }

  lemma {:induction false} SumCountsAppend<T>(xs: seq<T>, keys: seq<T>, k: T)
    ensures SumCounts(xs, keys + [k]) == SumCounts(xs, keys) + Count(xs, k)
  {
    assert (keys + [k])[..|keys|] == keys;
  }

  /** Adding one element to `xs` adds one to the sum exactly when the element
      is among the (distinct) keys. */
  lemma {:induction false} SumCountsSnoc<T>(xs: seq<T>, x: T, keys: seq<T>)
    requires NoDuplicates(keys)
    ensures SumCounts(xs + [x], keys) == SumCounts(xs, keys) + (if x in keys then 1 else 0)
  {
    if keys != [] {
      var m := |keys| - 1;
      var pre := keys[..m];
      assert keys == pre + [keys[m]];
      SumCountsSnoc(xs, x, pre);
      CountSnoc(xs, x, keys[m]);
      assert x in keys <==> x in pre || x == keys[m];
      assert keys[m] !in pre;
    }
  }

  lemma {:induction false} CountAbsent<T>(xs: seq<T>, x: T)
    requires x !in xs
    ensures Count(xs, x) == 0
  {
    if xs != [] {
      var n := |xs| - 1;
      assert x !in xs[..n];
      CountAbsent(xs[..n], x);
    }
  }
}
