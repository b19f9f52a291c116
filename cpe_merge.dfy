/** The coarsened CPE table: the CPE rows with version, cpe23-item and title
    dropped, a short `cpe:` name added, identical rows grouped and counted,
    and the groups ordered by decreasing count. */
module CpeMerge {
  import opened Seqs
  import opened Text
  import CpeProcess

  /** The five columns kept from a CPE row. */
  datatype Coarse = Coarse(part: string, vendor: string, product: string, targetSw: string, targetHw: string)

  /** The grouping key: the five kept columns and the composed name. */
  datatype Key = Key(part: string, vendor: string, product: string, targetSw: string, targetHw: string, name: string)

  /** One output row: a key and the number of input rows that have it. */
  datatype Group = Group(key: Key, size: nat)

  /** Reading back the columns part, vendor, product, version, target_sw,
      target_hw, cpe23-item and title, then dropping version, cpe23-item and
      title. */
  function Drop(r: CpeProcess.CpeRow): Coarse
  {
    Coarse(r.part, r.vendor, r.product, r.targetSw, r.targetHw)
  }

  /** `'cpe:' + part + ':' + vendor + ':' + product + ':' + target_sw + ':' + target_hw`:
      the components `cpe`, part, vendor, product, target_sw and target_hw
      joined by colons. */
  function ShortName(c: Coarse): string
  {
    Join(["cpe", c.part, c.vendor, c.product, c.targetSw, c.targetHw], ':')
  }

  function KeyOf(c: Coarse): Key
  {
    Key(c.part, c.vendor, c.product, c.targetSw, c.targetHw, ShortName(c))
  }

  /** The strings `read_csv` reads as a missing value by default. */
  const NaValues: set<string> := {"", "#N/A", "#N/A N/A", "#NA", "-1.#IND", "-1.#QNAN", "-NaN", "-nan",
    "1.#IND", "1.#QNAN", "<NA>", "N/A", "NA", "NULL", "NaN", "n/a", "nan", "null"}

  /** A row none of whose kept columns is read back as missing. A missing
      column makes the composed name missing too, and `groupby` leaves rows
      with a missing key out of every group. */
  predicate Complete(r: CpeProcess.CpeRow)
  {
    r.part !in NaValues && r.vendor !in NaValues && r.product !in NaValues &&
    r.targetSw !in NaValues && r.targetHw !in NaValues
  }

  predicate KeyComplete(k: Key)
  {
    k.part !in NaValues && k.vendor !in NaValues && k.product !in NaValues &&
    k.targetSw !in NaValues && k.targetHw !in NaValues
  }

  /** The five kept columns of every complete row, in input order. */
  function Coarsened(rows: seq<CpeProcess.CpeRow>): seq<Coarse>
  {
    Map(Drop, Filter(Complete, rows))
  }

  /** The key of every complete row, in input order. */
  function Keys(rows: seq<CpeProcess.CpeRow>): seq<Key>
  {
    Map(KeyOf, Coarsened(rows))
  }

  /** One group per key of `ds`, sized by its number of occurrences in `keys`. */
  function GroupsOf(keys: seq<Key>, ds: seq<Key>): seq<Group>
  {
    if ds == [] then [] else GroupsOf(keys, ds[..|ds| - 1]) + [Group(ds[|ds| - 1], Count(keys, ds[|ds| - 1]))]
  }

  /** `groupby(all columns).size()`: one group per distinct key. The groups
      are listed by first occurrence where pandas lists them by key; the
      order only decides the order of equal sizes after the sort, which the
      source leaves unspecified. */
  function Grouped(rows: seq<CpeProcess.CpeRow>): seq<Group>
  {
    GroupsOf(Keys(rows), Dedup(Keys(rows)))
  }

  /** Inserts `g` before the first group of `s` that is not larger. */
  function Insert(g: Group, s: seq<Group>): seq<Group>
  {
    if s == [] || g.size >= s[0].size then [g] + s else [s[0]] + Insert(g, s[1..])
  }

  /** `sort_values(by='size', ascending=False)`. The order of equal sizes is
      not specified by the source; this one keeps the input order. */
  function SortBySize(gs: seq<Group>): seq<Group>
  {
    if gs == [] then [] else Insert(gs[0], SortBySize(gs[1..]))
  }

  /** The output table. */
  function Merge(rows: seq<CpeProcess.CpeRow>): seq<Group>
  {
    SortBySize(Grouped(rows))
  }

  function SumSizes(gs: seq<Group>): nat
  {
    if gs == [] then 0 else SumSizes(gs[..|gs| - 1]) + gs[|gs| - 1].size
  }

  predicate NonIncreasing(gs: seq<Group>)
  {
    forall i, j :: 0 <= i < j < |gs| ==> gs[i].size >= gs[j].size
  }

  predicate DistinctKeys(gs: seq<Group>)
  {
    forall i, j :: 0 <= i < j < |gs| ==> gs[i].key != gs[j].key
  }

  // ---------------------------------------------------------------------------
  // The key.

  /** Two rows fall into the same group exactly when they agree on the five
      kept columns, whatever their version, cpe23-item and title. */
  lemma SameKeyIffSameKeptColumns(r: CpeProcess.CpeRow, s: CpeProcess.CpeRow)
    ensures KeyOf(Drop(r)) == KeyOf(Drop(s)) <==>
      r.part == s.part && r.vendor == s.vendor && r.product == s.product &&
      r.targetSw == s.targetSw && r.targetHw == s.targetHw
  {
  }

  /** When no kept column holds a colon, the name determines the columns: it
      splits back into `cpe` and the five columns. */
  lemma ShortNameInjective(c: Coarse, d: Coarse)
    requires ':' !in c.part && ':' !in c.vendor && ':' !in c.product && ':' !in c.targetSw && ':' !in c.targetHw
    requires ':' !in d.part && ':' !in d.vendor && ':' !in d.product && ':' !in d.targetSw && ':' !in d.targetHw
    requires ShortName(c) == ShortName(d)
    ensures c == d
  {
    var xs := ["cpe", c.part, c.vendor, c.product, c.targetSw, c.targetHw];
    var ys := ["cpe", d.part, d.vendor, d.product, d.targetSw, d.targetHw];
    SplitJoin(xs, ':');
    SplitJoin(ys, ':');
    assert xs == ys;
  }

  /** The name is a function of the five kept columns, so adding it to the
      grouping key leaves the groups as they are: there are as many groups
      as distinct five-column tuples. */
  lemma NameAddsNoGroups(rows: seq<CpeProcess.CpeRow>)
    ensures Dedup(Keys(rows)) == Map(KeyOf, Dedup(Coarsened(rows)))
    ensures |Grouped(rows)| == |Dedup(Coarsened(rows))|
  {
    DedupMapInjective(KeyOf, Coarsened(rows));
    GroupsOfShape(Keys(rows), Dedup(Keys(rows)));
  }

  /** De-duplicating the images of an injective function is taking the images
      of the de-duplicated list. */
  lemma {:induction false} DedupMapInjective(f: Coarse -> Key, xs: seq<Coarse>)
    requires forall a, b :: f(a) == f(b) ==> a == b
    ensures Dedup(Map(f, xs)) == Map(f, Dedup(xs))
  {
    if xs != [] {
      var n := |xs| - 1;
      DedupMapInjective(f, xs[..n]);
      assert xs == xs[..n] + [xs[n]];
      MapAppend(f, xs[..n], xs[n]);
      DedupSnoc(Map(f, xs[..n]), f(xs[n]));
      DedupSnoc(xs[..n], xs[n]);
      var d := Dedup(xs[..n]);
      assert f(xs[n]) in Map(f, d) <==> xs[n] in d by {
        if f(xs[n]) in Map(f, d) {
          var i :| 0 <= i < |Map(f, d)| && Map(f, d)[i] == f(xs[n]);
          assert d[i] == xs[n];
        }
      }
      if xs[n] !in d {
        MapAppend(f, d, xs[n]);
      }
    }
  }

  // ---------------------------------------------------------------------------
  // The groups.

  lemma {:induction false} GroupsOfShape(keys: seq<Key>, ds: seq<Key>)
    ensures |GroupsOf(keys, ds)| == |ds|
    ensures forall i :: 0 <= i < |ds| ==> GroupsOf(keys, ds)[i] == Group(ds[i], Count(keys, ds[i]))
  {
    if ds != [] {
      var n := |ds| - 1;
      GroupsOfShape(keys, ds[..n]);
      var pre := GroupsOf(keys, ds[..n]);
      assert GroupsOf(keys, ds) == pre + [Group(ds[n], Count(keys, ds[n]))];
      forall i | 0 <= i < n
        ensures GroupsOf(keys, ds)[i] == Group(ds[i], Count(keys, ds[i]))
      {
        assert ds[..n][i] == ds[i];
      }
    }
  }

  lemma {:induction false} GroupsOfSum(keys: seq<Key>, ds: seq<Key>)
    ensures SumSizes(GroupsOf(keys, ds)) == SumCounts(keys, ds)
  {
    if ds != [] {
      var n := |ds| - 1;
      GroupsOfSum(keys, ds[..n]);
      var pre := GroupsOf(keys, ds[..n]);
      var gs := pre + [Group(ds[n], Count(keys, ds[n]))];
      assert gs[..|gs| - 1] == pre;
    }
  }

  lemma {:induction false} CountPositive<T>(xs: seq<T>, x: T)
    requires x in xs
    ensures Count(xs, x) >= 1
  {
    var n := |xs| - 1;
    if xs[n] != x {
      assert x in xs[..n] by {
        var i :| 0 <= i < |xs| && xs[i] == x;
        assert xs[..n][i] == x;
      }
      CountPositive(xs[..n], x);
    }
  }

  /** A complete row's key is listed. */
  lemma RowKeyListed(rows: seq<CpeProcess.CpeRow>, k: nat)
    requires k < |rows| && Complete(rows[k])
    ensures KeyOf(Drop(rows[k])) in Keys(rows)
  {
    MapFilterMembers(Drop, Complete, rows);
    var j :| 0 <= j < |Coarsened(rows)| && Coarsened(rows)[j] == Drop(rows[k]);
    assert Keys(rows)[j] == KeyOf(Drop(rows[k]));
  }

  /** Only complete rows' keys are listed. */
  lemma ListedKeysComplete(rows: seq<CpeProcess.CpeRow>)
    ensures forall j :: 0 <= j < |Keys(rows)| ==> KeyComplete(Keys(rows)[j])
  {
    FilterMembers(Complete, rows);
  }

  /** No key is grouped twice. */
  lemma GroupedDistinct(rows: seq<CpeProcess.CpeRow>)
    ensures DistinctKeys(Grouped(rows))
  {
    GroupsOfShape(Keys(rows), Dedup(Keys(rows)));
    DedupDistinctSameElements(Keys(rows));
  }

  /** Each group is sized by the number of rows with its key, at least one,
      and no key with a missing column is grouped. */
  lemma GroupedSizes(rows: seq<CpeProcess.CpeRow>)
    ensures forall i :: 0 <= i < |Grouped(rows)| ==>
      Grouped(rows)[i].key in Keys(rows) && KeyComplete(Grouped(rows)[i].key) &&
      Grouped(rows)[i].size == Count(Keys(rows), Grouped(rows)[i].key) >= 1
  {
    var keys := Keys(rows);
    var ds := Dedup(keys);
    GroupsOfShape(keys, ds);
    DedupDistinctSameElements(keys);
    ListedKeysComplete(rows);
    forall i | 0 <= i < |ds|
      ensures ds[i] in keys && KeyComplete(ds[i]) && Count(keys, ds[i]) >= 1
    {
      CountPositive(keys, ds[i]);
    }
  }

  /** Every complete row falls into a group. */
  lemma GroupedCovers(rows: seq<CpeProcess.CpeRow>)
    ensures forall k :: 0 <= k < |rows| && Complete(rows[k]) ==>
      exists i :: 0 <= i < |Grouped(rows)| && Grouped(rows)[i].key == KeyOf(Drop(rows[k]))
  {
    var keys := Keys(rows);
    var ds := Dedup(keys);
    GroupsOfShape(keys, ds);
    DedupDistinctSameElements(keys);
    forall k | 0 <= k < |rows| && Complete(rows[k])
      ensures exists i :: 0 <= i < |Grouped(rows)| && Grouped(rows)[i].key == KeyOf(Drop(rows[k]))
    {
      var key := KeyOf(Drop(rows[k]));
      RowKeyListed(rows, k);
      var j :| 0 <= j < |keys| && keys[j] == key;
      assert key in ds;
      var i :| 0 <= i < |ds| && ds[i] == key;
      assert Grouped(rows)[i].key == key;
    }
  }

  /** The sizes add up to the number of complete rows. */
  lemma GroupedSum(rows: seq<CpeProcess.CpeRow>)
    ensures SumSizes(Grouped(rows)) == |Filter(Complete, rows)|
  {
    GroupsOfSum(Keys(rows), Dedup(Keys(rows)));
    SumOfCounts(Keys(rows));
  }

  // ---------------------------------------------------------------------------
  // The sort.

  lemma {:induction false} InsertMembers(g: Group, s: seq<Group>)
    ensures multiset(Insert(g, s)) == multiset(s) + multiset{g}
    ensures |Insert(g, s)| == |s| + 1
    ensures forall x :: x in Insert(g, s) <==> x == g || x in s
    decreases |s|
  {
    if s != [] && g.size < s[0].size {
      InsertMembers(g, s[1..]);
      assert s == [s[0]] + s[1..];
    }
  }

  lemma {:induction false} InsertSorted(g: Group, s: seq<Group>)
    requires NonIncreasing(s)
    ensures NonIncreasing(Insert(g, s))
    decreases |s|
  {
    if s != [] && g.size < s[0].size {
      InsertSorted(g, s[1..]);
      InsertMembers(g, s[1..]);
      var t := Insert(g, s[1..]);
      forall j | 0 < j < |[s[0]] + t|
        ensures s[0].size >= ([s[0]] + t)[j].size
      {
        var x := t[j - 1];
        assert x in t;
        if x != g {
          var m :| 0 <= m < |s[1..]| && s[1..][m] == x;
          assert s[m + 1] == x;
        }
      }
    }
  }

  lemma {:induction false} SortBySizeProperties(gs: seq<Group>)
    ensures multiset(SortBySize(gs)) == multiset(gs)
    ensures |SortBySize(gs)| == |gs|
    ensures NonIncreasing(SortBySize(gs))
  {
    if gs != [] {
      SortBySizeProperties(gs[1..]);
      InsertMembers(gs[0], SortBySize(gs[1..]));
      InsertSorted(gs[0], SortBySize(gs[1..]));
      assert gs == [gs[0]] + gs[1..];
    }
  }

  lemma {:induction false} InsertDistinct(g: Group, s: seq<Group>)
    requires DistinctKeys(s)
    requires forall x :: x in s ==> x.key != g.key
    ensures DistinctKeys(Insert(g, s))
    decreases |s|
  {
    if s != [] && g.size < s[0].size {
      assert forall m :: 1 <= m < |s| ==> s[m] in s && s[m] == s[1..][m - 1];
      InsertDistinct(g, s[1..]);
      InsertMembers(g, s[1..]);
      var t := Insert(g, s[1..]);
      forall j | 0 < j < |[s[0]] + t|
        ensures s[0].key != ([s[0]] + t)[j].key
      {
        var x := t[j - 1];
        assert x in t;
        if x != g {
          var m :| 0 <= m < |s[1..]| && s[1..][m] == x;
          assert s[m + 1] == x;
        }
      }
    }
  }

  lemma {:induction false} SortKeepsDistinctKeys(gs: seq<Group>)
    requires DistinctKeys(gs)
    ensures DistinctKeys(SortBySize(gs))
  {
    if gs != [] {
      var rest := SortBySize(gs[1..]);
      SortKeepsDistinctKeys(gs[1..]);
      SortBySizeProperties(gs[1..]);
      forall x | x in rest
        ensures x.key != gs[0].key
      {
        assert x in multiset(gs[1..]);
        var m :| 0 <= m < |gs[1..]| && gs[1..][m] == x;
        assert gs[m + 1] == x;
      }
      InsertDistinct(gs[0], rest);
    }
  }

  lemma {:induction false} SumSizesCons(x: Group, t: seq<Group>)
    ensures SumSizes([x] + t) == x.size + SumSizes(t)
    decreases |t|
  {
    if t != [] {
      var n := |t| - 1;
      SumSizesCons(x, t[..n]);
      assert ([x] + t)[..|t|] == [x] + t[..n];
    }
  }

  lemma {:induction false} InsertSum(g: Group, s: seq<Group>)
    ensures SumSizes(Insert(g, s)) == g.size + SumSizes(s)
    decreases |s|
  {
    if s == [] || g.size >= s[0].size {
      SumSizesCons(g, s);
    } else {
      InsertSum(g, s[1..]);
      SumSizesCons(s[0], Insert(g, s[1..]));
      SumSizesCons(s[0], s[1..]);
      assert s == [s[0]] + s[1..];
    }
  }

  lemma {:induction false} SortSum(gs: seq<Group>)
    ensures SumSizes(SortBySize(gs)) == SumSizes(gs)
  {
    if gs != [] {
      SortSum(gs[1..]);
      InsertSum(gs[0], SortBySize(gs[1..]));
      SumSizesCons(gs[0], gs[1..]);
      assert gs == [gs[0]] + gs[1..];
    }
  }

  // ---------------------------------------------------------------------------
  // The output table.

  /** What the script promises of its output: sizes in decreasing order, no
      key twice, each row a key of a complete input row with the number of
      input rows that have it, and a row for every complete input row. */
  predicate IsMergeOf(rows: seq<CpeProcess.CpeRow>, out: seq<Group>)
  {
    NonIncreasing(out) && DistinctKeys(out) &&
    (forall i :: 0 <= i < |out| ==>
      out[i].key in Keys(rows) && KeyComplete(out[i].key) && out[i].size == Count(Keys(rows), out[i].key) >= 1) &&
    (forall k :: 0 <= k < |rows| && Complete(rows[k]) ==>
      exists i :: 0 <= i < |out| && out[i].key == KeyOf(Drop(rows[k])))
  }

  /** Every output row is a group of the groupby result. */
  lemma MergeRowsAreGroups(rows: seq<CpeProcess.CpeRow>)
    ensures forall i :: 0 <= i < |Merge(rows)| ==> Merge(rows)[i] in Grouped(rows)
  {
    var gs := Grouped(rows);
    var out := Merge(rows);
    SortBySizeProperties(gs);
    forall i | 0 <= i < |out|
      ensures out[i] in gs
    {
      assert out[i] in multiset(gs);
    }
  }

  /** Every group of the groupby result is an output row. */
  lemma GroupsAreMergeRows(rows: seq<CpeProcess.CpeRow>)
    ensures forall j :: 0 <= j < |Grouped(rows)| ==> Grouped(rows)[j] in Merge(rows)
  {
    var gs := Grouped(rows);
    var out := Merge(rows);
    SortBySizeProperties(gs);
    forall j | 0 <= j < |gs|
      ensures gs[j] in out
    {
      assert gs[j] in multiset(out);
    }
  }

  lemma MergeSizes(rows: seq<CpeProcess.CpeRow>)
    ensures forall i :: 0 <= i < |Merge(rows)| ==>
      Merge(rows)[i].key in Keys(rows) && KeyComplete(Merge(rows)[i].key) &&
      Merge(rows)[i].size == Count(Keys(rows), Merge(rows)[i].key) >= 1
  {
    var gs := Grouped(rows);
    var out := Merge(rows);
    MergeRowsAreGroups(rows);
    GroupedSizes(rows);
    forall i | 0 <= i < |out|
      ensures out[i].key in Keys(rows) && KeyComplete(out[i].key) && out[i].size == Count(Keys(rows), out[i].key) >= 1
    {
      var j :| 0 <= j < |gs| && gs[j] == out[i];
    }
  }

  lemma MergeCovers(rows: seq<CpeProcess.CpeRow>)
    ensures forall k :: 0 <= k < |rows| && Complete(rows[k]) ==>
      exists i :: 0 <= i < |Merge(rows)| && Merge(rows)[i].key == KeyOf(Drop(rows[k]))
  {
    var gs := Grouped(rows);
    var out := Merge(rows);
    GroupsAreMergeRows(rows);
    GroupedCovers(rows);
    forall k | 0 <= k < |rows| && Complete(rows[k])
      ensures exists i :: 0 <= i < |out| && out[i].key == KeyOf(Drop(rows[k]))
    {
      var j :| 0 <= j < |gs| && gs[j].key == KeyOf(Drop(rows[k]));
      var i :| 0 <= i < |out| && out[i] == gs[j];
    }
  }

  /** The table is the groupby result reordered, it meets the promise, and
      its sizes add up to the number of complete input rows. */
  lemma MergeIsMergeOf(rows: seq<CpeProcess.CpeRow>)
    ensures multiset(Merge(rows)) == multiset(Grouped(rows))
    ensures IsMergeOf(rows, Merge(rows))
    ensures SumSizes(Merge(rows)) == |Filter(Complete, rows)|
  {
    var gs := Grouped(rows);
    SortBySizeProperties(gs);
    GroupedDistinct(rows);
    SortKeepsDistinctKeys(gs);
    MergeSizes(rows);
    MergeCovers(rows);
    GroupedSum(rows);
    SortSum(gs);
  }
}
