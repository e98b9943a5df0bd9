/** The sampling helpers of utils/get_strata.py: the best parlay per size and matchday,
    the outlier filter, grouping by parlay size and assignment of values to bins. */
module Strata {
  import opened Wrappers
  import opened Loader
  import opened Enumerator
  import SingleEv
  import ParlayEv
  import Executor

  /** One `{'parlay_size': s, key: value}` record. */
  datatype Metric = Metric(parlaySize: int, value: real)

  /** The values of a list of records, in order. */
  function MetricValues(data: seq<Metric>): (vs: seq<real>)
    ensures |vs| == |data| && forall i :: 0 <= i < |data| ==> vs[i] == data[i].value
  {
    seq(|data|, i requires 0 <= i < |data| => data[i].value)
  }

  /** Python's `min` over a non-empty list of numbers. */
  function Min(xs: seq<real>): (m: real)
    requires |xs| > 0
    ensures m in xs && forall i :: 0 <= i < |xs| ==> m <= xs[i]
  {
    if |xs| == 1 then xs[0]
    else
      var m := Min(xs[..|xs| - 1]);
      assert forall i :: 0 <= i < |xs| - 1 ==> xs[..|xs| - 1][i] == xs[i];
      if xs[|xs| - 1] < m then xs[|xs| - 1] else m
  }

  /** Python's `max` over a non-empty list of numbers. */
  function Max(xs: seq<real>): (m: real)
    requires |xs| > 0
    ensures m in xs && forall i :: 0 <= i < |xs| ==> xs[i] <= m
  {
    if |xs| == 1 then xs[0]
    else
      var m := Max(xs[..|xs| - 1]);
      assert forall i :: 0 <= i < |xs| - 1 ==> xs[..|xs| - 1][i] == xs[i];
      if xs[|xs| - 1] > m then xs[|xs| - 1] else m
  }

  /** `np.mean`. */
  function Mean(xs: seq<real>): real
    requires |xs| > 0
  {
    Executor.Sum(xs) / (|xs| as real)
  }

  /** The records whose value passes `keep`, in their original order. */
  function Retain(data: seq<Metric>, keep: real -> bool): (r: seq<Metric>)
    ensures |r| <= |data|
    ensures forall e :: e in r <==> e in data && keep(e.value)
  {
    if data == [] then []
    else Retain(data[..|data| - 1], keep) + (if keep(data[|data| - 1].value) then [data[|data| - 1]] else [])
  }

  /** `a` is `b` with some elements left out, the rest in order. */
  predicate Subsequence(a: seq<Metric>, b: seq<Metric>)
    decreases |b|
  {
    if a == [] then true
    else if b == [] then false
    else if a[|a| - 1] == b[|b| - 1] then Subsequence(a[..|a| - 1], b[..|b| - 1])
    else Subsequence(a, b[..|b| - 1])
  }

  lemma {:induction false} RetainSubsequence(data: seq<Metric>, keep: real -> bool)
    ensures Subsequence(Retain(data, keep), data)
  {
    if data != [] {
      var init := data[..|data| - 1];
      RetainSubsequence(init, keep);
      var r := Retain(data, keep);
      if keep(data[|data| - 1].value) {
        assert r[..|r| - 1] == Retain(init, keep);
      } else {
        assert r == Retain(init, keep);
        SubsequenceExtend(r, init, data[|data| - 1]);
      }
    }
  }

  /** A subsequence stays one when the longer list grows. */
  lemma {:induction false} SubsequenceExtend(a: seq<Metric>, b: seq<Metric>, x: Metric)
    requires Subsequence(a, b)
    ensures Subsequence(a, b + [x])
    decreases |b|, 1
  {
    var b' := b + [x];
    assert b'[..|b'| - 1] == b;
    if a != [] && a[|a| - 1] == x {
      SubsequenceDrop(a, b);
    }
  }

  /** A list with its last element removed is still a subsequence. */
  lemma {:induction false} SubsequenceDrop(a: seq<Metric>, b: seq<Metric>)
    requires a != [] && Subsequence(a, b)
    ensures Subsequence(a[..|a| - 1], b)
    decreases |b|, 0
  {
    var a' := a[..|a| - 1];
    if a' != [] {
      var b' := b[..|b| - 1];
      assert b' + [b[|b| - 1]] == b;
      if a[|a| - 1] != b[|b| - 1] {
        SubsequenceDrop(a, b');
      }
      SubsequenceExtend(a', b', b[|b| - 1]);
    }
  }

  /** `filter_data_with_discrepancy(data, key, threshold)`. The range of the values is
      measured against their mean (0 when the mean is 0); when it exceeds the threshold,
      the records at the minimum are dropped for the key 'probability' and those at the
      maximum for any other key. `min` of an empty list raises ValueError. */
  function FilterDataWithDiscrepancy(data: seq<Metric>, key: string, threshold: real): (r: Result<seq<Metric>>)
    ensures r.Failure? <==> data == []
  {
    if data == [] then Failure(ValueError("min() arg is an empty sequence"))
    else
      var vs := MetricValues(data);
      var lo, hi, mean := Min(vs), Max(vs), Mean(vs);
      var normalizedRange := if mean != 0.0 then (hi - lo) / mean else 0.0;
      if normalizedRange <= threshold then Success(data)
      else if key == "probability" then Success(Retain(data, v => lo < v <= hi))
      else Success(Retain(data, v => lo <= v < hi))
  }

  /** The normalized range that decides whether the filter applies. */
  function NormalizedRange(data: seq<Metric>): real
    requires |data| > 0
  {
    var vs := MetricValues(data);
    var mean := Mean(vs);
    if mean != 0.0 then (Max(vs) - Min(vs)) / mean else 0.0
  }

  /** Within the threshold the data is returned as it is. Beyond it, exactly the records
      at the minimum (key 'probability') or at the maximum (other keys) are dropped, and
      what remains is in its original order. */
  lemma FilterProperties(data: seq<Metric>, key: string, threshold: real)
    requires data != []
    ensures var r := FilterDataWithDiscrepancy(data, key, threshold).value;
      Subsequence(r, data) &&
      (NormalizedRange(data) <= threshold ==> r == data) &&
      (NormalizedRange(data) > threshold && key == "probability" ==>
         forall e :: e in r <==> e in data && e.value != Min(MetricValues(data))) &&
      (NormalizedRange(data) > threshold && key != "probability" ==>
         forall e :: e in r <==> e in data && e.value != Max(MetricValues(data)))
  {
    var vs := MetricValues(data);
    var lo, hi := Min(vs), Max(vs);
    assert forall e :: e in data ==> lo <= e.value <= hi;
    var r := FilterDataWithDiscrepancy(data, key, threshold).value;
    if NormalizedRange(data) <= threshold {
      SubsequenceReflexive(data);
    } else if key == "probability" {
      RetainSubsequence(data, v => lo < v <= hi);
    } else {
      RetainSubsequence(data, v => lo <= v < hi);
    }
  }

  lemma {:induction false} SubsequenceReflexive(a: seq<Metric>)
    ensures Subsequence(a, a)
  {
    if a != [] {
      SubsequenceReflexive(a[..|a| - 1]);
    }
  }

  // ---- grouping by parlay size (get_strata.py:52-54) ----

  /** The parlay sizes of the records in order of first appearance: the key order of
      the `defaultdict` that groups them. */
  function Sizes(data: seq<Metric>): (sizes: seq<int>)
    ensures forall s :: s in sizes <==> exists e :: e in data && e.parlaySize == s
  {
    if data == [] then []
    else
      var init := Sizes(data[..|data| - 1]);
      var last := data[|data| - 1];
      assert forall e :: e in data <==> e in data[..|data| - 1] || e == last;
      if last.parlaySize in init then init else init + [last.parlaySize]
  }

  /** The records of one parlay size, in their original order. */
  function Group(data: seq<Metric>, size: int): (g: seq<Metric>)
    ensures forall e :: e in g <==> e in data && e.parlaySize == size
  {
    if data == [] then []
    else
      var last := data[|data| - 1];
      assert forall e :: e in data <==> e in data[..|data| - 1] || e == last;
      Group(data[..|data| - 1], size) + (if last.parlaySize == size then [last] else [])
  }

  /** Every size is listed once. */
  lemma {:induction false} SizesDistinct(data: seq<Metric>)
    ensures forall i, j :: 0 <= i < j < |Sizes(data)| ==> Sizes(data)[i] != Sizes(data)[j]
  {
    if data != [] {
      SizesDistinct(data[..|data| - 1]);
    }
  }

  /** Every occurrence of size `b` comes after some occurrence of size `a`. */
  predicate ComesFirst(data: seq<Metric>, a: int, b: int)
  {
    forall k :: 0 <= k < |data| && data[k].parlaySize == b ==>
      exists l :: 0 <= l < k && data[l].parlaySize == a
  }

  /** The sizes are listed in order of first appearance, as the keys of the
      `defaultdict` are: a size listed earlier occurs before any record of one listed
      later. */
  lemma {:induction false} SizesFirstOccurrence(data: seq<Metric>)
    ensures forall i, j :: 0 <= i < j < |Sizes(data)| ==> ComesFirst(data, Sizes(data)[i], Sizes(data)[j])
  {
    if data != [] {
      var init := data[..|data| - 1];
      SizesFirstOccurrence(init);
      forall i, j | 0 <= i < j < |Sizes(data)|
        ensures ComesFirst(data, Sizes(data)[i], Sizes(data)[j])
      {
        forall k | 0 <= k < |data| && data[k].parlaySize == Sizes(data)[j]
          ensures exists l :: 0 <= l < k && data[l].parlaySize == Sizes(data)[i]
        {
          FirstOccurrenceStep(data, i, j, k);
        }
      }
    }
  }

  lemma FirstOccurrenceStep(data: seq<Metric>, i: nat, j: nat, k: nat)
    requires data != []
    requires var init := data[..|data| - 1];
      forall i, j :: 0 <= i < j < |Sizes(init)| ==> ComesFirst(init, Sizes(init)[i], Sizes(init)[j])
    requires i < j < |Sizes(data)| && k < |data| && data[k].parlaySize == Sizes(data)[j]
    ensures exists l :: 0 <= l < k && data[l].parlaySize == Sizes(data)[i]
  {
    var init := data[..|data| - 1];
    var last := data[|data| - 1];
    var si, s := Sizes(init), Sizes(data);
    assert s == if last.parlaySize in si then si else si + [last.parlaySize];
    assert s[i] == si[i];
    if k < |data| - 1 {
      assert data[k] == init[k] && init[k] in init;
      assert j < |si| && s[j] == si[j];
      assert ComesFirst(init, si[i], si[j]);
      EarlierInPrefix(data, init, si[i], k);
    } else if j < |si| {
      var k' := OccursAt(init, si[j]);
      assert ComesFirst(init, si[i], si[j]);
      EarlierInPrefix(data, init, si[i], k');
    } else {
      var l := OccursAt(init, si[i]);
      assert data[l] == init[l];
    }
  }

  /** A listed size occurs at some index. */
  lemma OccursAt(data: seq<Metric>, x: int) returns (l: nat)
    requires x in Sizes(data)
    ensures l < |data| && data[l].parlaySize == x
  {
    var e :| e in data && e.parlaySize == x;
    l :| 0 <= l < |data| && data[l] == e;
  }

  /** A witness before `k` in the prefix without the last record is one in the whole. */
  lemma EarlierInPrefix(data: seq<Metric>, init: seq<Metric>, a: int, k: nat)
    requires data != [] && init == data[..|data| - 1] && k < |init|
    requires exists l :: 0 <= l < k && init[l].parlaySize == a
    ensures exists l :: 0 <= l < k && data[l].parlaySize == a
  {
    var l :| 0 <= l < k && init[l].parlaySize == a;
    assert data[l] == init[l];
  }

  /** Grouping loses nothing: each record sits in the group of its own size, and every
      listed size has a non-empty group. */
  lemma GroupsPartition(data: seq<Metric>)
    ensures forall e :: e in data ==> e.parlaySize in Sizes(data) && e in Group(data, e.parlaySize)
    ensures forall s :: s in Sizes(data) ==> Group(data, s) != []
  {
    forall s | s in Sizes(data)
      ensures Group(data, s) != []
    {
      var e :| e in data && e.parlaySize == s;
      assert e in Group(data, s);
    }
  }

  /** The grouping loop: appends each record to the list of its size. */
  method GroupBySize(data: seq<Metric>) returns (order: seq<int>, groups: map<int, seq<Metric>>)
    ensures order == Sizes(data)
    ensures forall s :: s in groups <==> s in order
    ensures forall s :: s in groups ==> groups[s] == Group(data, s)
  {
    order, groups := [], map[];
    for i := 0 to |data|
      invariant order == Sizes(data[..i])
      invariant forall s :: s in groups <==> s in order
      invariant forall s :: s in groups ==> groups[s] == Group(data[..i], s)
    {
      var e := data[i];
      GroupStep(data, i);
      ghost var before := groups;
      if e.parlaySize in groups {
        groups := groups[e.parlaySize := groups[e.parlaySize] + [e]];
      } else {
        groups := groups[e.parlaySize := [e]];
        order := order + [e.parlaySize];
      }
      forall s | s in groups
        ensures groups[s] == Group(data[..i + 1], s)
      {
        GroupStepAt(data, i, s);
        if s != e.parlaySize {
          assert groups[s] == before[s];
        }
      }
    }
    assert data[..|data|] == data;
  }

  /** One step of the grouping loop: the next record's size is listed if new, and the
      record joins the group of its size only. */
  lemma GroupStep(data: seq<Metric>, i: nat)
    requires i < |data|
    ensures var size := data[i].parlaySize;
      Sizes(data[..i + 1]) ==
        (if size in Sizes(data[..i]) then Sizes(data[..i]) else Sizes(data[..i]) + [size])
    ensures data[i].parlaySize !in Sizes(data[..i]) ==> Group(data[..i], data[i].parlaySize) == []
  {
    assert data[..i + 1][..i] == data[..i];
    var g := Group(data[..i], data[i].parlaySize);
    if g != [] {
      assert g[0] in g;
    }
  }

  lemma GroupStepAt(data: seq<Metric>, i: nat, s: int)
    requires i < |data|
    ensures Group(data[..i + 1], s) == Group(data[..i], s) + (if data[i].parlaySize == s then [data[i]] else [])
  {
    assert data[..i + 1][..i] == data[..i];
  }

  // ---- bin edges and binning (get_strata.py:64-78) ----

  /** `np.linspace(start, stop, num)` over exact reals: `num` evenly spaced points from
      `start` to `stop` inclusive, or just `start` when `num` is 1. */
  function Linspace(start: real, stop: real, num: nat): (edges: seq<real>)
    ensures |edges| == num
    ensures num >= 1 ==> edges[0] == start
    ensures num >= 2 ==> edges[num - 1] == stop
    ensures start <= stop ==> Ascending(edges)
    ensures num >= 2 ==> forall i :: 0 <= i < num - 1 ==>
      edges[i + 1] - edges[i] == (stop - start) / ((num - 1) as real)
  {
    if num == 0 then []
    else if num == 1 then [start]
    else
      var step := (stop - start) / ((num - 1) as real);
      var edges := Points(start, step, num);
      DivideMultiply(stop - start, (num - 1) as real);
      assert edges[num - 1] == start + ((num - 1) as real) * step;
      EvenlySpacedStep(edges, start, step);
      if start <= stop then
        EvenlySpacedAscending(edges, start, step);
        edges
      else edges
  }

  /** The points `start + i * step` for `i` below `num`. */
  function Points(start: real, step: real, num: nat): (ps: seq<real>)
    ensures |ps| == num && forall i :: 0 <= i < num ==> ps[i] == start + (i as real) * step
  {
    seq(num, i requires 0 <= i < num => start + (i as real) * step)
  }

  /** Consecutive points `start + i * step` lie `step` apart. */
  lemma EvenlySpacedStep(edges: seq<real>, start: real, step: real)
    requires forall i :: 0 <= i < |edges| ==> edges[i] == start + (i as real) * step
    ensures forall i :: 0 <= i < |edges| - 1 ==> edges[i + 1] - edges[i] == step
  {
    forall i | 0 <= i < |edges| - 1
      ensures edges[i + 1] - edges[i] == step
    {
      assert ((i + 1) as real) * step == (i as real) * step + step;
    }
  }

  /** Points `start + i * step` with a non-negative step ascend. */
  lemma EvenlySpacedAscending(edges: seq<real>, start: real, step: real)
    requires step >= 0.0
    requires forall i :: 0 <= i < |edges| ==> edges[i] == start + (i as real) * step
    ensures Ascending(edges)
  {
    forall i, j | 0 <= i <= j < |edges|
      ensures edges[i] <= edges[j]
    {
      MultiplyMonotone(i as real, j as real, step);
    }
  }

  lemma DivideMultiply(a: real, d: real)
    requires d != 0.0
    ensures d * (a / d) == a
  {
  }

  lemma MultiplyMonotone(a: real, b: real, c: real)
    requires a <= b && c >= 0.0
    ensures a * c <= b * c
  {
  }

  predicate Ascending(edges: seq<real>)
  {
    forall i, j :: 0 <= i <= j < |edges| ==> edges[i] <= edges[j]
  }

  /** The first bin `[edges[i], edges[i + 1])` at or after `i` that holds `v`: the inner
      loop with its `break`. */
  function FirstBin(v: real, edges: seq<real>, i: nat): (b: Option<nat>)
    requires i <= |edges|
    ensures b.Some? ==> i <= b.value && b.value + 1 < |edges| && edges[b.value] <= v < edges[b.value + 1]
    decreases |edges| - i
  {
    if i + 1 >= |edges| then None
    else if edges[i] <= v < edges[i + 1] then Some(i)
    else FirstBin(v, edges, i + 1)
  }

  /** `FirstBin` finds the first interval holding the value, and finds none only when no
      interval does. */
  lemma {:induction false} FirstBinFirst(v: real, edges: seq<real>, i: nat)
    requires i <= |edges|
    ensures FirstBin(v, edges, i).Some? ==>
      forall j :: i <= j < FirstBin(v, edges, i).value ==> !(edges[j] <= v < edges[j + 1])
    ensures FirstBin(v, edges, i).None? ==>
      forall j :: i <= j && j + 1 < |edges| ==> !(edges[j] <= v < edges[j + 1])
    decreases |edges| - i
  {
    if i + 1 < |edges| && !(edges[i] <= v < edges[i + 1]) {
      FirstBinFirst(v, edges, i + 1);
    }
  }

  /** With ascending edges every value in `[edges[i], last edge)` has a bin. */
  lemma {:induction false} FirstBinExists(v: real, edges: seq<real>, i: nat)
    requires Ascending(edges) && i < |edges|
    requires edges[i] <= v < edges[|edges| - 1]
    ensures FirstBin(v, edges, i).Some?
    decreases |edges| - i
  {
    if !(v < edges[i + 1]) {
      FirstBinExists(v, edges, i + 1);
    }
  }

  /** The empty bins, one per interval. */
  function EmptyBins(edges: seq<real>): (bins: seq<seq<real>>)
    ensures |bins| == if |edges| == 0 then 0 else |edges| - 1
    ensures forall i :: 0 <= i < |bins| ==> bins[i] == []
  {
    var n := if |edges| == 0 then 0 else |edges| - 1;
    seq(n, _ => [])
  }

  /** The bins after the loop over the values: each value joins the first interval that
      holds it, and a value no interval holds is skipped. */
  function Binned(values: seq<real>, edges: seq<real>): (bins: seq<seq<real>>)
    ensures |bins| == if |edges| == 0 then 0 else |edges| - 1
  {
    if values == [] then EmptyBins(edges)
    else
      var bins := Binned(values[..|values| - 1], edges);
      var v := values[|values| - 1];
      match FirstBin(v, edges, 0)
      case None => bins
      case Some(i) => bins[i := bins[i] + [v]]
  }

  /** A bin holds exactly the values whose first interval it is. */
  lemma {:induction false} BinnedContents(values: seq<real>, edges: seq<real>, i: nat, v: real)
    requires i < |Binned(values, edges)|
    ensures v in Binned(values, edges)[i] <==> v in values && FirstBin(v, edges, 0) == Some(i)
  {
    if values != [] {
      var init := values[..|values| - 1];
      BinnedContents(init, edges, i, v);
      assert forall x :: x in values <==> x in init || x == values[|values| - 1];
    }
  }

  /** The number of values in all bins together. */
  function Total(bins: seq<seq<real>>): nat
  {
    if bins == [] then 0 else Total(bins[..|bins| - 1]) + |bins[|bins| - 1]|
  }

  /** The number of values that some interval holds. */
  function Placed(values: seq<real>, edges: seq<real>): nat
  {
    if values == [] then 0
    else Placed(values[..|values| - 1], edges) + (if FirstBin(values[|values| - 1], edges, 0).Some? then 1 else 0)
  }

  /** The number of values equal to `x`. */
  function Occurrences(values: seq<real>, x: real): nat
  {
    if values == [] then 0
    else Occurrences(values[..|values| - 1], x) + (if values[|values| - 1] == x then 1 else 0)
  }

  lemma {:induction false} TotalEmpty(n: nat)
    ensures Total(seq(n, _ => [])) == 0
  {
    if n > 0 {
      var bins: seq<seq<real>> := seq(n, _ => []);
      assert bins[..n - 1] == seq(n - 1, _ => []);
      TotalEmpty(n - 1);
    }
  }

  /** Adding one value to one bin adds one to the total. */
  lemma {:induction false} TotalAppend(bins: seq<seq<real>>, i: nat, v: real)
    requires i < |bins|
    ensures Total(bins[i := bins[i] + [v]]) == Total(bins) + 1
  {
    var bins' := bins[i := bins[i] + [v]];
    if i < |bins| - 1 {
      assert bins'[..|bins'| - 1] == bins[..|bins| - 1][i := bins[i] + [v]];
      TotalAppend(bins[..|bins| - 1], i, v);
    } else {
      assert bins'[..|bins'| - 1] == bins[..|bins| - 1];
    }
  }

  /** No value is lost or counted twice by the loop: the bins hold the placed values. */
  lemma {:induction false} BinnedTotal(values: seq<real>, edges: seq<real>)
    ensures Total(Binned(values, edges)) == Placed(values, edges)
  {
    if values == [] {
      TotalEmpty(if |edges| == 0 then 0 else |edges| - 1);
    } else {
      BinnedTotal(values[..|values| - 1], edges);
      match FirstBin(values[|values| - 1], edges, 0)
      case None =>
      case Some(i) => TotalAppend(Binned(values[..|values| - 1], edges), i, values[|values| - 1]);
    }
  }

  /** Over ascending edges that span the values, the only values left unplaced are
      those equal to the last edge. */
  lemma {:induction false} PlacedSpan(values: seq<real>, edges: seq<real>)
    requires |edges| >= 2 && Ascending(edges)
    requires forall k :: 0 <= k < |values| ==> edges[0] <= values[k] <= edges[|edges| - 1]
    ensures Placed(values, edges) + Occurrences(values, edges[|edges| - 1]) == |values|
  {
    if values != [] {
      var init := values[..|values| - 1];
      assert forall k :: 0 <= k < |init| ==> init[k] == values[k];
      PlacedSpan(init, edges);
      var v := values[|values| - 1];
      if v < edges[|edges| - 1] {
        FirstBinExists(v, edges, 0);
      } else {
        assert FirstBin(v, edges, 0).None?;
      }
    }
  }

  /** The binning as written: the loop, then the maximum appended once more to the last
      bin when it equals the last edge (`bins[-2]` needs two edges, and `bins[-1]` one). */
  function BinValuesSpec(values: seq<real>, edges: seq<real>, maxValue: real): (r: Result<seq<seq<real>>>)
    ensures r.Failure? <==> |edges| == 0 || (|edges| == 1 && maxValue == edges[0])
  {
    if |edges| == 0 then Failure(IndexError("index -1 is out of bounds for axis 0 with size 0"))
    else if maxValue == edges[|edges| - 1] then
      if |edges| == 1 then Failure(IndexError("index -2 is out of bounds for axis 0 with size 1"))
      else
        var bins := Binned(values, edges);
        Success(bins[|bins| - 1 := bins[|bins| - 1] + [maxValue]])
    else Success(Binned(values, edges))
  }

  /** The loops of `create_strata` that fill the bins. */
  method BinValues(values: seq<real>, edges: seq<real>, maxValue: real) returns (r: Result<seq<seq<real>>>)
    ensures r == BinValuesSpec(values, edges, maxValue)
  {
    var bins := EmptyBins(edges);
    for k := 0 to |values|
      invariant bins == Binned(values[..k], edges)
    {
      var v := values[k];
      assert values[..k + 1][..k] == values[..k];
      var i := 0;
      while i + 1 < |edges|
        invariant i <= |edges|
        invariant FirstBin(v, edges, 0) == FirstBin(v, edges, i)
      {
        if edges[i] <= v < edges[i + 1] {
          bins := bins[i := bins[i] + [v]];
          break;
        }
        i := i + 1;
      }
    }
    assert values[..|values|] == values;
    if |edges| == 0 {
      return Failure(IndexError("index -1 is out of bounds for axis 0 with size 0"));
    }
    if maxValue == edges[|edges| - 1] {
      if |edges| == 1 {
        return Failure(IndexError("index -2 is out of bounds for axis 0 with size 1"));
      }
      bins := bins[|bins| - 1 := bins[|bins| - 1] + [maxValue]];
    }
    return Success(bins);
  }

  /** As written, values equal to a maximum that sits on the last edge are kept once,
      however often they occur. */
  lemma BinValuesTotal(values: seq<real>, edges: seq<real>)
    requires |values| > 0 && |edges| >= 2 && Ascending(edges)
    requires edges[0] <= Min(values) && Max(values) == edges[|edges| - 1]
    ensures var r := BinValuesSpec(values, edges, Max(values));
      r.Success? && Total(r.value) == |values| - Occurrences(values, Max(values)) + 1
  {
    BinnedTotal(values, edges);
    PlacedSpan(values, edges);
    var bins := Binned(values, edges);
    TotalAppend(bins, |bins| - 1, Max(values));
  }

  /** The edges `create_strata` draws for values from 0 to 2 and two bins: the range (2)
      is not below the number of bins, so the last edge is the maximum itself. */
  lemma LinspaceExample()
    ensures Linspace(0.0, 2.0, 3) == [0.0, 1.0, 2.0]
  {
    var l := Linspace(0.0, 2.0, 3);
    assert l[1] == 0.0 + (1 as real) * ((2.0 - 0.0) / (2 as real)) == 1.0;
  }

  lemma BinnedExampleStart()
    ensures Binned([0.0], [0.0, 1.0, 2.0]) == [[0.0], []]
  {
    var edges := [0.0, 1.0, 2.0];
    assert FirstBin(0.0, edges, 0) == Some(0);
    assert [0.0][..0] == [];
    var empty: seq<seq<real>> := Binned([], edges);
    assert empty == [[], []];
    var one: seq<real> := [] + [0.0];
    assert one == [0.0];
  }

  /** Over those edges, the three values 0, 2, 2: neither copy of the maximum lies in a
      half-open interval, and the one extra append keeps a single copy. */
  lemma BinValuesDropsRepeatedMax()
    ensures BinValuesSpec([0.0, 2.0, 2.0], [0.0, 1.0, 2.0], 2.0) == Success([[0.0], [2.0]])
  {
    var edges := [0.0, 1.0, 2.0];
    assert FirstBin(2.0, edges, 1) == None;
    assert FirstBin(2.0, edges, 0) == None;
    var vs := [0.0, 2.0, 2.0];
    BinnedExampleStart();
    assert [0.0, 2.0][..1] == [0.0];
    assert Binned([0.0, 2.0], edges) == [[0.0], []];
    assert vs[..2] == [0.0, 2.0];
    var bins := Binned(vs, edges);
    assert bins == [[0.0], []];
    var top: seq<real> := bins[1] + [2.0];
    assert top == [2.0];
    assert bins[|bins| - 1 := top] == [[0.0], [2.0]];
  }

  /** The evidently intended binning: every value on the last edge joins the last bin. */
  function IntendedBinValues(values: seq<real>, edges: seq<real>): (r: Result<seq<seq<real>>>)
    ensures r.Failure? <==> |edges| < 2
  {
    if |edges| < 2 then Failure(IndexError("bins need two edges"))
    else
      var bins := Binned(values, edges);
      var top := edges[|edges| - 1];
      Success(bins[|bins| - 1 := bins[|bins| - 1] + seq(Occurrences(values, top), _ => top)])
  }

  /** Intended: over ascending edges spanning the values, every value is binned once. */
  lemma IntendedBinValuesTotal(values: seq<real>, edges: seq<real>)
    requires |edges| >= 2 && Ascending(edges)
    requires forall k :: 0 <= k < |values| ==> edges[0] <= values[k] <= edges[|edges| - 1]
    ensures var r := IntendedBinValues(values, edges);
      r.Success? && Total(r.value) == |values|
  {
    BinnedTotal(values, edges);
    PlacedSpan(values, edges);
    var bins := Binned(values, edges);
    var extra := seq(Occurrences(values, edges[|edges| - 1]), _ => edges[|edges| - 1]);
    TotalExtend(bins, |bins| - 1, extra);
  }

  /** Adding several values to one bin adds their count to the total. */
  lemma {:induction false} TotalExtend(bins: seq<seq<real>>, i: nat, extra: seq<real>)
    requires i < |bins|
    ensures Total(bins[i := bins[i] + extra]) == Total(bins) + |extra|
  {
    var bins' := bins[i := bins[i] + extra];
    if i < |bins| - 1 {
      assert bins'[..|bins'| - 1] == bins[..|bins| - 1][i := bins[i] + extra];
      TotalExtend(bins[..|bins| - 1], i, extra);
    } else {
      assert bins'[..|bins'| - 1] == bins[..|bins| - 1];
    }
  }

  // ---- create_strata (get_strata.py:50-84) ----

  /** The bin edges of a group whose kept values run from `lo` to `hi`: the last edge
      is lifted by 0.001 when the range is below the number of bins. */
  function Edges(lo: real, hi: real, numBins: nat): (edges: seq<real>)
    ensures |edges| == numBins + 1 && edges[0] == lo
  {
    if hi - lo < numBins as real then Linspace(lo, hi + 0.001, numBins + 1)
    else Linspace(lo, hi, numBins + 1)
  }

  /** The strata of one parlay size: the group is filtered, its values binned. A filter
      that keeps nothing leaves `min` an empty list, and a negative sample count makes
      `linspace` raise ValueError. */
  function Stratum(entries: seq<Metric>, key: string, numBins: int, threshold: real): (r: Result<seq<seq<real>>>)
    ensures entries == [] ==> r.Failure?
  {
    match FilterDataWithDiscrepancy(entries, key, threshold)
    case Failure(e) => Failure(e)
    case Success(kept) =>
      var values := MetricValues(kept);
      if values == [] then Failure(ValueError("min() arg is an empty sequence"))
      else if numBins + 1 < 0 then Failure(ValueError("Number of samples must be non-negative"))
      else if numBins + 1 == 0 then BinValuesSpec(values, [], Max(values))
      else BinValuesSpec(values, Edges(Min(values), Max(values), numBins), Max(values))
  }

  /** The strata of the listed sizes, built in order; the first failing group ends the
      computation. */
  function StrataOver(data: seq<Metric>, sizes: seq<int>, key: string, numBins: int, threshold: real)
    : (r: Result<map<int, seq<seq<real>>>>)
    ensures r.Success? ==> r.value.Keys == set s | s in sizes
  {
    if sizes == [] then Success(map[])
    else
      var last := sizes[|sizes| - 1];
      assert forall s :: s in sizes <==> s in sizes[..|sizes| - 1] || s == last;
      match StrataOver(data, sizes[..|sizes| - 1], key, numBins, threshold)
      case Failure(e) => Failure(e)
      case Success(m) =>
        match Stratum(Group(data, last), key, numBins, threshold)
        case Failure(e) => Failure(e)
        case Success(bins) => Success(m[last := bins])
  }

  /** `create_strata(data, key, num_bins, threshold)`. */
  function CreateStrataSpec(data: seq<Metric>, key: string, numBins: int, threshold: real)
    : (r: Result<map<int, seq<seq<real>>>>)
    ensures r.Success? ==> r.value.Keys == set e | e in data :: e.parlaySize
  {
    StrataOver(data, Sizes(data), key, numBins, threshold)
  }

  /** Once a prefix of the sizes fails, the whole computation fails the same way. */
  lemma {:induction false} StrataOverPrefixFailure(data: seq<Metric>, sizes: seq<int>, k: nat,
                                                   key: string, numBins: int, threshold: real)
    requires k <= |sizes| && StrataOver(data, sizes[..k], key, numBins, threshold).Failure?
    ensures StrataOver(data, sizes, key, numBins, threshold) == StrataOver(data, sizes[..k], key, numBins, threshold)
  {
    if k < |sizes| {
      assert sizes[..|sizes| - 1][..k] == sizes[..k];
      StrataOverPrefixFailure(data, sizes[..|sizes| - 1], k, key, numBins, threshold);
    } else {
      assert sizes[..k] == sizes;
    }
  }

  /** Each successful stratum is the binning of its own group. */
  lemma {:induction false} StrataOverValues(data: seq<Metric>, sizes: seq<int>, key: string, numBins: int,
                                            threshold: real, s: int)
    requires StrataOver(data, sizes, key, numBins, threshold).Success? && s in sizes
    ensures Stratum(Group(data, s), key, numBins, threshold)
      == Success(StrataOver(data, sizes, key, numBins, threshold).value[s])
  {
    var init, last := sizes[..|sizes| - 1], sizes[|sizes| - 1];
    var prefix := StrataOver(data, init, key, numBins, threshold);
    var bins := Stratum(Group(data, last), key, numBins, threshold);
    assert prefix.Success? && bins.Success?;
    assert StrataOver(data, sizes, key, numBins, threshold).value == prefix.value[last := bins.value];
    if s != last {
      assert s in init;
      StrataOverValues(data, init, key, numBins, threshold, s);
    }
  }

  /** The body of the loop over the groups: filter, take the values, draw the edges and
      bin. */
  method StratumOf(entries: seq<Metric>, key: string, numBins: int, threshold: real)
    returns (bins: Result<seq<seq<real>>>)
    ensures bins == Stratum(entries, key, numBins, threshold)
  {
    var filtered := FilterDataWithDiscrepancy(entries, key, threshold);
    if filtered.Failure? {
      return Failure(filtered.error);
    }
    var values := MetricValues(filtered.value);
    if values == [] {
      return Failure(ValueError("min() arg is an empty sequence"));
    }
    if numBins + 1 < 0 {
      return Failure(ValueError("Number of samples must be non-negative"));
    }
    var hi := Max(values);
    var edges := if numBins + 1 == 0 then [] else Edges(Min(values), hi, numBins);
    bins := BinValues(values, edges, hi);
  }

  /** One more size: its stratum joins the map, or its failure ends the computation. */
  lemma StrataOverExtend(data: seq<Metric>, sizes: seq<int>, s: int, key: string, numBins: int, threshold: real)
    requires StrataOver(data, sizes, key, numBins, threshold).Success?
    ensures var m := StrataOver(data, sizes, key, numBins, threshold).value;
      StrataOver(data, sizes + [s], key, numBins, threshold) ==
        match Stratum(Group(data, s), key, numBins, threshold)
        case Failure(e) => Failure(e)
        case Success(bins) => Success(m[s := bins])
  {
    assert (sizes + [s])[..|sizes|] == sizes;
  }

  /** The grouping loop, then one stratum per size in order of first appearance. */
  method CreateStrata(data: seq<Metric>, key: string, numBins: int, threshold: real)
    returns (r: Result<map<int, seq<seq<real>>>>)
    ensures r == CreateStrataSpec(data, key, numBins, threshold)
  {
    var order, groups := GroupBySize(data);
    var strata: map<int, seq<seq<real>>> := map[];
    for i := 0 to |order|
      invariant StrataOver(data, order[..i], key, numBins, threshold) == Success(strata)
    {
      var size := order[i];
      assert order[..i + 1] == order[..i] + [size];
      var bins := StratumOf(groups[size], key, numBins, threshold);
      StrataOverExtend(data, order[..i], size, key, numBins, threshold);
      if bins.Failure? {
        StrataOverPrefixFailure(data, order, i + 1, key, numBins, threshold);
        return Failure(bins.error);
      }
      strata := strata[size := bins.value];
    }
    assert order[..|order|] == order;
    return Success(strata);
  }

  /** A successful `create_strata` has one stratum per parlay size in the data, and that
      stratum is the binning of the group of that size. */
  lemma CreateStrataSound(data: seq<Metric>, key: string, numBins: int, threshold: real)
    requires CreateStrataSpec(data, key, numBins, threshold).Success?
    ensures var m := CreateStrataSpec(data, key, numBins, threshold).value;
      (forall s :: s in m <==> exists e :: e in data && e.parlaySize == s) &&
      (forall s :: s in m ==> Stratum(Group(data, s), key, numBins, threshold) == Success(m[s]))
  {
    forall s | s in Sizes(data)
      ensures Stratum(Group(data, s), key, numBins, threshold)
        == Success(CreateStrataSpec(data, key, numBins, threshold).value[s])
    {
      StrataOverValues(data, Sizes(data), key, numBins, threshold, s);
    }
  }

  /** A stratum has one bin per requested bin. */
  lemma StratumBins(entries: seq<Metric>, key: string, numBins: int, threshold: real)
    requires Stratum(entries, key, numBins, threshold).Success?
    ensures numBins >= 0 && |Stratum(entries, key, numBins, threshold).value| == numBins
  {
  }

  /** When the kept values span less than the number of bins, the last edge lies above
      the maximum and every kept value lands in exactly one bin. */
  lemma StratumTotal(entries: seq<Metric>, key: string, numBins: nat, threshold: real)
    requires entries != [] && numBins >= 1
    requires var kept := FilterDataWithDiscrepancy(entries, key, threshold).value;
      kept != [] && Max(MetricValues(kept)) - Min(MetricValues(kept)) < numBins as real
    ensures var kept := FilterDataWithDiscrepancy(entries, key, threshold).value;
      var r := Stratum(entries, key, numBins, threshold);
      r.Success? && Total(r.value) == |kept|
  {
    var kept := FilterDataWithDiscrepancy(entries, key, threshold).value;
    var values := MetricValues(kept);
    var lo, hi := Min(values), Max(values);
    var edges := Edges(lo, hi, numBins);
    assert Stratum(entries, key, numBins, threshold) == BinValuesSpec(values, edges, hi);
    BinValuesBelowTop(values, edges);
  }

  /** When the values lie below the last edge the extra append never happens, and over
      ascending edges from at most the minimum every value is binned once. */
  lemma BinValuesBelowTop(values: seq<real>, edges: seq<real>)
    requires |values| > 0 && |edges| >= 2 && Ascending(edges)
    requires edges[0] <= Min(values) && Max(values) < edges[|edges| - 1]
    ensures var r := BinValuesSpec(values, edges, Max(values));
      r.Success? && Total(r.value) == |values|
  {
    BinnedTotal(values, edges);
    PlacedSpan(values, edges);
    OccurrencesAbsent(values, edges[|edges| - 1]);
  }

  /** A value above all the values never occurs among them. */
  lemma {:induction false} OccurrencesAbsent(values: seq<real>, x: real)
    requires forall k :: 0 <= k < |values| ==> values[k] < x
    ensures Occurrences(values, x) == 0
  {
    if values != [] {
      OccurrencesAbsent(values[..|values| - 1], x);
    }
  }

  // ---- get_data_from_matchdays and get_other_metrics (get_strata.py:12-32, 115-116) ----

  /** The best-EV parlay of one size on one matchday, if any parlay of that size has a
      positive EV. */
  function TopChoice(day: seq<Match>, size: int): (choice: Option<ParlayEntry>)
    ensures choice.Some? ==> size > 0 && |choice.value.parlay| == size && choice.value.ev > 0.0
  {
    var r := RankParlays(day, Some(size), ByEv, 0.0);
    if r.Success? && r.value != [] then
      RankSound(day, Some(size), ByEv, 0.0);
      Some(r.value[0])
    else None
  }

  /** One recorded choice. */
  datatype Pick = Pick(size: int, choice: ParlayEntry)

  /** The top choices of one matchday for the sizes 1 to 10. */
  function DayTops(day: seq<Match>): (tops: seq<Option<ParlayEntry>>)
    ensures |tops| == 10
  {
    seq(10, i requires 0 <= i < 10 => TopChoice(day, i + 1))
  }

  /** The choices recorded from the top choices of the sizes 1, 2, ..., smallest first. */
  function PicksFrom(tops: seq<Option<ParlayEntry>>): seq<Pick>
  {
    if tops == [] then []
    else
      PicksFrom(tops[..|tops| - 1]) +
        match tops[|tops| - 1] case None => [] case Some(e) => [Pick(|tops|, e)]
  }

  /** The choices recorded from the top choices of several matchdays, in order. */
  function AllPicks(tops: seq<seq<Option<ParlayEntry>>>): seq<Pick>
  {
    if tops == [] then [] else AllPicks(tops[..|tops| - 1]) + PicksFrom(tops[|tops| - 1])
  }

  /** The top choices of each matchday. */
  function DaysTops(days: seq<seq<Match>>): (tops: seq<seq<Option<ParlayEntry>>>)
    ensures |tops| == |days| && forall d :: 0 <= d < |days| ==> tops[d] == DayTops(days[d])
  {
    seq(|days|, d requires 0 <= d < |days| => DayTops(days[d]))
  }

  /** The choices of all matchdays, each for the sizes 1 to 10. */
  function Picks(days: seq<seq<Match>>): seq<Pick>
  {
    AllPicks(DaysTops(days))
  }

  /** A choice is the first of its ranking: of its size, positive-EV, priced, and at
      least as good as every other ranked parlay of that size. */
  lemma TopChoiceBest(day: seq<Match>, size: int)
    requires TopChoice(day, size).Some?
    ensures var e := TopChoice(day, size).value;
      var ranked := RankParlays(day, Some(size), ByEv, 0.0).value;
      size > 0 && |e.parlay| == size && e.ev > 0.0 && e.odds != 0.0 && e == MakeEntry(e.parlay) &&
      forall e' :: e' in ranked ==> e'.ev <= e.ev
  {
    var ranked := RankParlays(day, Some(size), ByEv, 0.0).value;
    RankSound(day, Some(size), ByEv, 0.0);
    var e := ranked[0];
    PositiveEvPriced(e);
    forall e' | e' in ranked
      ensures e'.ev <= e.ev
    {
      var j :| 0 <= j < |ranked| && ranked[j] == e';
      if j > 0 {
        assert KeyOf(ranked[0], ByEv) >= KeyOf(ranked[j], ByEv);
      }
    }
  }

  /** Positive EV implies non-zero combined odds, since the EV is probability times odds
      minus one. */
  lemma PositiveEvPriced(e: ParlayEntry)
    requires |e.parlay| > 0 && e == MakeEntry(e.parlay) && e.ev > 0.0
    ensures e.odds != 0.0
  {
    var v := ParlayEv.CalculateParlayEv(e.parlay);
    assert e.ev == e.finalProbability * e.odds - 1.0;
  }

  /** No choice for a size means no admissible parlay of that size has positive EV. */
  lemma TopChoiceNone(day: seq<Match>, size: int, c: seq<nat>)
    requires size > 0 && TopChoice(day, size).None?
    requires |c| == size && Increasing(c)
    requires forall l :: 0 <= l < |c| ==> c[l] < |Pool(day)|
    requires DistinctFixtures(Select(Pool(day), c))
    ensures MakeEntry(Select(Pool(day), c)).ev <= 0.0
  {
    RankedByEv(day, Some(size));
    if MakeEntry(Select(Pool(day), c)).ev > 0.0 {
      RankComplete(day, Some(size), ByEv, 0.0, c);
    }
  }

  /** The choices recorded from a list of top choices are exactly its present entries. */
  lemma {:induction false} PicksFromMembers(tops: seq<Option<ParlayEntry>>, p: Pick)
    ensures p in PicksFrom(tops) <==> 1 <= p.size <= |tops| && tops[p.size - 1] == Some(p.choice)
  {
    if tops != [] {
      var init := tops[..|tops| - 1];
      PicksFromMembers(init, p);
    }
  }

  lemma {:induction false} AllPicksMembers(tops: seq<seq<Option<ParlayEntry>>>, p: Pick)
    ensures p in AllPicks(tops) <==>
      exists d :: 0 <= d < |tops| && 1 <= p.size <= |tops[d]| && tops[d][p.size - 1] == Some(p.choice)
  {
    if tops != [] {
      var init := tops[..|tops| - 1];
      AllPicksMembers(init, p);
      PicksFromMembers(tops[|tops| - 1], p);
      assert forall d :: 0 <= d < |init| ==> init[d] == tops[d];
    }
  }

  /** Every recorded choice is the top choice of its size on some matchday, and each
      such top choice is recorded. */
  lemma PicksMembers(days: seq<seq<Match>>, p: Pick)
    ensures p in Picks(days) <==>
      exists d :: 0 <= d < |days| && 1 <= p.size <= 10 && TopChoice(days[d], p.size) == Some(p.choice)
  {
    AllPicksMembers(DaysTops(days), p);
    if 1 <= p.size <= 10 {
      forall d | 0 <= d < |days|
        ensures DaysTops(days)[d][p.size - 1] == TopChoice(days[d], p.size)
      {
        assert DaysTops(days)[d] == DayTops(days[d]);
        DayTopsAt(days[d], p.size);
      }
    }
  }

  /** Every recorded choice has non-zero odds, so its Kelly stake is defined. */
  predicate Priced(ps: seq<Pick>)
  {
    forall i :: 0 <= i < |ps| ==> ps[i].choice.odds != 0.0
  }

  lemma PicksPriced(days: seq<seq<Match>>)
    ensures Priced(Picks(days))
  {
    var ps := Picks(days);
    forall i | 0 <= i < |ps|
      ensures ps[i].choice.odds != 0.0
    {
      PicksMembers(days, ps[i]);
      var d :| 0 <= d < |days| && 1 <= ps[i].size <= 10 && TopChoice(days[d], ps[i].size) == Some(ps[i].choice);
      TopChoiceBest(days[d], ps[i].size);
    }
  }

  /** The `probabilities` records. */
  function ProbabilityRecords(ps: seq<Pick>): seq<Metric>
  {
    seq(|ps|, i requires 0 <= i < |ps| => Metric(ps[i].size, ps[i].choice.finalProbability))
  }

  /** The `odds` records. */
  function OddsRecords(ps: seq<Pick>): seq<Metric>
  {
    seq(|ps|, i requires 0 <= i < |ps| => Metric(ps[i].size, ps[i].choice.odds))
  }

  /** The Kelly stake of a choice at multiplier 0.15. */
  function Stake(e: ParlayEntry): real
    requires e.odds != 0.0
  {
    SingleEv.Kelly(e.finalProbability, Some(e.odds), 0.15)
  }

  /** The values of a list of recorded choices, grouped by size as a `defaultdict(list)`
      collects them. */
  function BySize(sizes: seq<int>, values: seq<real>): (m: map<int, seq<real>>)
    requires |sizes| == |values|
    ensures m.Keys == set s | s in sizes
  {
    if sizes == [] then map[]
    else
      var n := |sizes| - 1;
      var m := BySize(sizes[..n], values[..n]);
      assert forall s :: s in sizes <==> s in sizes[..n] || s == sizes[n];
      m[sizes[n] := (if sizes[n] in m then m[sizes[n]] else []) + [values[n]]]
  }

  /** The values recorded under one size, in order. */
  function ValuesOfSize(sizes: seq<int>, values: seq<real>, s: int): seq<real>
    requires |sizes| == |values|
  {
    if sizes == [] then []
    else
      var n := |sizes| - 1;
      ValuesOfSize(sizes[..n], values[..n], s) + (if sizes[n] == s then [values[n]] else [])
  }

  function SizesOf(ps: seq<Pick>): seq<int>
  {
    seq(|ps|, i requires 0 <= i < |ps| => ps[i].size)
  }

  function EvsOf(ps: seq<Pick>): seq<real>
  {
    seq(|ps|, i requires 0 <= i < |ps| => ps[i].choice.ev)
  }

  function StakesOf(ps: seq<Pick>): seq<real>
    requires Priced(ps)
  {
    seq(|ps|, i requires 0 <= i < |ps| => Stake(ps[i].choice))
  }

  /** `get_other_metrics(metric_dict, parlay_size)`: the list of a size, empty when the
      size was never recorded. */
  function GetOtherMetrics(metrics: map<int, seq<real>>, size: int): (r: seq<real>)
    ensures size in metrics ==> r == metrics[size]
    ensures size !in metrics ==> r == []
  {
    if size in metrics then metrics[size] else []
  }

  /** Reading a size back from the grouped values yields the values recorded under it,
      in order, and nothing for a size never recorded. */
  lemma {:induction false} GetOtherMetricsOfSize(sizes: seq<int>, values: seq<real>, s: int)
    requires |sizes| == |values|
    ensures GetOtherMetrics(BySize(sizes, values), s) == ValuesOfSize(sizes, values, s)
  {
    if sizes != [] {
      var n := |sizes| - 1;
      GetOtherMetricsOfSize(sizes[..n], values[..n], s);
    }
  }

  /** `test_all_parlays(matches=matchday, max_matches=parlay_size)` and its first entry. */
  method BestParlay(day: seq<Match>, size: int) returns (top: Option<ParlayEntry>)
    requires 1 <= size <= 10
    ensures top == DayTops(day)[size - 1]
    ensures top.Some? ==> top.value.odds != 0.0
  {
    var parlays := TestAllParlays(day, Some(size));
    if parlays.Success? && parlays.value != [] {
      top := Some(parlays.value[0]);
    } else {
      top := None;
    }
    assert top == TopChoice(day, size);
    DayTopsAt(day, size);
    if top.Some? {
      TopChoicePriced(day, size);
    }
  }

  lemma DayTopsAt(day: seq<Match>, size: int)
    requires 1 <= size <= 10
    ensures DayTops(day)[size - 1] == TopChoice(day, size)
  {
  }

  lemma TopChoicePriced(day: seq<Match>, size: int)
    requires TopChoice(day, size).Some?
    ensures TopChoice(day, size).value.odds != 0.0
  {
    TopChoiceBest(day, size);
  }

  /** The four outputs of `get_data_from_matchdays` for the choices `ps`. */
  predicate Recorded(ps: seq<Pick>, probabilities: seq<Metric>, odds: seq<Metric>,
                     evs: map<int, seq<real>>, kellys: map<int, seq<real>>)
  {
    Priced(ps) && probabilities == ProbabilityRecords(ps) && odds == OddsRecords(ps) &&
    evs == BySize(SizesOf(ps), EvsOf(ps)) && kellys == BySize(SizesOf(ps), StakesOf(ps))
  }

  /** `get_data_from_matchdays(matchday_data)`: for every matchday and every size from 1
      to 10, the best-EV parlay, when there is one, is recorded with its probability, odds,
      EV and Kelly stake. */
  method GetDataFromMatchdays(days: seq<seq<Match>>)
    returns (probabilities: seq<Metric>, odds: seq<Metric>, evs: map<int, seq<real>>, kellys: map<int, seq<real>>)
    ensures Recorded(Picks(days), probabilities, odds, evs, kellys)
  {
    probabilities, odds, evs, kellys := [], [], map[], map[];
    ghost var tops := DaysTops(days);
    ghost var ps: seq<Pick> := [];
    for d := 0 to |days|
      invariant ps == AllPicks(tops[..d])
      invariant Recorded(ps, probabilities, odds, evs, kellys)
    {
      AllPicksPrefix(tops, d);
      probabilities, odds, evs, kellys := RecordMatchday(days[d], ps, probabilities, odds, evs, kellys);
      ps := ps + PicksFrom(DayTops(days[d]));
    }
    AllPrefixWhole(tops);
  }

  /** The inner loop of `get_data_from_matchdays`: the sizes 1 to 10 of one matchday. */
  method RecordMatchday(day: seq<Match>, ghost ps: seq<Pick>, probabilities0: seq<Metric>, odds0: seq<Metric>,
                        evs0: map<int, seq<real>>, kellys0: map<int, seq<real>>)
    returns (probabilities: seq<Metric>, odds: seq<Metric>, evs: map<int, seq<real>>, kellys: map<int, seq<real>>)
    requires Recorded(ps, probabilities0, odds0, evs0, kellys0)
    ensures Recorded(ps + PicksFrom(DayTops(day)), probabilities, odds, evs, kellys)
  {
    probabilities, odds, evs, kellys := probabilities0, odds0, evs0, kellys0;
    ghost var dayTops := DayTops(day);
    ghost var qs := ps;
    for size := 1 to 11
      invariant qs == ps + PicksFrom(dayTops[..size - 1])
      invariant Recorded(qs, probabilities, odds, evs, kellys)
    {
      var top := BestParlay(day, size);
      ghost var before := PicksFrom(dayTops[..size - 1]);
      PicksFromPrefix(dayTops, size - 1);
      if top.Some? {
        probabilities, odds, evs, kellys := RecordChoice(size, top.value, qs, probabilities, odds, evs, kellys);
        PicksAssoc(ps, before, [Pick(size, top.value)]);
        qs := qs + [Pick(size, top.value)];
      } else {
        assert PicksFrom(dayTops[..size]) == before;
      }
    }
    PrefixWhole(dayTops);
  }

  /** The body of the inner loop for a size that has a choice: its probability, odds,
      EV and Kelly stake are appended. */
  method RecordChoice(size: int, choice: ParlayEntry, ghost qs: seq<Pick>, probabilities0: seq<Metric>,
                      odds0: seq<Metric>, evs0: map<int, seq<real>>, kellys0: map<int, seq<real>>)
    returns (probabilities: seq<Metric>, odds: seq<Metric>, evs: map<int, seq<real>>, kellys: map<int, seq<real>>)
    requires choice.odds != 0.0
    requires Recorded(qs, probabilities0, odds0, evs0, kellys0)
    ensures Recorded(qs + [Pick(size, choice)], probabilities, odds, evs, kellys)
  {
    var kelly := SingleEv.Kelly(choice.finalProbability, Some(choice.odds), 0.15);
    RecordPick(qs, Pick(size, choice), probabilities0, odds0, evs0, kellys0);
    probabilities := probabilities0 + [Metric(size, choice.finalProbability)];
    odds := odds0 + [Metric(size, choice.odds)];
    evs := evs0[size := GetOtherMetrics(evs0, size) + [choice.ev]];
    kellys := kellys0[size := GetOtherMetrics(kellys0, size) + [kelly]];
  }

  lemma PicksAssoc(x: seq<Pick>, y: seq<Pick>, z: seq<Pick>)
    ensures x + (y + z) == (x + y) + z
  {
  }

  lemma PicksFromPrefix(tops: seq<Option<ParlayEntry>>, k: nat)
    requires k < |tops|
    ensures PicksFrom(tops[..k + 1]) ==
      PicksFrom(tops[..k]) + match tops[k] case None => [] case Some(e) => [Pick(k + 1, e)]
  {
    assert tops[..k + 1][..k] == tops[..k];
  }

  lemma AllPicksPrefix(tops: seq<seq<Option<ParlayEntry>>>, d: nat)
    requires d < |tops|
    ensures AllPicks(tops[..d + 1]) == AllPicks(tops[..d]) + PicksFrom(tops[d])
  {
    assert tops[..d + 1][..d] == tops[..d];
  }

  lemma PrefixWhole(tops: seq<Option<ParlayEntry>>)
    ensures tops[..|tops|] == tops
  {
  }

  lemma AllPrefixWhole(tops: seq<seq<Option<ParlayEntry>>>)
    ensures tops[..|tops|] == tops
  {
  }

  /** Recording one more choice appends to each output. */
  lemma RecordPick(ps: seq<Pick>, p: Pick, probabilities: seq<Metric>, odds: seq<Metric>,
                   evs: map<int, seq<real>>, kellys: map<int, seq<real>>)
    requires Recorded(ps, probabilities, odds, evs, kellys) && p.choice.odds != 0.0
    ensures Recorded(ps + [p], probabilities + [Metric(p.size, p.choice.finalProbability)],
                     odds + [Metric(p.size, p.choice.odds)],
                     evs[p.size := GetOtherMetrics(evs, p.size) + [p.choice.ev]],
                     kellys[p.size := GetOtherMetrics(kellys, p.size) + [Stake(p.choice)]])
  {
    var qs := ps + [p];
    ColumnsSnoc(ps, p);
    BySizeSnoc(SizesOf(ps), EvsOf(ps), p.size, p.choice.ev);
    BySizeSnoc(SizesOf(ps), StakesOf(ps), p.size, Stake(p.choice));
  }

  lemma ColumnsSnoc(ps: seq<Pick>, p: Pick)
    requires Priced(ps) && p.choice.odds != 0.0
    ensures Priced(ps + [p])
    ensures ProbabilityRecords(ps + [p]) == ProbabilityRecords(ps) + [Metric(p.size, p.choice.finalProbability)]
    ensures OddsRecords(ps + [p]) == OddsRecords(ps) + [Metric(p.size, p.choice.odds)]
    ensures SizesOf(ps + [p]) == SizesOf(ps) + [p.size]
    ensures EvsOf(ps + [p]) == EvsOf(ps) + [p.choice.ev]
    ensures StakesOf(ps + [p]) == StakesOf(ps) + [Stake(p.choice)]
  {
  }

  lemma BySizeSnoc(sizes: seq<int>, values: seq<real>, s: int, v: real)
    requires |sizes| == |values|
    ensures var m := BySize(sizes, values);
      BySize(sizes + [s], values + [v]) == m[s := GetOtherMetrics(m, s) + [v]]
  {
    assert (sizes + [s])[..|sizes|] == sizes;
    assert (values + [v])[..|values|] == values;
  }


}
