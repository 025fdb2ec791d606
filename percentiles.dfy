/** Percentile handling of `KTRLiteFull`: the configured percentiles and
    bootstrap count (`_set_default_args`), the list normalised at predict
    time (50 added, duplicates dropped, sorted), and the output column
    labels of `_aggregate_full_predictions`. */
module Percentiles {
  import opened Wrappers
  import opened PyText
  import opened PyList
  import opened PyDict
  import opened Tensors

  const DefaultPercentiles: seq<int> := [5, 95]
  const Median: int := 50

  /** `_prediction_percentiles`: `[5, 95]` when unset, else a copy of the setting. */
  function ConfiguredPercentiles(setting: Option<seq<int>>): (r: seq<int>)
    ensures setting.None? ==> r == DefaultPercentiles
    ensures setting.Some? ==> r == setting.value
  {
    match setting
    case None => DefaultPercentiles
    case Some(ps) => ps
  }

  /** `_n_bootstrap_draws`: a falsy setting (`None` or 0) becomes -1. */
  function ConfiguredBootstrapDraws(setting: Option<int>): (r: int)
    ensures r == -1 <==> setting.None? || setting.value in {0, -1}
    ensures setting.Some? && setting.value != 0 ==> r == setting.value
    // predict bootstraps only with a setting of at least 2, so the
    // "at least 2" error of `_bootstrap` cannot be reached from predict
    ensures UsesBootstrap(r) <==> setting.Some? && setting.value >= 2
  {
    match setting
    case None => -1
    case Some(n) => if n == 0 then -1 else n
  }

  /** `predict` replaces the posterior with a bootstrap draw only when this holds. */
  predicate UsesBootstrap(draws: int) {
    draws > 1
  }

  /** `sorted(set(xs))`: the distinct values of `xs` in ascending order. */
  function SortedSet(xs: seq<int>): (r: seq<int>)
    ensures StrictlyIncreasing(r)
    ensures forall y :: y in r <==> y in xs
    decreases |xs|
  {
    if xs == [] then []
    else
      var n := |xs| - 1;
      assert xs == xs[..n] + [xs[n]];
      Insert(SortedSet(xs[..n]), xs[n])
  }

  /** A sorted list without duplicates with `x` added in its place. */
  function Insert(s: seq<int>, x: int): (r: seq<int>)
    requires StrictlyIncreasing(s)
    ensures StrictlyIncreasing(r)
    ensures forall y :: y in r <==> y in s || y == x
  {
    if s == [] then [x]
    else if x < s[0] then [x] + s
    else if x == s[0] then s
    else
      assert forall y :: y in s <==> y == s[0] || y in s[1..] by {
        assert s == [s[0]] + s[1..];
      }
      var t := Insert(s[1..], x);
      assert forall y :: y in s[1..] ==> s[0] < y by {
        forall y | y in s[1..] ensures s[0] < y {
          var k :| 0 <= k < |s[1..]| && s[1..][k] == y;
          assert s[k + 1] == y;
        }
      }
      ConsIncreasing(s[0], t);
      [s[0]] + t
  }

  /** A value below every element of a sorted list can go in front of it. */
  lemma ConsIncreasing(a: int, t: seq<int>)
    requires StrictlyIncreasing(t)
    requires forall y :: y in t ==> a < y
    ensures StrictlyIncreasing([a] + t)
  {
    var r := [a] + t;
    forall k, l | 0 <= k < l < |r| ensures r[k] < r[l] {
      assert r[l] == t[l - 1];
      if k > 0 {
        assert r[k] == t[k - 1];
      } else {
        assert t[l - 1] in t;
      }
    }
  }

  /** Adds `x` to a sorted list without duplicates, keeping it so. */
  method InsertSorted(sorted: seq<int>, x: int) returns (r: seq<int>)
    requires StrictlyIncreasing(sorted)
    ensures StrictlyIncreasing(r)
    ensures forall y :: y in r <==> y in sorted || y == x
    ensures r == Insert(sorted, x)
  {
    var i := 0;
    while i < |sorted| && sorted[i] < x
      invariant 0 <= i <= |sorted|
      invariant forall k :: 0 <= k < i ==> sorted[k] < x
    {
      i := i + 1;
    }
    if i < |sorted| && sorted[i] == x {
      r := sorted;
    } else {
      r := sorted[..i] + [x] + sorted[i..];
      SpliceSorted(sorted, i, x);
    }
    SortedSetUnique(r, Insert(sorted, x));
  }

  /** Putting `x` between the values below it and those above it keeps a
      sorted list sorted and adds exactly `x`. */
  lemma SpliceSorted(sorted: seq<int>, i: nat, x: int)
    requires StrictlyIncreasing(sorted) && i <= |sorted|
    requires forall k :: 0 <= k < i ==> sorted[k] < x
    requires i < |sorted| ==> x < sorted[i]
    ensures StrictlyIncreasing(sorted[..i] + [x] + sorted[i..])
    ensures forall y :: y in sorted[..i] + [x] + sorted[i..] <==> y in sorted || y == x
  {
    var r := sorted[..i] + [x] + sorted[i..];
    assert forall k :: 0 <= k < i ==> r[k] == sorted[k];
    assert forall k :: i < k < |r| ==> r[k] == sorted[k - 1];
    forall k, l | 0 <= k < l < |r| ensures r[k] < r[l] {
      if l < i {
      } else if l == i {
      } else if k < i {
      } else if k == i {
      } else {
      }
    }
    assert sorted == sorted[..i] + sorted[i..];
  }

  /** The list `predict` aggregates over: a copy of the configured list with
      50 added, de-duplicated and sorted ascending. The configured list itself
      is a value here and is left as it was. */
  method NormalizePercentiles(configured: seq<int>) returns (ps: seq<int>)
    ensures StrictlyIncreasing(ps)
    ensures forall p :: p in ps <==> p in configured || p == Median
    ensures Median in ps
    ensures ps == SortedSet(configured + [Median])
  {
    var percentiles := configured + [Median];
    ps := [];
    for i := 0 to |percentiles|
      invariant ps == SortedSet(percentiles[..i])
    {
      assert percentiles[..i + 1][..i] == percentiles[..i];
      ps := InsertSorted(ps, percentiles[i]);
    }
    assert percentiles[..|percentiles|] == percentiles;
  }

  /** `key + "_" + str(p) if p != 50 else key`, for each percentile. */
  function ColumnLabels(key: string, ps: seq<int>): (cols: seq<string>)
    ensures |cols| == |ps|
    ensures forall i :: 0 <= i < |ps| ==> key <= cols[i]
  {
    seq(|ps|, i requires 0 <= i < |ps| => ColumnLabel(key, ps[i]))
  }

  function ColumnLabel(key: string, p: int): (col: string)
    ensures key <= col
    ensures col == key <==> p == Median
  {
    if p != Median then key + "_" + IntToString(p) else key
  }

  /** Distinct percentiles get distinct columns, and the median column is
      the bare key. */
  lemma ColumnLabelInjective(key: string, p: int, q: int)
    requires ColumnLabel(key, p) == ColumnLabel(key, q)
    ensures p == q
  {
    if p != Median && q != Median {
      var n := |key| + 1;
      assert ColumnLabel(key, p)[n..] == IntToString(p);
      assert ColumnLabel(key, q)[n..] == IntToString(q);
      IntToStringInjective(p, q);
    }
  }

  /** Over a normalised list the columns are pairwise distinct and one of
      them is the bare key, which holds the median. */
  lemma ColumnLabelsDistinct(key: string, ps: seq<int>)
    requires StrictlyIncreasing(ps)
    ensures forall i, j :: 0 <= i < j < |ps| ==> ColumnLabels(key, ps)[i] != ColumnLabels(key, ps)[j]
    ensures Median in ps ==> key in ColumnLabels(key, ps)
  {
    var cols := ColumnLabels(key, ps);
    forall i, j | 0 <= i < j < |ps| ensures cols[i] != cols[j] {
      if cols[i] == cols[j] {
        ColumnLabelInjective(key, ps[i], ps[j]);
      }
    }
    if Median in ps {
      var k :| 0 <= k < |ps| && ps[k] == Median;
      assert cols[k] == key;
    }
  }

  /** `_aggregate_full_predictions(array, label, percentiles)`: one column
      per percentile, labelled by `ColumnLabel`, holding
      `np.percentile(array, p, axis=0)`; that statistic is the parameter
      `pct`. */
  function AggregateColumns(key: string, draws: Matrix, ps: seq<int>,
                            pct: (Matrix, int) -> seq<real>): (cols: Dict<seq<real>>)
    ensures |cols| == |ps|
  {
    seq(|ps|, j requires 0 <= j < |ps| => (ColumnLabel(key, ps[j]), pct(draws, ps[j])))
  }

  /** `pd.concat(predicted_dict, axis=1)` with the outer level dropped: the
      aggregated columns of every key, key after key. */
  function Aggregated(pred: Dict<Matrix>, ps: seq<int>, pct: (Matrix, int) -> seq<real>): (out: Dict<seq<real>>)
    decreases |pred|
  {
    if pred == [] then []
    else
      var n := |pred| - 1;
      Aggregated(pred[..n], ps, pct) + AggregateColumns(pred[n].0, pred[n].1, ps, pct)
  }

  /** The aggregated frame has `|ps|` columns per key, and column
      `i * |ps| + j` is percentile `ps[j]` of key `i`, labelled by it. */
  lemma {:induction false} AggregatedAt(pred: Dict<Matrix>, ps: seq<int>, pct: (Matrix, int) -> seq<real>,
                                        i: nat, j: nat)
    requires i < |pred| && j < |ps|
    ensures |Aggregated(pred, ps, pct)| == |pred| * |ps|
    ensures i * |ps| + j < |pred| * |ps|
    ensures Aggregated(pred, ps, pct)[i * |ps| + j] == (ColumnLabel(pred[i].0, ps[j]), pct(pred[i].1, ps[j]))
  {
    var n := |pred| - 1;
    var m := |ps|;
    var init := Aggregated(pred[..n], ps, pct);
    AggregatedLength(pred[..n], ps, pct);
    assert |init| == n * m;
    assert (n + 1) * m == n * m + m;
    if i == n {
      assert i * m + j == |init| + j;
    } else {
      assert pred[..n][i] == pred[i];
      AggregatedAt(pred[..n], ps, pct, i, j);
      assert i * m + j < n * m;
    }
  }

  lemma {:induction false} AggregatedLength(pred: Dict<Matrix>, ps: seq<int>, pct: (Matrix, int) -> seq<real>)
    ensures |Aggregated(pred, ps, pct)| == |pred| * |ps|
    decreases |pred|
  {
    if pred != [] {
      var n := |pred| - 1;
      AggregatedLength(pred[..n], ps, pct);
      assert (n + 1) * |ps| == n * |ps| + |ps|;
    }
  }

  /** With 50 among the percentiles every key's median column is in the
      aggregated frame under the bare key: `predict` always reports the
      median. */
  lemma MedianColumns(pred: Dict<Matrix>, ps: seq<int>, pct: (Matrix, int) -> seq<real>)
    requires Median in ps
    ensures forall i :: 0 <= i < |pred| ==> (pred[i].0, pct(pred[i].1, Median)) in Aggregated(pred, ps, pct)
  {
    var j :| 0 <= j < |ps| && ps[j] == Median;
    forall i | 0 <= i < |pred| ensures (pred[i].0, pct(pred[i].1, Median)) in Aggregated(pred, ps, pct) {
      AggregatedAt(pred, ps, pct, i, j);
    }
  }
}