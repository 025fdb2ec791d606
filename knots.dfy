/** The integer bookkeeping of `_set_kernel_matrix`: the step between knots
    for the level and coefficient terms, and the normalised time points of
    the observations and of the knots. */
module Knots {
  import opened Wrappers

  /** `math.ceil` */
  function Ceil(x: real): (c: int)
    ensures x <= c as real < x + 1.0
  {
    -((-x).Floor)
  }

  /** Python 3 `round` on a number: the nearest integer, with halves going
      to the even neighbour. */
  function PyRound(x: real): (r: int)
    ensures x - 0.5 <= r as real <= x + 0.5
    ensures (r as real == x - 0.5 || r as real == x + 0.5) ==> r % 2 == 0
  {
    var f := x.Floor;
    var d := x - f as real;
    if d < 0.5 then f
    else if d > 0.5 then f + 1
    else if f % 2 == 0 then f
    else f + 1
  }

  /** The knot step: an explicit knot length is used as it is; otherwise
      `ceil(cutoff / round(1 / span))`. A zero span, or a span whose
      reciprocal rounds to 0, divides by zero. */
  function KnotStep(knotLength: Option<int>, span: real, cutoff: nat): (r: Result<int>)
    ensures knotLength.Some? ==> r == Ok(knotLength.value)
    ensures knotLength.None? && span == 0.0 ==> r == Err(ZeroDivisionError)
    ensures knotLength.None? && span != 0.0 ==> (r.Err? <==> PyRound(1.0 / span) == 0)
    ensures r.Err? ==> r.error == ZeroDivisionError
  {
    match knotLength
    case Some(l) => Ok(l)
    case None =>
      if span == 0.0 then Err(ZeroDivisionError)
      else
        var windows := PyRound(1.0 / span);
        if windows == 0 then Err(ZeroDivisionError)
        else Ok(Ceil(cutoff as real / windows as real))
  }

  /** With a positive number of windows `k = round(1 / span)`, the step is
      the smallest one for which `k` windows cover all `cutoff` points. */
  lemma KnotStepCovers(span: real, cutoff: nat)
    requires span != 0.0 && PyRound(1.0 / span) > 0
    ensures var k := PyRound(1.0 / span);
            var step := KnotStep(None, span, cutoff).value;
            && k * step >= cutoff
            && k * (step - 1) < cutoff
  {
    CeilDivBounds(cutoff, PyRound(1.0 / span));
  }

  lemma CeilDivBounds(c: int, k: int)
    requires k > 0
    ensures k * Ceil(c as real / k as real) >= c
    ensures k * (Ceil(c as real / k as real) - 1) < c
  {
    var kr := k as real;
    var q := c as real / kr;
    var s := Ceil(q);
    assert q * kr == c as real;
    MulMonotone(q, s as real, kr);
    assert s as real - 1.0 < q;
    MulMonotone(s as real - 1.0, q, kr);
    assert (s as real - 1.0) * kr < q * kr;
    assert (k * s) as real == s as real * kr;
    assert (k * (s - 1)) as real == (s as real - 1.0) * kr;
    assert (k * (s - 1)) as real < c as real;
  }

  lemma MulMonotone(a: real, b: real, k: real)
    requires a <= b && k > 0.0
    ensures a * k <= b * k
    ensures a < b ==> a * k < b * k
  {
  }

  lemma DivStrictMonotone(a: real, b: real, d: real)
    requires a < b && d > 0.0
    ensures a / d < b / d
  {
    assert b / d - a / d == (b - a) / d;
    assert (b - a) / d > 0.0;
  }

  /** `a / n` element by element. It is built one element at a time, so
      a proof sees a quotient only where it asks for one (`RatiosAt`). */
  function Ratios(a: seq<int>, n: nat): (r: seq<real>)
    requires n > 0
    ensures |r| == |a|
    decreases |a|
  {
    if a == [] then [] else Ratios(a[..|a| - 1], n) + [a[|a| - 1] as real / n as real]
  }

  lemma {:induction false} RatiosAt(a: seq<int>, n: nat, j: nat)
    requires n > 0 && j < |a|
    ensures Ratios(a, n)[j] == a[j] as real / n as real
    decreases |a|
  {
    if j < |a| - 1 {
      RatiosAt(a[..|a| - 1], n, j);
    }
  }

  /** The quotients of `1 .. n` by `n` lie in `(0, 1]`. */
  lemma UnitRatio(i: nat, n: nat)
    requires i < n
    ensures 0.0 < (i + 1) as real / n as real <= 1.0
  {
    DivStrictMonotone(0.0, (i + 1) as real, n as real);
    if i + 1 < n {
      DivStrictMonotone((i + 1) as real, n as real, n as real);
    }
  }

  /** `np.arange(1, n + 1) / n`: observation `i` sits at `(i + 1) / n`. */
  function TimePoints(n: nat): (tp: seq<real>)
    requires n > 0
    ensures |tp| == n
    ensures forall i :: 0 <= i < n ==> 0.0 < tp[i] <= 1.0
    ensures tp[n - 1] == 1.0
  {
    var a := seq(n, i => i + 1);
    var tp := Ratios(a, n);
    forall i | 0 <= i < n ensures 0.0 < tp[i] <= 1.0 {
      RatiosAt(a, n, i);
      UnitRatio(i, n);
    }
    RatiosAt(a, n, n - 1);
    tp
  }

  lemma TimePointAt(n: nat, i: nat)
    requires i < n
    ensures TimePoints(n)[i] == (i + 1) as real / n as real
  {
    RatiosAt(seq(n, i => i + 1), n, i);
  }

  /** The time points are strictly increasing. */
  lemma TimePointsIncreasing(n: nat, i: nat, j: nat)
    requires n > 0 && i < j < n
    ensures TimePoints(n)[i] < TimePoints(n)[j]
  {
    TimePointAt(n, i);
    TimePointAt(n, j);
    DivStrictMonotone((i + 1) as real, (j + 1) as real, n as real);
  }

  /** `(1 + knots_idx) / n`: the normalised time of each knot index. */
  function KnotTimePoints(idx: seq<int>, n: nat): (tp: seq<real>)
    requires n > 0
    ensures |tp| == |idx|
    ensures forall j :: 0 <= j < |idx| && 0 <= idx[j] < n ==> tp[j] == TimePoints(n)[idx[j]]
  {
    var a := seq(|idx|, j requires 0 <= j < |idx| => 1 + idx[j]);
    var tp := Ratios(a, n);
    forall j | 0 <= j < |idx| && 0 <= idx[j] < n ensures tp[j] == TimePoints(n)[idx[j]] {
      RatiosAt(a, n, j);
      TimePointAt(n, idx[j]);
    }
    tp
  }

  /** `max()` of a non-empty date column. */
  function MaxOf(s: seq<int>): (m: int)
    requires |s| > 0
    ensures m in s && forall j :: 0 <= j < |s| ==> s[j] <= m
  {
    if |s| == 1 then s[0]
    else
      var rest := MaxOf(s[1..]);
      if s[0] >= rest then s[0] else rest
  }

  /** `min()` of a non-empty date column. */
  function MinOf(s: seq<int>): (m: int)
    requires |s| > 0
    ensures m in s && forall j :: 0 <= j < |s| ==> m <= s[j]
  {
    if |s| == 1 then s[0]
    else
      var rest := MinOf(s[1..]);
      if s[0] <= rest then s[0] else rest
  }

  /** `[x for x in knotDates if x <= hi and x >= lo]`: the knot dates
      within the window, in their order and with their repeats. */
  function InWindow(knotDates: seq<int>, lo: int, hi: int): (r: seq<int>)
    ensures forall x :: x in r <==> x in knotDates && lo <= x <= hi
    ensures forall x :: multiset(r)[x] == (if lo <= x <= hi then multiset(knotDates)[x] else 0)
    ensures |r| <= |knotDates|
  {
    if knotDates == [] then []
    else
      var rest := InWindow(knotDates[1..], lo, hi);
      assert knotDates == [knotDates[0]] + knotDates[1..];
      if lo <= knotDates[0] <= hi then [knotDates[0]] + rest else rest
  }

  /** The filter of a concatenation is the concatenation of the filters:
      the comprehension read as a loop appending each date in the window,
      so the kept dates come in the order of the knot dates. */
  lemma {:induction false} InWindowConcat(a: seq<int>, b: seq<int>, lo: int, hi: int)
    ensures InWindow(a + b, lo, hi) == InWindow(a, lo, hi) + InWindow(b, lo, hi)
  {
    if a == [] {
      assert a + b == b;
    } else {
      var head := if lo <= a[0] <= hi then [a[0]] else [];
      assert a + b == [a[0]] + (a[1..] + b);
      InWindowFirst(a[0], a[1..] + b, lo, hi);
      InWindowConcat(a[1..], b, lo, hi);
      assert a == [a[0]] + a[1..];
      InWindowFirst(a[0], a[1..], lo, hi);
      assert InWindow(a + b, lo, hi) == head + (InWindow(a[1..], lo, hi) + InWindow(b, lo, hi));
    }
  }

  /** One step of the filter: the first date, if kept, then the rest. */
  lemma InWindowFirst(x: int, s: seq<int>, lo: int, hi: int)
    ensures InWindow([x] + s, lo, hi) == (if lo <= x <= hi then [x] else []) + InWindow(s, lo, hi)
  {
  }

  /** Ascending knot dates stay ascending once filtered. */
  lemma {:induction false} InWindowSorted(knotDates: seq<int>, lo: int, hi: int)
    requires forall a, b :: 0 <= a < b < |knotDates| ==> knotDates[a] < knotDates[b]
    ensures forall a, b :: 0 <= a < b < |InWindow(knotDates, lo, hi)| ==>
              InWindow(knotDates, lo, hi)[a] < InWindow(knotDates, lo, hi)[b]
  {
    if knotDates != [] {
      var rest := InWindow(knotDates[1..], lo, hi);
      assert forall a, b :: 0 <= a < b < |knotDates[1..]| ==> knotDates[1..][a] < knotDates[1..][b] by {
        forall a, b | 0 <= a < b < |knotDates[1..]| ensures knotDates[1..][a] < knotDates[1..][b] {
          assert knotDates[1..][a] == knotDates[a + 1] && knotDates[1..][b] == knotDates[b + 1];
        }
      }
      InWindowSorted(knotDates[1..], lo, hi);
      assert knotDates == [knotDates[0]] + knotDates[1..];
      forall x | x in rest ensures knotDates[0] < x {
        var j :| 0 <= j < |knotDates[1..]| && knotDates[1..][j] == x;
        assert knotDates[j + 1] == x;
      }
      if lo <= knotDates[0] <= hi {
        var r := [knotDates[0]] + rest;
        assert r == InWindow(knotDates, lo, hi);
        forall a, b | 0 <= a < b < |r| ensures r[a] < r[b] {
          assert r[b] == rest[b - 1] && rest[b - 1] in rest;
          if a > 0 {
            assert r[a] == rest[a - 1];
            assert rest[a - 1] < rest[b - 1];
          } else {
            assert knotDates[0] < rest[b - 1];
          }
        }
      }
    }
  }
}
