/** The Fourier regressor layout built by `_set_seasonality_attributes`:
    column names grouped per seasonality, the flat column list, and the
    per-regressor prior lists. */
module Layout {
  import opened Wrappers
  import opened PyText
  import opened PyList

  /** `'seas{}_fs_cos{}'.format(s, i)` */
  function CosName(s: int, i: int): string {
    "seas" + IntToString(s) + "_fs_cos" + IntToString(i)
  }

  /** `'seas{}_fs_sin{}'.format(s, i)` */
  function SinName(s: int, i: int): string {
    "seas" + IntToString(s) + "_fs_sin" + IntToString(i)
  }

  /** The columns of seasonality `s` with Fourier order `order`, in the order
      the inner loop appends them: cos1, sin1, ..., cos{order}, sin{order}.
      A zero or negative order gives no column. */
  function GroupColumns(s: int, order: int): (cols: seq<string>)
    ensures |cols| == if order <= 0 then 0 else 2 * order
  {
    if order <= 0 then [] else GroupColumns(s, order - 1) + [CosName(s, order), SinName(s, order)]
  }

  /** Column `2(i-1)` of a group is the i-th cosine and column `2i-1` the i-th sine. */
  lemma {:induction false} GroupColumnsAt(s: int, order: int, i: int)
    requires 1 <= i <= order
    ensures GroupColumns(s, order)[2 * (i - 1)] == CosName(s, i)
    ensures GroupColumns(s, order)[2 * i - 1] == SinName(s, i)
  {
    if i < order {
      GroupColumnsAt(s, order - 1, i);
    }
  }

  /** The inner loop of `_set_seasonality_attributes`: `fs_cols` for
      seasonality `s`, built over `i` in `range(1, order + 1)`. */
  method FourierColumns(s: int, order: int) returns (fsCols: seq<string>)
    ensures fsCols == GroupColumns(s, order)
  {
    fsCols := [];
    var i := 1;
    while i <= order
      invariant 1 <= i <= if order >= 1 then order + 1 else 1
      invariant fsCols == GroupColumns(s, i - 1)
    {
      fsCols := fsCols + [CosName(s, i), SinName(s, i)];
      i := i + 1;
    }
  }

  /** `_regressor_col_gp`: one column group per seasonality. */
  function Groups(seasonality: seq<int>, orders: seq<int>): (gp: seq<seq<string>>)
    requires |orders| == |seasonality|
    ensures |gp| == |seasonality|
  {
    seq(|seasonality|, i requires 0 <= i < |seasonality| => GroupColumns(seasonality[i], orders[i]))
  }

  /** One more seasonality adds its group at the end. */
  lemma GroupsStep(seasonality: seq<int>, orders: seq<int>, i: nat)
    requires |orders| == |seasonality| && i < |seasonality|
    ensures Groups(seasonality[..i + 1], orders[..i + 1])
              == Groups(seasonality[..i], orders[..i]) + [GroupColumns(seasonality[i], orders[i])]
  {
  }

  /** A per-seasonality value repeated over that seasonality's `2 * order`
      regressors (`[v] * order * 2`, appended group after group). */
  function Spread<T>(values: seq<T>, orders: seq<int>): seq<T>
    requires |values| >= |orders|
  {
    Concat(SpreadGroups(values, orders))
  }

  function SpreadGroups<T>(values: seq<T>, orders: seq<int>): (gs: seq<seq<T>>)
    requires |values| >= |orders|
    ensures |gs| == |orders|
  {
    seq(|orders|, i requires 0 <= i < |orders| => Repeat(values[i], orders[i] * 2))
  }

  /** One more seasonality appends its value `2 * order` times. */
  lemma SpreadStep<T>(values: seq<T>, orders: seq<int>, i: nat)
    requires i < |orders| && |values| > i
    ensures Spread(values, orders[..i + 1]) == Spread(values, orders[..i]) + Repeat(values[i], orders[i] * 2)
  {
    assert SpreadGroups(values, orders[..i + 1]) == SpreadGroups(values, orders[..i]) + [Repeat(values[i], orders[i] * 2)];
    ConcatSnoc(SpreadGroups(values, orders[..i]), Repeat(values[i], orders[i] * 2));
  }

  /** Sum of `2 * order` over the non-negative orders. */
  function RegressorCount(orders: seq<int>): nat
  {
    if orders == [] then 0
    else RegressorCount(orders[..|orders| - 1]) + (if orders[|orders| - 1] <= 0 then 0 else 2 * orders[|orders| - 1])
  }

  /** The five attributes `_set_seasonality_attributes` resets and fills. */
  datatype RegressorLayout = RegressorLayout(
    regressorColGp: seq<seq<string>>,
    regressorCol: seq<string>,
    poolingLoc: seq<real>,
    poolingScale: seq<real>,
    knotScale: seq<real>)

  /** The layout the loops build; a scale list shorter than the seasonality
      list fails on `[idx]` with IndexError. */
  function SeasonalityLayout(seasonality: seq<int>, orders: seq<int>,
                             poolingScale: seq<real>, knotScale: seq<real>): (r: Result<RegressorLayout>)
    requires |orders| == |seasonality|
    ensures r.Err? <==> |poolingScale| < |seasonality| || |knotScale| < |seasonality|
    ensures r.Err? ==> r.error == IndexError
  {
    if |poolingScale| < |seasonality| || |knotScale| < |seasonality| then Err(IndexError)
    else
      var gp := Groups(seasonality, orders);
      Ok(RegressorLayout(gp, Concat(gp),
                         Spread(Repeat(0.0, |seasonality|), orders),
                         Spread(poolingScale, orders),
                         Spread(knotScale, orders)))
  }

  lemma {:induction false} SpreadOffsets<T>(values: seq<T>, seasonality: seq<int>, orders: seq<int>, g: nat)
    requires |orders| == |seasonality| && |values| >= |orders| && g <= |orders|
    ensures Offset(SpreadGroups(values, orders), g) == Offset(Groups(seasonality, orders), g)
  {
    OffsetSameLengths(SpreadGroups(values, orders), Groups(seasonality, orders), g);
  }

  lemma {:induction false} GroupsOffsetIsCount(seasonality: seq<int>, orders: seq<int>)
    requires |orders| == |seasonality|
    ensures Offset(Groups(seasonality, orders), |orders|) == RegressorCount(orders)
  {
    if orders != [] {
      var n := |orders| - 1;
      GroupsOffsetIsCount(seasonality[..n], orders[..n]);
      OffsetOfPrefix(Groups(seasonality, orders), Groups(seasonality[..n], orders[..n]), n);
    }
  }

  /** The flat column list and all three prior lists have one entry per
      regressor, and `_num_of_regressors` is the sum of `2 * order`. */
  lemma LayoutLengths(seasonality: seq<int>, orders: seq<int>, poolingScale: seq<real>, knotScale: seq<real>)
    requires |orders| == |seasonality|
    requires SeasonalityLayout(seasonality, orders, poolingScale, knotScale).Ok?
    ensures var l := SeasonalityLayout(seasonality, orders, poolingScale, knotScale).value;
            && |l.regressorCol| == RegressorCount(orders)
            && |l.poolingLoc| == |l.regressorCol|
            && |l.poolingScale| == |l.regressorCol|
            && |l.knotScale| == |l.regressorCol|
  {
    var gp := Groups(seasonality, orders);
    ConcatLength(gp);
    GroupsOffsetIsCount(seasonality, orders);
    ConcatLength(SpreadGroups(Repeat(0.0, |seasonality|), orders));
    SpreadOffsets(Repeat(0.0, |seasonality|), seasonality, orders, |orders|);
    ConcatLength(SpreadGroups(poolingScale, orders));
    SpreadOffsets(poolingScale, seasonality, orders, |orders|);
    ConcatLength(SpreadGroups(knotScale, orders));
    SpreadOffsets(knotScale, seasonality, orders, |orders|);
  }

  /** Regressor `j` of group `g` is column `Offset(gp, g) + j` of the flat
      list `_regressor_col`: the flat list is the groups concatenated in order. */
  lemma LayoutColumnAt(seasonality: seq<int>, orders: seq<int>, poolingScale: seq<real>, knotScale: seq<real>,
                       g: nat, j: nat)
    requires |orders| == |seasonality|
    requires SeasonalityLayout(seasonality, orders, poolingScale, knotScale).Ok?
    requires g < |seasonality| && j < |GroupColumns(seasonality[g], orders[g])|
    ensures var l := SeasonalityLayout(seasonality, orders, poolingScale, knotScale).value;
            var p := Offset(l.regressorColGp, g) + j;
            && p < |l.regressorCol|
            && l.regressorCol[p] == l.regressorColGp[g][j] == GroupColumns(seasonality[g], orders[g])[j]
  {
    ConcatAt(Groups(seasonality, orders), g, j);
  }

  /** At the same position the prior lists hold pooling location 0.0 and the
      pooling scale and knot scale of seasonality `g`. */
  lemma LayoutPriorsAt(seasonality: seq<int>, orders: seq<int>, poolingScale: seq<real>, knotScale: seq<real>,
                       g: nat, j: nat)
    requires |orders| == |seasonality|
    requires SeasonalityLayout(seasonality, orders, poolingScale, knotScale).Ok?
    requires g < |seasonality| && j < |GroupColumns(seasonality[g], orders[g])|
    ensures var l := SeasonalityLayout(seasonality, orders, poolingScale, knotScale).value;
            var p := Offset(l.regressorColGp, g) + j;
            && p < |l.poolingLoc| && l.poolingLoc[p] == 0.0
            && p < |l.poolingScale| && l.poolingScale[p] == poolingScale[g]
            && p < |l.knotScale| && l.knotScale[p] == knotScale[g]
  {
    SpreadAt(Repeat(0.0, |seasonality|), seasonality, orders, g, j);
    SpreadAt(poolingScale, seasonality, orders, g, j);
    SpreadAt(knotScale, seasonality, orders, g, j);
  }

  /** A spread list holds value `g` at every position of group `g`. */
  lemma SpreadAt<T>(values: seq<T>, seasonality: seq<int>, orders: seq<int>, g: nat, j: nat)
    requires |orders| == |seasonality| && |values| >= |orders|
    requires g < |seasonality| && j < |GroupColumns(seasonality[g], orders[g])|
    ensures Offset(Groups(seasonality, orders), g) + j < |Spread(values, orders)|
    ensures Spread(values, orders)[Offset(Groups(seasonality, orders), g) + j] == values[g]
  {
    var gs := SpreadGroups(values, orders);
    SpreadOffsets(values, seasonality, orders, g);
    assert |gs[g]| == |GroupColumns(seasonality[g], orders[g])|;
    ConcatAt(gs, g, j);
  }

  /** Every pooling location is 0.0. */
  lemma PoolingLocZero(seasonality: seq<int>, orders: seq<int>, poolingScale: seq<real>, knotScale: seq<real>)
    requires |orders| == |seasonality|
    requires SeasonalityLayout(seasonality, orders, poolingScale, knotScale).Ok?
    ensures var l := SeasonalityLayout(seasonality, orders, poolingScale, knotScale).value;
            forall p :: 0 <= p < |l.poolingLoc| ==> l.poolingLoc[p] == 0.0
  {
    var l := SeasonalityLayout(seasonality, orders, poolingScale, knotScale).value;
    forall p | 0 <= p < |l.poolingLoc| ensures l.poolingLoc[p] == 0.0 {
      var zs := SpreadGroups(Repeat(0.0, |seasonality|), orders);
      ConcatOwner(zs, p);
      var g :| 0 <= g < |zs| && Offset(zs, g) <= p < Offset(zs, g) + |zs[g]|;
      ConcatAt(zs, g, p - Offset(zs, g));
    }
  }
}
