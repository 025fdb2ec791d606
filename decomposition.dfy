/** The arithmetic of `_predict` after the window is fixed: the trend from
    the level knots, one seasonal part per seasonality computed from that
    seasonality's slice of the coefficient rows, their sum, the optional
    noise, and the output dictionary. Reals are exact here, so the
    additivity of the prediction holds exactly. */
module Decomposition {
  import opened Wrappers
  import opened PyText
  import opened PyList
  import opened PyDict
  import opened Tensors
  import opened Training
  import opened Window
  import Layout
  import Posterior

  /** The posterior parameter names `_predict` reads; their string values are
      defined in the constants module, which is not part of this model. */
  datatype ParamNames = ParamNames(levelKnot: string, obsScale: string, coefficientsKnot: string)

  /** Functions from modules that are not part of this model, and the
      Student-t draw. Only their output shapes are known. */
  datatype Helpers = Helpers(
    // sandwich_kernel(tp, knots_tp)
    sandwichKernel: (seq<real>, seq<real>) -> Matrix,
    // gauss_kernel(tp, knots_tp, rho)
    gaussKernel: (seq<real>, seq<real>, real) -> Matrix,
    // the values of the columns make_fourier_series_df adds for seasonality
    // s of order k, shifted by `shift`, on a frame of n rows: cos1, sin1, ...
    fourier: (int, int, int, nat) -> Matrix,
    // nct.rvs(...) of size (rows, cols)
    noise: (nat, nat) -> Matrix)

  ghost predicate HelpersOk(h: Helpers) {
    && KernelsOk(h)
    && FourierOk(h)
    && (forall rows, cols :: IsMatrix(h.noise(rows, cols), rows, cols))
  }

  /** A kernel has one row per time point and one column per knot. */
  ghost predicate KernelsOk(h: Helpers) {
    && (forall x, k :: IsMatrix(h.sandwichKernel(x, k), |x|, |k|))
    && (forall x, k, rho :: IsMatrix(h.gaussKernel(x, k, rho), |x|, |k|))
  }

  /** The Fourier terms of order `k` are `2 * k` columns of `n` rows. */
  ghost predicate FourierOk(h: Helpers) {
    forall s, k, shift, n :: IsMatrix(h.fourier(s, k, shift, n), n, if k <= 0 then 0 else 2 * k)
  }

  /** The model attributes `_predict` reads. */
  datatype PredictState = PredictState(
    seasonality: seq<int>,
    fsOrder: seq<int>,
    regressorColGp: seq<seq<string>>,
    regressorCol: seq<string>,
    trainingMeta: Option<TrainingMeta>,
    knotsTpLevel: seq<real>,
    knotsTpCoefficients: seq<real>,
    rhoCoefficients: real)

  /** What `_set_seasonality_attributes` and `_set_training_df_meta` leave behind. */
  predicate StateOk(st: PredictState) {
    && |st.fsOrder| == |st.seasonality|
    && st.regressorColGp == Layout.Groups(st.seasonality, st.fsOrder)
    && st.regressorCol == Concat(st.regressorColGp)
    && (st.trainingMeta.Some? ==> ValidMeta(st.trainingMeta.value))
  }

  /** `self._seasonality and self._regressor_col` */
  predicate Active(st: PredictState) {
    |st.seasonality| > 0 && |st.regressorCol| > 0
  }

  /** `np.matmul(a, b.transpose(1, 0))`: entry `(i, t)` is the dot product of
      row `i` of `a` with row `t` of `b`. */
  function MatMulT(a: Matrix, b: Matrix, k: nat): (c: Matrix)
    requires Width(a, k) && Width(b, k)
    ensures IsMatrix(c, |a|, |b|)
    ensures forall i, t :: 0 <= i < |a| && 0 <= t < |b| ==> c[i][t] == Dot(a[i], b[t])
  {
    seq(|a|, i requires 0 <= i < |a| => seq(|b|, t requires 0 <= t < |b| => Dot(a[i], b[t])))
  }

  /** `coef` of shape (S, R, T). */
  predicate Block(coef: seq<Matrix>, S: nat, R: nat, T: nat) {
    |coef| == S && forall s :: 0 <= s < S ==> IsMatrix(coef[s], R, T)
  }

  /** One sample's seasonal term at time `t`: the coefficient rows
      `pos, pos + 1, ...` at `t` times the group's regressor values `x` at `t`. */
  function GroupTerm(c: Matrix, pos: nat, x: seq<real>, t: nat): real
    requires pos + |x| <= |c|
    requires forall r :: pos <= r < pos + |x| ==> t < |c[r]|
    decreases |x|
  {
    if x == [] then 0.0
    else GroupTerm(c, pos, x[..|x| - 1], t) + c[pos + |x| - 1][t] * x[|x| - 1]
  }

  /** `np.sum(coef[..., pos:pos + L, :] * x.transpose(1, 0), axis=-2)` for the
      regressor matrix `x` of shape (T, L). */
  function GroupPart(coef: seq<Matrix>, S: nat, R: nat, T: nat, pos: nat, x: Matrix): (part: Matrix)
    requires Block(coef, S, R, T) && |x| == T
    requires forall t :: 0 <= t < T ==> pos + |x[t]| <= R
    ensures IsMatrix(part, S, T)
  {
    seq(S, s requires 0 <= s < S =>
      seq(T, t requires 0 <= t < T => GroupTerm(coef[s], pos, x[t], t)))
  }

  /** Every group's slice `[pos, pos + len(cols))` lies within the R coefficient rows. */
  predicate SlicesFit(gp: seq<seq<string>>, R: nat) {
    forall g :: 0 <= g < |gp| ==> Offset(gp, g) + |gp[g]| <= R
  }

  /** Regressor matrices of the groups, one row per time, one column per regressor of the group. */
  predicate RegressorsFit(xs: seq<Matrix>, gp: seq<seq<string>>, T: nat) {
    |xs| == |gp| && forall g :: 0 <= g < |gp| ==> IsMatrix(xs[g], T, |gp[g]|)
  }

  /** The seasonal part of every group, group `g` reading the coefficient
      rows from `Offset(gp, g)` on. */
  function Parts(coef: seq<Matrix>, S: nat, R: nat, T: nat, gp: seq<seq<string>>, xs: seq<Matrix>): (parts: seq<Matrix>)
    requires Block(coef, S, R, T) && SlicesFit(gp, R) && RegressorsFit(xs, gp, T)
    ensures |parts| == |gp|
    ensures forall g :: 0 <= g < |gp| ==> IsMatrix(parts[g], S, T)
  {
    seq(|gp|, g requires 0 <= g < |gp| => GroupPart(coef, S, R, T, Offset(gp, g), xs[g]))
  }

  /** `total_seas_regression`: zeros of shape (S, T) with every part added. */
  function Total(parts: seq<Matrix>, S: nat, T: nat): (total: Matrix)
    requires forall g :: 0 <= g < |parts| ==> IsMatrix(parts[g], S, T)
    ensures IsMatrix(total, S, T)
  {
    if parts == [] then Zeros(S, T)
    else Add(Total(parts[..|parts| - 1], S, T), parts[|parts| - 1], T)
  }

  /** The sum over all parts of entry `(s, t)`. */
  function SumAt(parts: seq<Matrix>, S: nat, T: nat, s: nat, t: nat): real
    requires forall g :: 0 <= g < |parts| ==> IsMatrix(parts[g], S, T)
    requires s < S && t < T
  {
    if parts == [] then 0.0
    else
      var last := parts[|parts| - 1];
      assert IsMatrix(last, S, T);
      assert |last[s]| == T;
      SumAt(parts[..|parts| - 1], S, T, s, t) + last[s][t]
  }

  /** The accumulated total is the sum of the parts, entry by entry. */
  lemma {:induction false} TotalAt(parts: seq<Matrix>, S: nat, T: nat, s: nat, t: nat)
    requires forall g :: 0 <= g < |parts| ==> IsMatrix(parts[g], S, T)
    requires s < S && t < T
    ensures Total(parts, S, T)[s][t] == SumAt(parts, S, T, s, t)
  {
    if parts != [] {
      TotalAt(parts[..|parts| - 1], S, T, s, t);
    }
  }

  /** `'seasonality_{}'.format(s)` */
  function SeasonalKey(s: int): string {
    "seasonality_" + IntToString(s)
  }

  lemma SeasonalKeyInjective(a: int, b: int)
    requires SeasonalKey(a) == SeasonalKey(b)
    ensures a == b
  {
    assert SeasonalKey(a)[12..] == IntToString(a);
    assert SeasonalKey(b)[12..] == IntToString(b);
    IntToStringInjective(a, b);
  }

  /** The items assigned to `seas_decomp`, in loop order. */
  function SeasonalItems(seasonality: seq<int>, parts: seq<Matrix>): (items: Dict<Matrix>)
    requires |parts| <= |seasonality|
    ensures |items| == |parts|
    ensures forall g :: 0 <= g < |parts| ==> items[g] == (SeasonalKey(seasonality[g]), parts[g])
  {
    seq(|parts|, g requires 0 <= g < |parts| => (SeasonalKey(seasonality[g]), parts[g]))
  }

  /** The loop of `_predict` over `_regressor_col_gp`: `pos` advances by each
      group's width, each group's part is stored under its seasonality's key
      and added to the total. */
  method AccumulateSeasonal(coef: seq<Matrix>, S: nat, R: nat, T: nat, gp: seq<seq<string>>,
                            seasonality: seq<int>, xs: seq<Matrix>)
    returns (total: Matrix, seasDecomp: Dict<Matrix>)
    requires Block(coef, S, R, T) && SlicesFit(gp, R) && RegressorsFit(xs, gp, T)
    requires |seasonality| == |gp|
    ensures total == Total(Parts(coef, S, R, T, gp, xs), S, T)
    ensures seasDecomp == FromItems(SeasonalItems(seasonality, Parts(coef, S, R, T, gp, xs)))
  {
    ghost var parts := Parts(coef, S, R, T, gp, xs);
    ghost var items := SeasonalItems(seasonality, parts);
    var pos := 0;
    total := Zeros(S, T);
    seasDecomp := [];
    for idx := 0 to |gp|
      invariant pos == Offset(gp, idx)
      invariant total == Total(parts[..idx], S, T)
      invariant seasDecomp == FromItems(items[..idx])
    {
      var cols := gp[idx];
      var seasRegression := GroupPart(coef, S, R, T, pos, xs[idx]);
      seasDecomp := Put(seasDecomp, SeasonalKey(seasonality[idx]), seasRegression);
      pos := pos + |cols|;
      total := Add(total, seasRegression, T);
      TotalStep(parts, S, T, idx);
      FromItemsStep(items, idx);
    }
    assert parts[..|gp|] == parts;
    assert items[..|gp|] == items;
  }

  lemma TotalStep(parts: seq<Matrix>, S: nat, T: nat, i: nat)
    requires forall g :: 0 <= g < |parts| ==> IsMatrix(parts[g], S, T)
    requires i < |parts|
    ensures Total(parts[..i + 1], S, T) == Add(Total(parts[..i], S, T), parts[i], T)
  {
    assert parts[..i + 1][..i] == parts[..i];
  }

  lemma FromItemsStep<V>(items: Dict<V>, i: nat)
    requires i < |items|
    ensures FromItems(items[..i + 1]) == Put(FromItems(items[..i]), items[i].0, items[i].1)
  {
    assert items[..i + 1][..i] == items[..i];
  }

  /** The sum of one sample's terms over consecutive groups is its term over
      their concatenated regressor values. */
  lemma {:induction false} GroupTermSplit(c: Matrix, pos: nat, x: seq<real>, y: seq<real>, t: nat)
    requires pos + |x| + |y| <= |c|
    requires forall r :: pos <= r < pos + |x| + |y| ==> t < |c[r]|
    ensures GroupTerm(c, pos, x + y, t) == GroupTerm(c, pos, x, t) + GroupTerm(c, pos + |x|, y, t)
  {
    if y != [] {
      var y' := y[..|y| - 1];
      GroupTermSplit(c, pos, x, y', t);
      assert (x + y)[..|x + y| - 1] == x + y';
    } else {
      assert x + y == x;
    }
  }

  lemma SplitAfter(c: Matrix, before: seq<real>, x: seq<real>, t: nat)
    requires |before| + |x| <= |c|
    requires forall r :: 0 <= r < |before| + |x| ==> t < |c[r]|
    ensures GroupTerm(c, 0, before + x, t) == GroupTerm(c, 0, before, t) + GroupTerm(c, |before|, x, t)
  {
    GroupTermSplit(c, 0, before, x, t);
  }

  /** The row at time `t` of all regressor matrices side by side. */
  function RowAt(xs: seq<Matrix>, gp: seq<seq<string>>, T: nat, t: nat): (rows: seq<seq<real>>)
    requires RegressorsFit(xs, gp, T) && t < T
    ensures |rows| == |gp| && forall g :: 0 <= g < |gp| ==> rows[g] == xs[g][t]
  {
    seq(|gp|, g requires 0 <= g < |gp| => xs[g][t])
  }

  /** The first `k` parts summed at `(s, t)` are the regression over the
      regressors of the first `k` groups, laid side by side. */
  lemma {:induction false} PrefixRegression(coef: seq<Matrix>, S: nat, R: nat, T: nat,
                                            gp: seq<seq<string>>, xs: seq<Matrix>, s: nat, t: nat, k: nat)
    requires Block(coef, S, R, T) && SlicesFit(gp, R) && RegressorsFit(xs, gp, T)
    requires s < S && t < T && k <= |gp|
    ensures |Concat(RowAt(xs, gp, T, t)[..k])| == Offset(gp, k)
    ensures Offset(gp, k) <= R
    ensures SumAt(Parts(coef, S, R, T, gp, xs)[..k], S, T, s, t)
              == GroupTerm(coef[s], 0, Concat(RowAt(xs, gp, T, t)[..k]), t)
  {
    var rows := RowAt(xs, gp, T, t);
    ConcatLength(rows[..k]);
    OffsetOfPrefix(rows, rows[..k], k);
    OffsetSameLengths(rows, gp, k);
    if k > 0 {
      OffsetMonotone(gp, k - 1, k);
      PrefixRegression(coef, S, R, T, gp, xs, s, t, k - 1);
      var parts := Parts(coef, S, R, T, gp, xs);
      var before := Concat(rows[..k - 1]);
      var pos := Offset(gp, k - 1);
      SumAtStep(parts, S, T, s, t, k);
      PartEntry(coef, S, R, T, gp, xs, s, t, k - 1);
      ConcatStep(rows, k);
      SplitAfter(coef[s], before, rows[k - 1], t);
    } else {
      assert Offset(gp, 0) == 0;
    }
  }

  /** Summing one more part adds its entry. */
  lemma SumAtStep(parts: seq<Matrix>, S: nat, T: nat, s: nat, t: nat, k: nat)
    requires forall g :: 0 <= g < |parts| ==> IsMatrix(parts[g], S, T)
    requires s < S && t < T && 0 < k <= |parts|
    ensures IsMatrix(parts[k - 1], S, T) && |parts[k - 1][s]| == T
    ensures SumAt(parts[..k], S, T, s, t) == SumAt(parts[..k - 1], S, T, s, t) + parts[k - 1][s][t]
  {
    assert parts[..k][..k - 1] == parts[..k - 1];
  }

  /** Entry `(s, t)` of group `g`'s part. */
  lemma PartEntry(coef: seq<Matrix>, S: nat, R: nat, T: nat,
                  gp: seq<seq<string>>, xs: seq<Matrix>, s: nat, t: nat, g: nat)
    requires Block(coef, S, R, T) && SlicesFit(gp, R) && RegressorsFit(xs, gp, T)
    requires s < S && t < T && g < |gp|
    ensures Offset(gp, g) + |xs[g][t]| <= R
    ensures Parts(coef, S, R, T, gp, xs)[g][s][t] == GroupTerm(coef[s], Offset(gp, g), xs[g][t], t)
  {
  }

  lemma ConcatStep<T>(rows: seq<seq<T>>, k: nat)
    requires 0 < k <= |rows|
    ensures Concat(rows[..k]) == Concat(rows[..k - 1]) + rows[k - 1]
  {
    assert rows[..k][..k - 1] == rows[..k - 1];
  }

  /** Grouped regression equals the full regression: because the slices
      `[Offset(gp, g), Offset(gp, g) + len(gp[g]))` tile the coefficient rows
      in order, the seasonal total at `(s, t)` is coefficient row `r` times
      regressor `r`, summed over all regressors of all groups. */
  lemma TotalIsFullRegression(coef: seq<Matrix>, S: nat, R: nat, T: nat,
                              gp: seq<seq<string>>, xs: seq<Matrix>, s: nat, t: nat)
    requires Block(coef, S, R, T) && SlicesFit(gp, R) && RegressorsFit(xs, gp, T)
    requires s < S && t < T
    ensures |Concat(RowAt(xs, gp, T, t))| == Offset(gp, |gp|) <= R
    ensures Total(Parts(coef, S, R, T, gp, xs), S, T)[s][t] == GroupTerm(coef[s], 0, Concat(RowAt(xs, gp, T, t)), t)
  {
    var parts := Parts(coef, S, R, T, gp, xs);
    var rows := RowAt(xs, gp, T, t);
    PrefixRegression(coef, S, R, T, gp, xs, s, t, |gp|);
    assert parts[..|gp|] == parts;
    assert rows[..|gp|] == rows;
    TotalAt(parts, S, T, s, t);
  }

  /** The values `_predict` computes before building its output. */
  datatype Components = Components(trend: Matrix, parts: seq<Matrix>, noise: Matrix, prediction: Matrix)

  /** A rank-2 array with `k` columns; any other shape is refused the way a
      failing `matmul` refuses it. */
  function MatrixOf(a: NdArray, k: nat): (r: Result<Matrix>)
    ensures r.Ok? ==> Width(r.value, k) && a.Node? && |r.value| == |a.items|
    ensures r.Err? ==> r.error == ValueError
  {
    match AsMatrix(a)
    case None => Err(ValueError)
    case Some(m) => if Width(m, k) then Ok(m) else Err(ValueError)
  }

  /** The regressor values of every group after `_make_seasonal_regressors(df, shift=start)`. */
  function Regressors(st: PredictState, h: Helpers, start: nat, T: nat): (xs: seq<Matrix>)
    requires StateOk(st) && FourierOk(h)
    ensures RegressorsFit(xs, st.regressorColGp, T)
  {
    var xs := seq(|st.seasonality|, g requires 0 <= g < |st.seasonality| =>
                    h.fourier(st.seasonality[g], st.fsOrder[g], start, T));
    assert forall g :: 0 <= g < |st.seasonality| ==>
             |st.regressorColGp[g]| == |Layout.GroupColumns(st.seasonality[g], st.fsOrder[g])|;
    xs
  }

  /** The seasonal parts: none unless there are seasonalities and regressors;
      a missing coefficient-knot array is `None` in `matmul`, which raises
      ValueError, as do shapes that do not line up. */
  function SeasonalParts(st: PredictState, h: Helpers, names: ParamNames, est: Posterior.Samples,
                         grid: seq<real>, start: nat, S: nat): (r: Result<seq<Matrix>>)
    requires StateOk(st) && HelpersOk(h)
    ensures r.Ok? ==> |r.value| == (if Active(st) then |st.seasonality| else 0)
    ensures r.Ok? ==> forall g :: 0 <= g < |r.value| ==> IsMatrix(r.value[g], S, |grid|)
    ensures Active(st) && names.coefficientsKnot !in est ==> r == Err(ValueError)
  {
    if !Active(st) then Ok([])
    else if names.coefficientsKnot !in est then Err(ValueError)
    else
      match As3D(est[names.coefficientsKnot])
      case None => Err(ValueError)
      case Some(coefKnot) =>
        var kc := |st.knotsTpCoefficients|;
        var R := if coefKnot == [] then 0 else |coefKnot[0]|;
        if |coefKnot| != S || (exists s :: 0 <= s < S && !IsMatrix(coefKnot[s], R, kc))
           || !SlicesFit(st.regressorColGp, R) then Err(ValueError)
        else
          var T := |grid|;
          var kernelCoefficients := h.gaussKernel(grid, st.knotsTpCoefficients, st.rhoCoefficients);
          var coef := seq(S, s requires 0 <= s < S => MatMulT(coefKnot[s], kernelCoefficients, kc));
          Ok(Parts(coef, S, R, T, st.regressorColGp, Regressors(st, h, start, T)))
  }

  /** Everything `_predict` computes, or the first error it raises. */
  function PredictComponents(st: PredictState, h: Helpers, names: ParamNames, est: Posterior.Samples,
                             predDates: Option<seq<int>>, includeError: bool): (r: Result<Components>)
    requires StateOk(st) && HelpersOk(h)
    // an empty posterior has no first value
    ensures |est| == 0 ==> r == Err(IndexError)
    // the window errors come first
    ensures |est| > 0 && WindowStart(st.trainingMeta, predDates).Err? ==>
              r == Err(WindowStart(st.trainingMeta, predDates).error)
    ensures |est| > 0 && WindowStart(st.trainingMeta, predDates).Ok? && names.obsScale !in est ==>
              r == Err(AttributeError)
    // the samples are the rows of the level-knot array
    ensures r.Ok? ==> names.levelKnot in est && est[names.levelKnot].Node?
                      && |r.value.trend| == |est[names.levelKnot].items|
    // on success every matrix has one row per sample and one column per predicted row ...
    ensures r.Ok? ==>
              var T := |predDates.value|;
              var S := |r.value.trend|;
              && IsMatrix(r.value.prediction, S, T)
              && |r.value.parts| == (if Active(st) then |st.seasonality| else 0)
              && (forall g :: 0 <= g < |r.value.parts| ==> IsMatrix(r.value.parts[g], S, T))
              && IsMatrix(r.value.noise, S, T)
              && IsMatrix(r.value.trend, S, T)
    // ... and the prediction is the trend plus the seasonal parts (plus the
    // noise when requested)
    ensures r.Ok? ==>
              var T := |predDates.value|;
              var S := |r.value.trend|;
              forall s, t :: 0 <= s < S && 0 <= t < T ==>
                r.value.prediction[s][t]
                  == r.value.trend[s][t] + SumAt(r.value.parts, S, T, s, t)
                     + (if includeError then r.value.noise[s][t] else 0.0)
  {
    if |est| == 0 then Err(IndexError)
    else
      var start :- WindowStart(st.trainingMeta, predDates);
      var T := |predDates.value|;
      var grid := TimeGrid(start, T, st.trainingMeta.value.dfLength);
      var kernelLevel := h.sandwichKernel(grid, st.knotsTpLevel);
      if names.obsScale !in est then Err(AttributeError)
      else if names.levelKnot !in est then Err(ValueError)
      else
        var levKnot :- MatrixOf(est[names.levelKnot], |st.knotsTpLevel|);
        var S := |levKnot|;
        var trend := MatMulT(levKnot, kernelLevel, |st.knotsTpLevel|);
        var parts :- SeasonalParts(st, h, names, est, grid, start, S);
        var total := Total(parts, S, T);
        var noise := if includeError then h.noise(S, T) else Zeros(S, T);
        var withoutNoise := Add(trend, total, T);
        var prediction := if includeError then Add(withoutNoise, noise, T) else withoutNoise;
        assert forall s, t :: 0 <= s < S && 0 <= t < T ==> total[s][t] == SumAt(parts, S, T, s, t) by {
          forall s, t | 0 <= s < S && 0 <= t < T ensures total[s][t] == SumAt(parts, S, T, s, t) {
            TotalAt(parts, S, T, s, t);
          }
        }
        Ok(Components(trend, parts, noise, prediction))
  }

  const PredictionKey: string := "prediction"
  const TrendKey: string := "trend"

  /** The output dictionary: `{'prediction': ...}`, or with `decompose`
      `{'prediction': ..., 'trend': ...}` updated with `seas_decomp`. */
  function Output(seasonality: seq<int>, c: Components, decompose: bool): Dict<Matrix>
    requires |c.parts| <= |seasonality|
  {
    if decompose then
      Update([(PredictionKey, c.prediction), (TrendKey, c.trend)], FromItems(SeasonalItems(seasonality, c.parts)))
    else [(PredictionKey, c.prediction)]
  }

  /** `_predict` as a whole. */
  function PredictDecomp(st: PredictState, h: Helpers, names: ParamNames, est: Posterior.Samples,
                         predDates: Option<seq<int>>, includeError: bool, decompose: bool): (r: Result<Dict<Matrix>>)
    requires StateOk(st) && HelpersOk(h)
    ensures r.Ok? <==> PredictComponents(st, h, names, est, predDates, includeError).Ok?
    ensures r.Err? ==> r.error == PredictComponents(st, h, names, est, predDates, includeError).error
    ensures r.Ok? && !decompose ==> Keys(r.value) == [PredictionKey]
  {
    var c :- PredictComponents(st, h, names, est, predDates, includeError);
    Ok(Output(st.seasonality, c, decompose))
  }

  /** Every entry of the output, decomposed or not, has the prediction's
      shape: one row per sample, one column per predicted row. */
  lemma OutputShapes(seasonality: seq<int>, c: Components, decompose: bool, S: nat, T: nat)
    requires |c.parts| <= |seasonality|
    requires IsMatrix(c.prediction, S, T) && IsMatrix(c.trend, S, T)
    requires forall g :: 0 <= g < |c.parts| ==> IsMatrix(c.parts[g], S, T)
    ensures forall i :: 0 <= i < |Output(seasonality, c, decompose)| ==> IsMatrix(Output(seasonality, c, decompose)[i].1, S, T)
  {
    if decompose {
      var items := SeasonalItems(seasonality, c.parts);
      var shaped := (m: Matrix) => IsMatrix(m, S, T);
      UpdateValues([], items, shaped);
      UpdateValues([(PredictionKey, c.prediction), (TrendKey, c.trend)], FromItems(items), shaped);
    }
  }

  /** The output of a successful `_predict` starts with `prediction`,
      decomposed or not. */
  lemma PredictionFirst(st: PredictState, h: Helpers, names: ParamNames, est: Posterior.Samples,
                        predDates: Option<seq<int>>, includeError: bool, decompose: bool)
    requires StateOk(st) && HelpersOk(h)
    requires PredictDecomp(st, h, names, est, predDates, includeError, decompose).Ok?
    ensures var out := PredictDecomp(st, h, names, est, predDates, includeError, decompose).value;
            |out| > 0 && out[0].0 == PredictionKey
  {
    var c := PredictComponents(st, h, names, est, predDates, includeError).value;
    if decompose {
      var base := [(PredictionKey, c.prediction), (TrendKey, c.trend)];
      UpdateKeepsKeys(base, FromItems(SeasonalItems(st.seasonality, c.parts)));
    }
  }

  /** A successful `_predict` had a level-knot array in the posterior, and
      every output entry has one row per entry of that array and one
      column per predicted row. */
  lemma PredictShapes(st: PredictState, h: Helpers, names: ParamNames, est: Posterior.Samples,
                      predDates: Option<seq<int>>, includeError: bool, decompose: bool)
    requires StateOk(st) && HelpersOk(h)
    requires PredictDecomp(st, h, names, est, predDates, includeError, decompose).Ok?
    ensures names.levelKnot in est && est[names.levelKnot].Node? && predDates.Some?
    ensures var out := PredictDecomp(st, h, names, est, predDates, includeError, decompose).value;
            forall i :: 0 <= i < |out| ==> IsMatrix(out[i].1, |est[names.levelKnot].items|, |predDates.value|)
  {
    var c := PredictComponents(st, h, names, est, predDates, includeError).value;
    OutputShapes(st.seasonality, c, decompose, |c.trend|, |predDates.value|);
  }

  predicate Distinct(xs: seq<int>) {
    forall i, j :: 0 <= i < j < |xs| ==> xs[i] != xs[j]
  }

  /** Distinct seasonalities give distinct keys. */
  lemma SeasonalItemsDistinct(seasonality: seq<int>, parts: seq<Matrix>)
    requires |parts| <= |seasonality| && Distinct(seasonality)
    ensures DistinctKeys(SeasonalItems(seasonality, parts))
  {
    var items := SeasonalItems(seasonality, parts);
    forall i, j | 0 <= i < j < |items| ensures items[i].0 != items[j].0 {
      if items[i].0 == items[j].0 {
        SeasonalKeyInjective(seasonality[i], seasonality[j]);
      }
    }
  }

  /** No seasonal key is `prediction` or `trend`. */
  lemma SeasonalKeysNew(seasonality: seq<int>, parts: seq<Matrix>, base: Dict<Matrix>)
    requires |parts| <= |seasonality|
    requires Keys(base) == [PredictionKey, TrendKey]
    ensures forall i :: 0 <= i < |parts| ==> SeasonalItems(seasonality, parts)[i].0 !in Keys(base)
  {
    forall i | 0 <= i < |parts| ensures SeasonalKey(seasonality[i]) !in Keys(base) {
      assert SeasonalKey(seasonality[i])[0] == 's';
    }
  }

  /** With pairwise distinct seasonalities, `seas_decomp` holds every part
      under its own key, in seasonality order, and the decomposed output is
      prediction, trend, then those parts. */
  lemma OutputItems(seasonality: seq<int>, c: Components)
    requires |c.parts| <= |seasonality| && Distinct(seasonality)
    ensures Output(seasonality, c, true) ==
              [(PredictionKey, c.prediction), (TrendKey, c.trend)] + SeasonalItems(seasonality, c.parts)
  {
    var items := SeasonalItems(seasonality, c.parts);
    var base := [(PredictionKey, c.prediction), (TrendKey, c.trend)];
    SeasonalItemsDistinct(seasonality, c.parts);
    FromDistinctItems(items);
    assert Keys(base) == [PredictionKey, TrendKey];
    SeasonalKeysNew(seasonality, c.parts, base);
    UpdateAppends(base, items);
  }

  /** With `decompose` and distinct seasonalities the output has the keys
      `prediction`, `trend` and one `seasonality_{s}` per seasonality (none
      without seasonal regressors), and the prediction equals the trend plus
      the seasonal entries (plus the noise when `include_error` is set). */
  lemma DecompositionAdds(st: PredictState, h: Helpers, names: ParamNames, est: Posterior.Samples,
                          predDates: Option<seq<int>>, includeError: bool, c: Components)
    requires StateOk(st) && HelpersOk(h) && Distinct(st.seasonality)
    requires PredictComponents(st, h, names, est, predDates, includeError) == Ok(c)
    ensures PredictDecomp(st, h, names, est, predDates, includeError, true) == Ok(Output(st.seasonality, c, true))
    ensures |c.parts| == if Active(st) then |st.seasonality| else 0
    ensures var out := Output(st.seasonality, c, true);
            && Keys(out) == [PredictionKey, TrendKey] + SeasonalKeys(st.seasonality, |c.parts|)
            && out[0].1 == c.prediction && out[1].1 == c.trend
            && (forall g :: 0 <= g < |c.parts| ==> out[2 + g].1 == c.parts[g])
            && forall s, t :: 0 <= s < |c.trend| && 0 <= t < |predDates.value| ==>
                 out[0].1[s][t] == out[1].1[s][t] + SumAt(c.parts, |c.trend|, |predDates.value|, s, t)
                                   + (if includeError then c.noise[s][t] else 0.0)
  {
    OutputDecomposed(st.seasonality, c);
  }

  /** The keys `seasonality_{s}` of the first `n` seasonalities. */
  function SeasonalKeys(seasonality: seq<int>, n: nat): (ks: seq<string>)
    requires n <= |seasonality|
    ensures |ks| == n && forall g :: 0 <= g < n ==> ks[g] == SeasonalKey(seasonality[g])
  {
    seq(n, g requires 0 <= g < n => SeasonalKey(seasonality[g]))
  }

  /** The decomposed output lists prediction, trend and the parts under their keys. */
  lemma OutputDecomposed(seasonality: seq<int>, c: Components)
    requires |c.parts| <= |seasonality| && Distinct(seasonality)
    ensures var out := Output(seasonality, c, true);
            && Keys(out) == [PredictionKey, TrendKey] + SeasonalKeys(seasonality, |c.parts|)
            && out[0].1 == c.prediction && out[1].1 == c.trend
            && (forall g :: 0 <= g < |c.parts| ==> out[2 + g].1 == c.parts[g])
  {
    OutputItems(seasonality, c);
    ItemsLayout(seasonality, c, Output(seasonality, c, true));
  }

  /** Prediction and trend followed by the seasonal items: the keys and
      values by position. */
  lemma ItemsLayout(seasonality: seq<int>, c: Components, out: Dict<Matrix>)
    requires |c.parts| <= |seasonality|
    requires out == [(PredictionKey, c.prediction), (TrendKey, c.trend)] + SeasonalItems(seasonality, c.parts)
    ensures Keys(out) == [PredictionKey, TrendKey] + SeasonalKeys(seasonality, |c.parts|)
    ensures out[0].1 == c.prediction && out[1].1 == c.trend
    ensures forall g :: 0 <= g < |c.parts| ==> out[2 + g].1 == c.parts[g]
  {
    var items := SeasonalItems(seasonality, c.parts);
    var ks := [PredictionKey, TrendKey] + SeasonalKeys(seasonality, |c.parts|);
    forall g | 0 <= g < |c.parts| ensures out[2 + g] == items[g] {
    }
    forall i | 0 <= i < |out| ensures Keys(out)[i] == ks[i] {
      if i >= 2 {
        assert out[i] == items[i - 2];
      }
    }
  }

}
