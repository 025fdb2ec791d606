/** `KTRLiteFull`: the full-Bayesian KTRLite model. It predicts once per
    posterior draw, or per bootstrap draw of the posterior, and aggregates
    each output entry into one column per percentile, the median always
    among them. */
module FullModel {
  import opened Wrappers
  import opened PyList
  import opened PyDict
  import opened Tensors
  import opened Posterior
  import opened Percentiles
  import opened Decomposition
  import opened Model

  /** `predict` of a fitted model: the posterior, or its bootstrap draw when
      more than one draw is configured; `_predict` with the noise; then every
      entry aggregated over the normalised percentiles. `pct` stands for
      `np.percentile`. */
  function FullPrediction(st: PredictState, h: Helpers, names: ParamNames, posterior: Samples,
                          nDraws: int, numSamples: int, draws: seq<int>,
                          predDates: Option<seq<int>>, decompose: bool,
                          configured: seq<int>, pct: (Matrix, int) -> seq<real>): (r: Result<Dict<seq<real>>>)
    requires StateOk(st) && HelpersOk(h)
    requires UsesBootstrap(nDraws) && numSamples > 0 ==> ValidDraws(draws, nDraws, numSamples)
    // a failed bootstrap is raised as it is
    ensures UsesBootstrap(nDraws) && Bootstrap(posterior, nDraws, numSamples, draws).Err? ==>
              r == Err(Bootstrap(posterior, nDraws, numSamples, draws).error)
    // otherwise the prediction fails exactly when `_predict` with the noise
    // on the samples used (the bootstrap draw or the posterior) does, and on
    // success it is that prediction aggregated over the sorted, distinct
    // configured percentiles and the median
    ensures var e := if UsesBootstrap(nDraws) then Bootstrap(posterior, nDraws, numSamples, draws) else Ok(posterior);
            e.Ok? ==>
              var p := PredictDecomp(st, h, names, e.value, predDates, true, decompose);
              && (r.Ok? <==> p.Ok?)
              && (p.Err? ==> r == Err(p.error))
              && (p.Ok? ==> r.value == Aggregated(p.value, SortedSet(configured + [Median]), pct))
  {
    var est :- if UsesBootstrap(nDraws) then Bootstrap(posterior, nDraws, numSamples, draws) else Ok(posterior);
    var pred :- PredictDecomp(st, h, names, est, predDates, true, decompose);
    Ok(Aggregated(pred, SortedSet(configured + [Median]), pct))
  }

  /** The aggregated prediction always has the median of `prediction` under
      the bare key; without decompose its columns are exactly the
      prediction's percentile columns, in ascending percentile order. */
  lemma FullPredictionColumns(st: PredictState, h: Helpers, names: ParamNames, posterior: Samples,
                              nDraws: int, numSamples: int, draws: seq<int>,
                              predDates: Option<seq<int>>, decompose: bool,
                              configured: seq<int>, pct: (Matrix, int) -> seq<real>)
    requires StateOk(st) && HelpersOk(h)
    requires UsesBootstrap(nDraws) && numSamples > 0 ==> ValidDraws(draws, nDraws, numSamples)
    requires FullPrediction(st, h, names, posterior, nDraws, numSamples, draws, predDates, decompose, configured, pct).Ok?
    ensures var out := FullPrediction(st, h, names, posterior, nDraws, numSamples, draws, predDates, decompose,
                                      configured, pct).value;
            && PredictionKey in Keys(out)
            && (!decompose ==> Keys(out) == ColumnLabels(PredictionKey, SortedSet(configured + [Median])))
  {
    var est := if UsesBootstrap(nDraws) then Bootstrap(posterior, nDraws, numSamples, draws).value else posterior;
    var pred := PredictDecomp(st, h, names, est, predDates, true, decompose).value;
    PredictionFirst(st, h, names, est, predDates, true, decompose);
    AggregatedKeys(pred, SortedSet(configured + [Median]), pct);
  }

  /** Aggregating a prediction whose first key is `prediction` over
      percentiles that include the median. */
  lemma AggregatedKeys(pred: Dict<Matrix>, ps: seq<int>, pct: (Matrix, int) -> seq<real>)
    requires |pred| > 0 && pred[0].0 == PredictionKey && Median in ps
    ensures PredictionKey in Keys(Aggregated(pred, ps, pct))
    ensures |pred| == 1 ==> Keys(Aggregated(pred, ps, pct)) == ColumnLabels(PredictionKey, ps)
  {
    var out := Aggregated(pred, ps, pct);
    MedianColumns(pred, ps, pct);
    assert (pred[0].0, pct(pred[0].1, Median)) in out;
    if |pred| == 1 {
      assert pred[..0] == [];
      assert Aggregated(pred[..0], ps, pct) == [];
      var cols := AggregateColumns(PredictionKey, pred[0].1, ps, pct);
      assert out == cols;
      forall j | 0 <= j < |ps| ensures Keys(out)[j] == ColumnLabels(PredictionKey, ps)[j] {
        assert cols[j].0 == ColumnLabel(PredictionKey, ps[j]);
      }
    }
  }

  /** The loop of `predict` over `predicted_dict.items()`, followed by the
      column-wise concatenation. */
  method AggregateEach(pred: Dict<Matrix>, ps: seq<int>, pct: (Matrix, int) -> seq<real>)
    returns (out: Dict<seq<real>>)
    ensures out == Aggregated(pred, ps, pct)
  {
    out := [];
    for i := 0 to |pred|
      invariant out == Aggregated(pred[..i], ps, pct)
    {
      assert pred[..i + 1][..i] == pred[..i];
      out := out + AggregateColumns(pred[i].0, pred[i].1, ps, pct);
    }
    assert pred[..|pred|] == pred;
  }

  class KTRLiteFull {
    const base: BaseKTRLite
    // the constructor's arguments
    const nBootstrapDrawsArg: Option<int>
    const predictionPercentilesArg: Option<seq<int>>
    // set by `_set_default_args`
    var predictionPercentiles: seq<int>
    var nBootstrapDraws: int

    /** `__init__` after the base model's: the arguments are stored and
        `_set_default_args` fills in the defaults. A `None` draw count is
        held as 0, which Python treats the same way (both are falsy). */
    constructor(base: BaseKTRLite, nBootstrapDraws: Option<int>, predictionPercentiles: Option<seq<int>>)
      ensures this.base == base
      ensures nBootstrapDrawsArg == nBootstrapDraws && predictionPercentilesArg == predictionPercentiles
      ensures this.predictionPercentiles == ConfiguredPercentiles(predictionPercentiles)
      ensures this.nBootstrapDraws == ConfiguredBootstrapDraws(nBootstrapDraws)
    {
      this.base := base;
      nBootstrapDrawsArg := nBootstrapDraws;
      predictionPercentilesArg := predictionPercentiles;
      this.predictionPercentiles := [];
      this.nBootstrapDraws := if nBootstrapDraws.Some? then nBootstrapDraws.value else 0;
      new;
      SetDefaultArgs();
    }

    /** `_set_default_args`: `[5, 95]` or a copy of the configured
        percentiles, and -1 draws for a falsy draw setting. */
    method SetDefaultArgs()
      modifies this`predictionPercentiles, this`nBootstrapDraws
      ensures predictionPercentiles == ConfiguredPercentiles(predictionPercentilesArg)
      ensures nBootstrapDrawsArg.None? || nBootstrapDrawsArg.value == 0 ==> nBootstrapDraws == -1
      ensures nBootstrapDrawsArg.Some? && nBootstrapDrawsArg.value != 0 ==> nBootstrapDraws == old(nBootstrapDraws)
    {
      if predictionPercentilesArg.None? {
        predictionPercentiles := DefaultPercentiles;
      } else {
        predictionPercentiles := predictionPercentilesArg.value;
      }
      if nBootstrapDrawsArg.None? || nBootstrapDrawsArg.value == 0 {
        nBootstrapDraws := -1;
      }
    }

    /** `predict`: PredictionException when not fitted; otherwise the
        bootstrap (given the estimator's sample count and the random
        draw), `_predict` with noise, the normalised percentiles and the
        aggregation of every entry, key after key. The configured
        percentile list is left as it was. */
    method Predict(predDates: Option<seq<int>>, decompose: bool, h: Helpers, numSamples: int, draws: seq<int>,
                   pct: (Matrix, int) -> seq<real>)
      returns (r: Result<Dict<seq<real>>>)
      requires base.Valid() && HelpersOk(h)
      requires UsesBootstrap(nBootstrapDraws) && numSamples > 0 ==> ValidDraws(draws, nBootstrapDraws, numSamples)
      ensures !base.IsFitted() ==> r == Err(PredictionException(NotFittedMessage))
      ensures base.IsFitted() ==>
                r == FullPrediction(base.State(), h, base.consts.names, base.posteriorSamples, nBootstrapDraws,
                                    numSamples, draws, predDates, decompose, predictionPercentiles, pct)
    {
      if !base.IsFitted() {
        return Err(PredictionException(NotFittedMessage));
      }
      var posterior := base.posteriorSamples;
      if UsesBootstrap(nBootstrapDraws) {
        var b := BootstrapEach(posterior, nBootstrapDraws, numSamples, draws);
        if b.Err? {
          return Err(b.error);
        }
        posterior := b.value;
      }
      var predicted := base.Predict(posterior, predDates, true, decompose, h);
      if predicted.Err? {
        return Err(predicted.error);
      }
      var pred := predicted.value;
      var ps := NormalizePercentiles(predictionPercentiles);
      var out := AggregateEach(pred, ps, pct);
      return Ok(out);
    }
  }
}
