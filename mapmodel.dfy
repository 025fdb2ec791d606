/** `KTRLiteMAP`: the KTRLite model with a point (MAP) estimate. `fit`
    keeps each estimated parameter under a new leading axis of length 1,
    so `_predict` sees a single sample, and `predict` flattens each output
    entry into one value per predicted row. */
module MapModel {
  import opened Wrappers
  import opened PyDict
  import opened Tensors
  import opened Posterior
  import opened Decomposition
  import opened Training
  import opened DataInput
  import opened Model

  /** Every estimate has a leading axis of length 1. */
  predicate SingleDraw(est: Samples) {
    forall p :: p in est ==> LeadingDim(est[p]) == Ok(1)
  }

  /** `v.flatten()` of every entry, keys kept. */
  function FlattenEach(pred: Dict<Matrix>): (out: Dict<seq<real>>)
    ensures Keys(out) == Keys(pred)
  {
    seq(|pred|, i requires 0 <= i < |pred| => (pred[i].0, Flatten(pred[i].1)))
  }

  /** `predict` of a fitted model: `_predict` on the MAP posterior without
      noise, every entry flattened. */
  function MapPrediction(st: PredictState, h: Helpers, names: ParamNames, est: Samples,
                         predDates: Option<seq<int>>, decompose: bool): (r: Result<Dict<seq<real>>>)
    requires StateOk(st) && HelpersOk(h)
    ensures var p := PredictDecomp(st, h, names, est, predDates, false, decompose);
            && (r.Ok? <==> p.Ok?)
            && (p.Err? ==> r == Err(p.error))
            && (r.Ok? ==> Keys(r.value) == Keys(p.value))
  {
    var pred :- PredictDecomp(st, h, names, est, predDates, false, decompose);
    Ok(FlattenEach(pred))
  }

  /** On a single-draw posterior each flattened entry is the one row of the
      corresponding `_predict` entry: one value per predicted row. */
  lemma MapPredictionRows(st: PredictState, h: Helpers, names: ParamNames, est: Samples,
                          predDates: Option<seq<int>>, decompose: bool)
    requires StateOk(st) && HelpersOk(h) && SingleDraw(est)
    requires MapPrediction(st, h, names, est, predDates, decompose).Ok?
    ensures var out := MapPrediction(st, h, names, est, predDates, decompose).value;
            var pred := PredictDecomp(st, h, names, est, predDates, false, decompose).value;
            && predDates.Some?
            && |out| == |pred|
            && forall i :: 0 <= i < |out| ==> |out[i].1| == |predDates.value| && out[i].1 == pred[i].1[0]
  {
    PredictShapes(st, h, names, est, predDates, false, decompose);
    assert |est[names.levelKnot].items| == 1;
  }

  /** The loop of `predict` that flattens every entry in place. */
  method FlattenAll(pred: Dict<Matrix>) returns (out: Dict<seq<real>>)
    ensures out == FlattenEach(pred)
  {
    out := [];
    for i := 0 to |pred|
      invariant out == FlattenEach(pred[..i])
    {
      out := out + [(pred[i].0, Flatten(pred[i].1))];
    }
    assert pred[..|pred|] == pred;
  }

  class KTRLiteMAP {
    const base: BaseKTRLite
    // `_aggregate_posteriors['map']`
    var mapPosterior: Samples

    /** The MAP posterior holds single-draw estimates. */
    predicate Valid()
      reads this`mapPosterior
    {
      SingleDraw(mapPosterior)
    }

    /** `__init__` after the base model's: an empty MAP posterior. */
    constructor(base: BaseKTRLite)
      ensures this.base == base && mapPosterior == map[] && Valid()
    {
      this.base := base;
      mapPosterior := map[];
    }

    /** `_set_map_posterior`: every sampling parameter's estimate under a
        new leading axis; a parameter missing from the posterior raises
        KeyError and leaves the MAP posterior as it was. */
    method SetMapPosterior() returns (o: Outcome)
      requires Valid()
      modifies this`mapPosterior
      ensures Valid()
      ensures var m := MapPosterior(base.posteriorSamples, base.modelParamNames);
              && (o.Pass? <==> m.Ok?)
              && (m.Err? ==> o == Fail(m.error) && mapPosterior == old(mapPosterior))
              && (m.Ok? ==> mapPosterior == m.value)
    {
      var m := WrapEach(base.posteriorSamples, base.modelParamNames);
      if m.Err? {
        return Fail(m.error);
      }
      mapPosterior := m.value;
      return Pass;
    }

    /** `fit`: the base model's fit, then the MAP posterior. */
    method Fit(df: Frame, h: Helpers, fh: FitHelpers) returns (o: Outcome)
      requires base.Valid() && FourierOk(h) && Valid()
      requires df.dateCol.Some? && df.responseCol.Some? ==> |df.dateCol.value| == |df.responseCol.value|
      modifies base`response, base`numOfObservations, base`trainingDfMeta, base`responseMean,
               base`responseSd, base`isValidResponse, base`whichValidResponse, base`numOfValidResponse,
               base`regressorMatrix, base`knotsTpLevel, base`levelKnotDates, base`kernelLevel,
               base`numKnotsLevel, base`knotsTpCoefficients, base`coefKnotDates, base`kernelCoefficients,
               base`numKnotsCoefficients, base`modelDataInput, base`posteriorSamples, this`mapPosterior
      ensures base.Valid() && Valid()
      ensures df.responseCol.None? ==> o == Fail(KeyError)
      ensures o.Pass? ==>
                && base.DynamicFrom(df) && base.KnotsFrom(old(base.levelKnotDates), df.dateCol.value, h, fh)
                && Gather(base.consts.mapper, base.Attributes()) == Ok(base.modelDataInput)
                && base.posteriorSamples == fh.estimator(base.modelParamNames, base.modelDataInput)
                && MapPosterior(base.posteriorSamples, base.modelParamNames) == Ok(mapPosterior)
    {
      o := base.Fit(df, h, fh);
      if o.Fail? {
        return;
      }
      o := SetMapPosterior();
    }

    /** `predict`: PredictionException when not fitted; otherwise
        `_predict` on the MAP posterior without noise, each entry
        flattened. */
    method Predict(predDates: Option<seq<int>>, decompose: bool, h: Helpers) returns (r: Result<Dict<seq<real>>>)
      requires base.Valid() && HelpersOk(h)
      ensures !base.IsFitted() ==> r == Err(PredictionException(NotFittedMessage))
      ensures base.IsFitted() ==> r == MapPrediction(base.State(), h, base.consts.names, mapPosterior, predDates, decompose)
    {
      if !base.IsFitted() {
        return Err(PredictionException(NotFittedMessage));
      }
      var predicted := base.Predict(mapPosterior, predDates, false, decompose, h);
      if predicted.Err? {
        return Err(predicted.error);
      }
      var out := FlattenAll(predicted.value);
      return Ok(out);
    }
  }
}
