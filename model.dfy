/** The KTRLite model objects. `BaseKTRLite` holds the attributes its
    methods set: the resolved arguments and regressor layout at
    construction, and the training metadata, response attributes, knots,
    estimator input and posterior samples during `fit`. The concrete
    models `KTRLiteFull` (module FullModel) and `KTRLiteMAP` (module
    MapModel) hold a base model and add their own state: the Python
    subclassing is modelled by composition. */
module Model {
  import opened Wrappers
  import opened PyList
  import opened PyDict
  import opened Tensors
  import opened Config
  import opened Layout
  import Knots
  import Response
  import opened Training
  import opened Window
  import opened DataInput
  import opened Posterior
  import Percentiles
  import opened Decomposition

  /** Names defined in the constants module, which is not part of this model. */
  datatype Constants = Constants(
    // the values of BaseSamplingParameters, then of RegressionSamplingParameters
    baseParams: seq<string>,
    regressionParams: seq<string>,
    // the members of DataInputMapper, in order
    mapper: seq<MapperKey>,
    // the three parameters `_predict` reads
    names: ParamNames)

  /** The functions `fit` calls that are not part of this model: the knot
      index helper, the time points of given knot dates, numpy's
      nan-statistics and the estimator. */
  datatype FitHelpers = FitHelpers(
    setKnotsTp: (int, nat) -> seq<nat>,
    // `(gap(start, d) + 1) / (gap(start, end) + 1)` for each knot date `d`,
    // the gaps counted by `get_gap_between_dates` at the frequency
    // `pd.infer_freq` finds in the date column (the second argument), or
    // the error those raise
    datedKnotsTp: (seq<int>, seq<int>) -> Result<seq<real>>,
    nanMean: Response.Column -> real,
    nanStd: Response.Column -> real,
    estimator: (seq<string>, map<string, PyValue>) -> Samples)

  /** The sandwich kernel of the training time points and the level knots. */
  function LevelKernel(h: Helpers, n: nat, knots: seq<real>): Matrix
    requires n > 0
  {
    h.sandwichKernel(Knots.TimePoints(n), knots)
  }

  /** The Gaussian kernel of the training time points and the coefficient knots. */
  function CoefficientKernel(h: Helpers, n: nat, knots: seq<real>, rho: real): Matrix
    requires n > 0
  {
    h.gaussKernel(Knots.TimePoints(n), knots, rho)
  }

  /** The attributes `_set_kernel_matrix` sets for one term: the knots,
      their kernel on the training time points and their number. */
  datatype TermKnots = TermKnots(knots: KnotSet, kernel: Matrix, count: nat)

  const NotFittedMessage: string := "Model is not fitted yet."

  /** What `_set_static_data_attributes` computes from the arguments:
      the resolved arguments, then the regressor layout. It succeeds
      exactly when both steps do, and fails with the first step's error. */
  function StaticAttributes(seasonality: Arg<int>, fsOrder: Arg<int>,
                            poolingScale: Arg<real>, knotScale: Arg<real>): (r: Result<(BaseArgs, RegressorLayout)>)
    ensures var ar := ResolveBaseArgs(seasonality, fsOrder, poolingScale, knotScale);
            && (ar.Err? ==> r == Err(ar.error))
            && (ar.Ok? ==> |ar.value.fsOrder| == |ar.value.seasonality|)
            && (ar.Ok? ==>
                  var lr := SeasonalityLayout(ar.value.seasonality, ar.value.fsOrder,
                                              ar.value.poolingScale, ar.value.knotScale);
                  && (lr.Err? ==> r == Err(lr.error) && r.error == IndexError)
                  && (lr.Ok? ==> r == Ok((ar.value, lr.value))))
  {
    var a :- ResolveBaseArgs(seasonality, fsOrder, poolingScale, knotScale);
    var l :- SeasonalityLayout(a.seasonality, a.fsOrder, a.poolingScale, a.knotScale);
    Ok((a, l))
  }

  /** The knots of one kernel. */
  datatype KnotSet = KnotSet(tp: seq<real>, dates: seq<int>)

  /** The knots `_set_kernel_matrix` places for one term: the step, the
      indices `set_knots_tp(step, n)`, their time points `(1 + idx) / n`
      and their dates `df[date_col].values[idx]`, which raises IndexError
      for an index past the end. */
  function PlaceKnots(knotLength: Option<int>, span: real, dates: seq<int>,
                      setKnotsTp: (int, nat) -> seq<nat>): (r: Result<KnotSet>)
    requires |dates| > 0
    ensures Knots.KnotStep(knotLength, span, |dates|).Err? ==>
              r == Err(Knots.KnotStep(knotLength, span, |dates|).error)
    ensures r.Ok? ==>
              var idx := setKnotsTp(Knots.KnotStep(knotLength, span, |dates|).value, |dates|);
              && |r.value.tp| == |idx| && |r.value.dates| == |idx|
              && forall j :: 0 <= j < |idx| ==>
                   && idx[j] < |dates|
                   && r.value.tp[j] == Knots.TimePoints(|dates|)[idx[j]]
                   && r.value.dates[j] == dates[idx[j]]
    ensures Knots.KnotStep(knotLength, span, |dates|).Ok? && r.Err? ==>
              var idx := setKnotsTp(Knots.KnotStep(knotLength, span, |dates|).value, |dates|);
              r.error == IndexError && exists j :: 0 <= j < |idx| && idx[j] >= |dates|
  {
    var step :- Knots.KnotStep(knotLength, span, |dates|);
    var idx := setKnotsTp(step, |dates|);
    if exists j :: 0 <= j < |idx| && idx[j] >= |dates| then Err(IndexError)
    else Ok(KnotSet(Knots.KnotTimePoints(idx, |dates|), seq(|idx|, j requires 0 <= j < |idx| => dates[idx[j]])))
  }

  /** The level knots of `_set_kernel_matrix`, by the knot dates `held`
      when it runs: with none, those `PlaceKnots` places by the step; with
      some, the held dates within the first and last training dates, at
      the time points `datedKnotsTp` gives them. */
  function LevelKnots(held: Option<seq<int>>, knotLength: Option<int>, span: real, dates: seq<int>,
                      fh: FitHelpers): (r: Result<KnotSet>)
    requires |dates| > 0
  {
    if held.None? then PlaceKnots(knotLength, span, dates, fh.setKnotsTp)
    else
      var kept := Knots.InWindow(held.value, Knots.MinOf(dates), Knots.MaxOf(dates));
      var tp :- fh.datedKnotsTp(kept, dates);
      Ok(KnotSet(tp, kept))
  }

  /** With knot dates held, the level knots are those of the held dates
      that lie between the earliest and the latest training date, in
      their order, and the knots fail exactly when their time points do. */
  lemma HeldKnotsInWindow(held: seq<int>, knotLength: Option<int>, span: real, dates: seq<int>, fh: FitHelpers)
    requires |dates| > 0
    ensures var r := LevelKnots(Some(held), knotLength, span, dates, fh);
            var kept := Knots.InWindow(held, Knots.MinOf(dates), Knots.MaxOf(dates));
            && (r.Ok? <==> fh.datedKnotsTp(kept, dates).Ok?)
            && (r.Ok? ==> r.value.dates == kept && r.value.tp == fh.datedKnotsTp(kept, dates).value)
            && forall x :: x in kept <==>
                 && x in held
                 && (exists i :: 0 <= i < |dates| && dates[i] <= x)
                 && (exists i :: 0 <= i < |dates| && x <= dates[i])
  {
  }

  /** The level knots of a fit that uses the knot dates configured at
      construction, `levelKnotDatesArg`, rather than those an earlier fit
      stored: what a re-fit evidently should do. */
  function IntendedLevelKnots(levelKnotDatesArg: Option<seq<int>>, knotLength: Option<int>, span: real,
                              dates: seq<int>, fh: FitHelpers): (r: Result<KnotSet>)
    requires |dates| > 0
  {
    LevelKnots(levelKnotDatesArg, knotLength, span, dates, fh)
  }

  /** Without configured knot dates, every level knot of the intended fit
      is a date of the frame being fitted, and there is one knot per
      index `set_knots_tp` gives, whatever was fitted before. */
  lemma IntendedKnotsInFrame(knotLength: Option<int>, span: real, dates: seq<int>, fh: FitHelpers)
    requires |dates| > 0
    requires IntendedLevelKnots(None, knotLength, span, dates, fh).Ok?
    ensures var k := IntendedLevelKnots(None, knotLength, span, dates, fh).value;
            && |k.dates| == |fh.setKnotsTp(Knots.KnotStep(knotLength, span, |dates|).value, |dates|)|
            && forall x :: x in k.dates ==> x in dates
  {
  }

  /** A re-fit as written: once a fit has stored knot dates, a later fit
      keeps only those of them within its own dates. On a frame that
      starts after every stored date, no level knot remains, while the
      intended fit places its knots on that frame. */
  lemma RefitLosesLevelKnots(stored: seq<int>, knotLength: Option<int>, span: real, dates: seq<int>,
                             fh: FitHelpers)
    requires |dates| > 0
    requires forall j :: 0 <= j < |stored| ==> stored[j] < Knots.MinOf(dates)
    ensures var r := LevelKnots(Some(stored), knotLength, span, dates, fh);
            r.Ok? ==> r.value.dates == []
  {
  }

  /** `df.filter(items=_regressor_col).values` after the Fourier columns of
      shift 0 are added: row `t` holds every group's regressor values at
      `t`, side by side, one per regressor column. */
  function FitRegressorMatrix(st: PredictState, h: Helpers, n: nat): (m: Matrix)
    requires StateOk(st) && FourierOk(h)
    ensures IsMatrix(m, n, |st.regressorCol|)
  {
    var xs := Regressors(st, h, 0, n);
    var m := seq(n, t requires 0 <= t < n => Concat(RowAt(xs, st.regressorColGp, n, t)));
    forall t | 0 <= t < n ensures |m[t]| == |st.regressorCol| {
      RowWidth(st, xs, n, t);
    }
    m
  }

  lemma RowWidth(st: PredictState, xs: seq<Matrix>, n: nat, t: nat)
    requires StateOk(st) && RegressorsFit(xs, st.regressorColGp, n) && t < n
    ensures |Concat(RowAt(xs, st.regressorColGp, n, t))| == |st.regressorCol|
  {
    var rows := RowAt(xs, st.regressorColGp, n, t);
    ConcatLength(rows);
    OffsetSameLengths(rows, st.regressorColGp, |rows|);
    ConcatLength(st.regressorColGp);
  }

  /** `_set_seasonality_attributes`: the five lists start empty, then each
      seasonality appends its prior entries and its column group; a scale
      list shorter than the seasonality list raises IndexError. */
  method SeasonalityAttributes(seasonality: seq<int>, fsOrder: seq<int>,
                               poolingScale: seq<real>, knotScale: seq<real>)
    returns (r: Result<RegressorLayout>)
    requires |fsOrder| == |seasonality|
    ensures r == SeasonalityLayout(seasonality, fsOrder, poolingScale, knotScale)
  {
    var zeros := Repeat(0.0, |seasonality|);
    var regressorColGp: seq<seq<string>> := [];
    var regressorCol: seq<string> := [];
    var poolingLoc: seq<real> := [];
    var coefPoolingScale: seq<real> := [];
    var coefKnotScale: seq<real> := [];
    for idx := 0 to |seasonality|
      invariant idx <= |poolingScale| && idx <= |knotScale|
      invariant regressorColGp == Groups(seasonality[..idx], fsOrder[..idx])
      invariant regressorCol == Concat(regressorColGp)
      invariant poolingLoc == Spread(zeros, fsOrder[..idx])
      invariant coefPoolingScale == Spread(poolingScale, fsOrder[..idx])
      invariant coefKnotScale == Spread(knotScale, fsOrder[..idx])
    {
      var s := seasonality[idx];
      var order := fsOrder[idx];
      SpreadStep(zeros, fsOrder, idx);
      poolingLoc := poolingLoc + Repeat(0.0, order * 2);
      if idx >= |poolingScale| {
        return Err(IndexError);
      }
      SpreadStep(poolingScale, fsOrder, idx);
      coefPoolingScale := coefPoolingScale + Repeat(poolingScale[idx], order * 2);
      if idx >= |knotScale| {
        return Err(IndexError);
      }
      SpreadStep(knotScale, fsOrder, idx);
      coefKnotScale := coefKnotScale + Repeat(knotScale[idx], order * 2);
      var fsCols := FourierColumns(s, order);
      GroupsStep(seasonality, fsOrder, idx);
      ConcatSnoc(regressorColGp, fsCols);
      regressorCol := regressorCol + fsCols;
      regressorColGp := regressorColGp + [fsCols];
    }
    assert seasonality[..|seasonality|] == seasonality;
    assert fsOrder[..|seasonality|] == fsOrder;
    return Ok(RegressorLayout(regressorColGp, regressorCol, poolingLoc, coefPoolingScale, coefKnotScale));
  }

  /** `_set_model_param_names` on the empty list `__init__` starts with:
      the base parameters, then the regression parameters when there is a
      seasonality or a regressor. */
  method SamplingParamNames(consts: Constants, seasonality: seq<int>, numOfRegressors: nat)
    returns (names: seq<string>)
    ensures |seasonality| > 0 || numOfRegressors > 0 ==> names == consts.baseParams + consts.regressionParams
    ensures |seasonality| == 0 && numOfRegressors == 0 ==> names == consts.baseParams
  {
    names := [];
    names := names + consts.baseParams;
    if |seasonality| > 0 || numOfRegressors > 0 {
      names := names + consts.regressionParams;
    }
  }

  class BaseKTRLite {
    // the constructor's arguments
    const responseCol: string
    const dateCol: string
    const seasonalityArg: Arg<int>
    const fsOrderArg: Arg<int>
    const poolingScaleArg: Arg<real>
    const knotScaleArg: Arg<real>
    const levelKnotScale: real
    const spanLevel: real
    const spanCoefficients: real
    const rhoCoefficients: real
    const degreeOfFreedom: int
    const levelKnotLength: Option<int>
    const coefficientsKnotLength: Option<int>
    const levelKnotDatesArg: Option<seq<int>>
    const consts: Constants

    // set by `__init__` and never changed afterwards
    const seasonality: seq<int>
    const fsOrder: seq<int>
    const seasonalKnotPoolingScale: seq<real>
    const seasonalKnotScale: seq<real>
    const regressorColGp: seq<seq<string>>
    const regressorCol: seq<string>
    const coefficientsKnotPoolingLoc: seq<real>
    const coefficientsKnotPoolingScale: seq<real>
    const coefficientsKnotScale: seq<real>
    const numOfRegressors: nat
    const modelParamNames: seq<string>

    // set by fit; Python's `None` before fit is an empty value here
    var response: Response.Column
    var numOfObservations: nat
    var trainingDfMeta: Option<TrainingMeta>
    var responseMean: real
    var responseSd: real
    var isValidResponse: seq<bool>
    var whichValidResponse: seq<nat>
    var numOfValidResponse: nat
    var regressorMatrix: Matrix
    var knotsTpLevel: seq<real>
    // `_level_knot_dates`: the configured dates until a fit stores its own
    var levelKnotDates: Option<seq<int>>
    var kernelLevel: Matrix
    var numKnotsLevel: nat
    var knotsTpCoefficients: seq<real>
    var coefKnotDates: seq<int>
    var kernelCoefficients: Matrix
    var numKnotsCoefficients: nat
    var modelDataInput: map<string, PyValue>
    var posteriorSamples: Samples

    /** What construction establishes and `fit` keeps: the regressor
        layout, and training metadata, once set, that describes an ordered,
        non-empty date column. */
    predicate Valid()
      reads this`trainingDfMeta
    {
      && LayoutOk()
      && (trainingDfMeta.Some? ==> ValidMeta(trainingDfMeta.value))
    }

    /** The column groups are those of the seasonalities and their orders,
        and the flat column list is their concatenation. */
    predicate LayoutOk() {
      && |fsOrder| == |seasonality|
      && regressorColGp == Groups(seasonality, fsOrder)
      && regressorCol == Concat(regressorColGp)
      && numOfRegressors == |regressorCol|
    }

    /** The static attributes are those `_set_static_data_attributes`
        computes from the arguments, and the parameter names follow from
        them. */
    predicate StaticOk() {
      && StaticAttributes(seasonalityArg, fsOrderArg, poolingScaleArg, knotScaleArg)
           == Ok((BaseArgs(seasonality, fsOrder, seasonalKnotPoolingScale, seasonalKnotScale),
                  RegressorLayout(regressorColGp, regressorCol, coefficientsKnotPoolingLoc,
                                  coefficientsKnotPoolingScale, coefficientsKnotScale)))
      && numOfRegressors == RegressorCount(fsOrder)
      && modelParamNames == consts.baseParams
                            + (if |seasonality| > 0 || numOfRegressors > 0 then consts.regressionParams else [])
    }

    /** The attributes `_predict` reads. */
    function State(): (st: PredictState)
      reads this`trainingDfMeta, this`knotsTpLevel, this`knotsTpCoefficients
      ensures Valid() ==> StateOk(st)
    {
      PredictState(seasonality, fsOrder, regressorColGp, regressorCol, trainingDfMeta,
                   knotsTpLevel, knotsTpCoefficients, rhoCoefficients)
    }

    /** `is_fitted`: the posterior samples are not empty. */
    predicate IsFitted()
      reads this`posteriorSamples
    {
      |posteriorSamples| > 0
    }

    /** The attributes the data-input mapper names, by attribute name: the
        ones `getattr(self, name)` reads when the estimator input is
        assembled. `getattr` finds any attribute of the object; the mapper
        is assumed to name only these. */
    function Attributes(): map<string, PyValue>
      reads this`response, this`numOfObservations, this`responseMean, this`responseSd,
            this`isValidResponse, this`whichValidResponse, this`numOfValidResponse,
            this`regressorMatrix, this`numKnotsLevel, this`kernelLevel,
            this`numKnotsCoefficients, this`kernelCoefficients
    {
      map[
        "_response" := PyResponse(response),
        "_num_of_observations" := PyInt(numOfObservations),
        "_response_mean" := PyFloat(responseMean),
        "_response_sd" := PyFloat(responseSd),
        "_is_valid_response" := PyBools(isValidResponse),
        "_which_valid_response" := PyInts(whichValidResponse),
        "_num_of_valid_response" := PyInt(numOfValidResponse),
        "_num_of_regressors" := PyInt(numOfRegressors),
        "_regressor_matrix" := PyMatrix(regressorMatrix),
        "_num_knots_level" := PyInt(numKnotsLevel),
        "_kernel_level" := PyMatrix(kernelLevel),
        "_num_knots_coefficients" := PyInt(numKnotsCoefficients),
        "_kernel_coefficients" := PyMatrix(kernelCoefficients),
        "_coefficients_knot_pooling_loc" := PyFloats(coefficientsKnotPoolingLoc),
        "_coefficients_knot_pooling_scale" := PyFloats(coefficientsKnotPoolingScale),
        "_coefficients_knot_scale" := PyFloats(coefficientsKnotScale),
        "level_knot_scale" := PyFloat(levelKnotScale),
        "_degree_of_freedom" := PyInt(degreeOfFreedom),
        "_seasonality" := PyInts(seasonality),
        "_seasonality_fs_order" := PyInts(fsOrder)
      ]
    }

    /** `__init__`: the arguments, the resolved arguments `a`, the regressor
        layout `l` and the parameter names `names` are stored; nothing is
        fitted. */
    constructor(responseCol: string, dateCol: string, seasonality: Arg<int>, fsOrder: Arg<int>,
                poolingScale: Arg<real>, knotScale: Arg<real>, levelKnotScale: real,
                spanLevel: real, spanCoefficients: real, rhoCoefficients: real, degreeOfFreedom: int,
                levelKnotLength: Option<int>, coefficientsKnotLength: Option<int>,
                levelKnotDates: Option<seq<int>>, consts: Constants,
                a: BaseArgs, l: RegressorLayout, names: seq<string>)
      ensures this.responseCol == responseCol && this.dateCol == dateCol
      ensures seasonalityArg == seasonality && fsOrderArg == fsOrder
      ensures poolingScaleArg == poolingScale && knotScaleArg == knotScale
      ensures this.levelKnotScale == levelKnotScale && this.spanLevel == spanLevel
      ensures this.spanCoefficients == spanCoefficients && this.rhoCoefficients == rhoCoefficients
      ensures this.degreeOfFreedom == degreeOfFreedom && this.levelKnotLength == levelKnotLength
      ensures this.coefficientsKnotLength == coefficientsKnotLength && this.consts == consts
      ensures levelKnotDatesArg == levelKnotDates && this.levelKnotDates == levelKnotDates
      ensures BaseArgs(this.seasonality, this.fsOrder, seasonalKnotPoolingScale, seasonalKnotScale) == a
      ensures RegressorLayout(regressorColGp, regressorCol, coefficientsKnotPoolingLoc,
                              coefficientsKnotPoolingScale, coefficientsKnotScale) == l
      ensures numOfRegressors == |l.regressorCol| && modelParamNames == names
      ensures trainingDfMeta.None? && modelDataInput == map[] && posteriorSamples == map[]
    {
      this.responseCol := responseCol;
      this.dateCol := dateCol;
      seasonalityArg := seasonality;
      fsOrderArg := fsOrder;
      poolingScaleArg := poolingScale;
      knotScaleArg := knotScale;
      this.levelKnotScale := levelKnotScale;
      this.spanLevel := spanLevel;
      this.spanCoefficients := spanCoefficients;
      this.rhoCoefficients := rhoCoefficients;
      this.degreeOfFreedom := degreeOfFreedom;
      this.levelKnotLength := levelKnotLength;
      this.coefficientsKnotLength := coefficientsKnotLength;
      levelKnotDatesArg := levelKnotDates;
      this.consts := consts;
      this.seasonality := a.seasonality;
      this.fsOrder := a.fsOrder;
      seasonalKnotPoolingScale := a.poolingScale;
      seasonalKnotScale := a.knotScale;
      regressorColGp := l.regressorColGp;
      regressorCol := l.regressorCol;
      coefficientsKnotPoolingLoc := l.poolingLoc;
      coefficientsKnotPoolingScale := l.poolingScale;
      coefficientsKnotScale := l.knotScale;
      numOfRegressors := |l.regressorCol|;
      modelParamNames := names;
      response := [];
      numOfObservations := 0;
      trainingDfMeta := None;
      responseMean := 0.0;
      responseSd := 0.0;
      isValidResponse := [];
      whichValidResponse := [];
      numOfValidResponse := 0;
      regressorMatrix := [];
      knotsTpLevel := [];
      this.levelKnotDates := levelKnotDates;
      kernelLevel := [];
      numKnotsLevel := 0;
      knotsTpCoefficients := [];
      coefKnotDates := [];
      kernelCoefficients := [];
      numKnotsCoefficients := 0;
      modelDataInput := map[];
      posteriorSamples := map[];
    }

    /** `BaseKTRLite(...)`: `_set_static_data_attributes` (the default
        arguments, then the seasonality attributes) and
        `_set_model_param_names`; an exception in either step means no
        model is created. */
    static method Create(responseCol: string, dateCol: string, seasonality: Arg<int>, fsOrder: Arg<int>,
                         poolingScale: Arg<real>, knotScale: Arg<real>, levelKnotScale: real,
                         spanLevel: real, spanCoefficients: real, rhoCoefficients: real, degreeOfFreedom: int,
                         levelKnotLength: Option<int>, coefficientsKnotLength: Option<int>,
                         levelKnotDates: Option<seq<int>>, consts: Constants)
      returns (r: Result<BaseKTRLite>)
      ensures var s := StaticAttributes(seasonality, fsOrder, poolingScale, knotScale);
              && (r.Ok? <==> s.Ok?)
              && (s.Err? ==> r == Err(s.error))
      ensures r.Ok? ==>
                && fresh(r.value) && r.value.Valid() && r.value.StaticOk() && !r.value.IsFitted()
                && r.value.trainingDfMeta.None?
                && r.value.seasonalityArg == seasonality && r.value.fsOrderArg == fsOrder
                && r.value.poolingScaleArg == poolingScale && r.value.knotScaleArg == knotScale
                && r.value.responseCol == responseCol && r.value.dateCol == dateCol
                && r.value.levelKnotScale == levelKnotScale && r.value.spanLevel == spanLevel
                && r.value.spanCoefficients == spanCoefficients && r.value.rhoCoefficients == rhoCoefficients
                && r.value.degreeOfFreedom == degreeOfFreedom && r.value.levelKnotLength == levelKnotLength
                && r.value.coefficientsKnotLength == coefficientsKnotLength && r.value.consts == consts
                && r.value.levelKnotDatesArg == levelKnotDates && r.value.levelKnotDates == levelKnotDates
    {
      var ar := ResolveBaseArgs(seasonality, fsOrder, poolingScale, knotScale);
      if ar.Err? {
        return Err(ar.error);
      }
      var a := ar.value;
      var lr := SeasonalityAttributes(a.seasonality, a.fsOrder, a.poolingScale, a.knotScale);
      if lr.Err? {
        return Err(lr.error);
      }
      var l := lr.value;
      LayoutLengths(a.seasonality, a.fsOrder, a.poolingScale, a.knotScale);
      var names := SamplingParamNames(consts, a.seasonality, |l.regressorCol|);
      var m := new BaseKTRLite(responseCol, dateCol, seasonality, fsOrder, poolingScale, knotScale,
                               levelKnotScale, spanLevel, spanCoefficients, rhoCoefficients, degreeOfFreedom,
                               levelKnotLength, coefficientsKnotLength, levelKnotDates, consts, a, l, names);
      return Ok(m);
    }

    /** `_set_valid_response_attributes` */
    method SetValidResponseAttributes(fh: FitHelpers)
      modifies this`responseMean, this`responseSd, this`isValidResponse,
               this`whichValidResponse, this`numOfValidResponse
      ensures responseMean == fh.nanMean(Response.MeanWindow(response, seasonality))
      ensures isValidResponse == Response.ValidMask(response)
      ensures whichValidResponse == Response.WhichValid(response)
      ensures numOfValidResponse == |whichValidResponse|
      ensures responseSd == fh.nanStd(response)
    {
      responseMean := fh.nanMean(Response.MeanWindow(response, seasonality));
      isValidResponse := Response.ValidMask(response);
      whichValidResponse := Response.WhichValid(response);
      numOfValidResponse := |whichValidResponse|;
      responseSd := fh.nanStd(response);
    }

    /** `_set_regressor_matrix`: `n x 0` zeros without regressors. */
    method SetRegressorMatrix(h: Helpers)
      requires Valid() && FourierOk(h)
      modifies this`regressorMatrix
      ensures numOfRegressors == 0 ==> regressorMatrix == Zeros(numOfObservations, 0)
      ensures numOfRegressors > 0 ==> regressorMatrix == FitRegressorMatrix(State(), h, numOfObservations)
      ensures IsMatrix(regressorMatrix, numOfObservations, numOfRegressors)
    {
      regressorMatrix := Zeros(numOfObservations, 0);
      if numOfRegressors > 0 {
        regressorMatrix := FitRegressorMatrix(State(), h, numOfObservations);
      }
    }

    /** `_set_kernel_matrix`: the level knots from the knot dates held
        (stored in their place, the filtered dates even when their time
        points then fail); coefficient knots and their kernel only with
        regressors, otherwise no coefficient knot and a kernel of 0
        columns, the coefficient knots and dates left as they were. */
    method SetKernelMatrix(dates: seq<int>, h: Helpers, fh: FitHelpers) returns (o: Outcome)
      requires |dates| == numOfObservations > 0
      modifies this`knotsTpLevel, this`levelKnotDates, this`kernelLevel, this`numKnotsLevel,
               this`knotsTpCoefficients, this`coefKnotDates, this`kernelCoefficients, this`numKnotsCoefficients
      ensures o == KnotOutcome(old(levelKnotDates), dates, fh)
      ensures o.Pass? ==> KnotsFrom(old(levelKnotDates), dates, h, fh)
      ensures o.Pass? && numOfRegressors == 0 ==>
                knotsTpCoefficients == old(knotsTpCoefficients) && coefKnotDates == old(coefKnotDates)
    {
      var level := SetLevelKnots(dates, h, fh);
      if level.Err? {
        o := Fail(level.error);
      } else {
        kernelCoefficients := Zeros(numOfObservations, 0);
        numKnotsCoefficients := 0;
        o := Pass;
        if numOfRegressors > 0 {
          var coef := PlaceKnots(coefficientsKnotLength, spanCoefficients, dates, fh.setKnotsTp);
          if coef.Err? {
            o := Fail(coef.error);
          } else {
            knotsTpCoefficients := coef.value.tp;
            coefKnotDates := coef.value.dates;
            kernelCoefficients := CoefficientKernel(h, numOfObservations, knotsTpCoefficients, rhoCoefficients);
            numKnotsCoefficients := |knotsTpCoefficients|;
          }
        }
      }
    }

    /** The level half of `_set_kernel_matrix`: the level knots from the
        knot dates held, which are replaced by the filtered dates even when
        their time points then fail, and on success the knots, their dates,
        their kernel and their count. */
    method SetLevelKnots(dates: seq<int>, h: Helpers, fh: FitHelpers) returns (level: Result<KnotSet>)
      requires |dates| == numOfObservations > 0
      modifies this`knotsTpLevel, this`levelKnotDates, this`kernelLevel, this`numKnotsLevel
      ensures level == LevelKnots(old(levelKnotDates), levelKnotLength, spanLevel, dates, fh)
      ensures level.Ok? ==>
                && knotsTpLevel == level.value.tp && levelKnotDates == Some(level.value.dates)
                && kernelLevel == LevelKernel(h, numOfObservations, level.value.tp)
                && numKnotsLevel == |level.value.tp|
    {
      var held := levelKnotDates;
      level := LevelKnots(held, levelKnotLength, spanLevel, dates, fh);
      if held.Some? {
        levelKnotDates := Some(Knots.InWindow(held.value, Knots.MinOf(dates), Knots.MaxOf(dates)));
      }
      if level.Ok? {
        knotsTpLevel := level.value.tp;
        levelKnotDates := Some(level.value.dates);
        kernelLevel := LevelKernel(h, numOfObservations, knotsTpLevel);
        numKnotsLevel := |knotsTpLevel|;
      }
    }

    /** `_set_model_data_input`; a failure leaves the previous input. */
    method SetModelDataInput() returns (o: Outcome)
      modifies this`modelDataInput
      ensures var g := Gather(consts.mapper, Attributes());
              && (o.Pass? <==> g.Ok?)
              && (g.Err? ==> o == Fail(g.error) && modelDataInput == old(modelDataInput))
              && (g.Ok? ==> modelDataInput == g.value)
    {
      var g := CollectDataInput(consts.mapper, Attributes());
      if g.Err? {
        return Fail(g.error);
      }
      modelDataInput := g.value;
      return Pass;
    }

    /** What a successful `_set_dynamic_data_attributes` leaves: the
        validated response and the training metadata of the frame, the
        response attributes and a regressor matrix of one row per
        observation. The knots are those `SetKernelMatrix` states. */
    predicate DynamicFrom(df: Frame)
      reads this`response, this`numOfObservations,
            this`trainingDfMeta, this`isValidResponse, this`whichValidResponse, this`numOfValidResponse,
            this`regressorMatrix
    {
      && TrainingFrom(df)
      && isValidResponse == Response.ValidMask(response)
      && whichValidResponse == Response.WhichValid(response)
      && numOfValidResponse == |whichValidResponse|
      && IsMatrix(regressorMatrix, numOfObservations, numOfRegressors)
    }

    /** The validated response of the frame, its length, and the
        training metadata of its date column. */
    predicate TrainingFrom(df: Frame)
      reads this`response, this`numOfObservations, this`trainingDfMeta
    {
      && df.responseCol.Some? && df.dateCol.Some?
      && ValidateTrainingDf(df, dateCol, responseCol, seasonality, |df.responseCol.value|).Pass?
      && response == df.responseCol.value && numOfObservations == |response| > 0
      && TrainingMetaOf(df.dateCol.value).Ok?
      && trainingDfMeta == Some(TrainingMetaOf(df.dateCol.value).value)
    }

    /** How `_set_kernel_matrix` ends, given the knot dates `held` when
        it starts: the error of the level knots, else (with regressors)
        that of the coefficient knots, else success. */
    function KnotOutcome(held: Option<seq<int>>, dates: seq<int>, fh: FitHelpers): (o: Outcome)
      requires |dates| > 0
      ensures o.Pass? <==> LevelKnots(held, levelKnotLength, spanLevel, dates, fh).Ok?
                           && (numOfRegressors > 0 ==> PlaceKnots(coefficientsKnotLength, spanCoefficients, dates, fh.setKnotsTp).Ok?)
    {
      var level := LevelKnots(held, levelKnotLength, spanLevel, dates, fh);
      var coef := PlaceKnots(coefficientsKnotLength, spanCoefficients, dates, fh.setKnotsTp);
      if level.Err? then Fail(level.error)
      else if numOfRegressors > 0 && coef.Err? then Fail(coef.error)
      else Pass
    }

    /** The knots and kernels `_set_kernel_matrix` sets on success, given
        the knot dates `held` when it starts: the level knots and their
        sandwich kernel on the training time points; with regressors the
        coefficient knots placed on the dates and their Gaussian kernel,
        and without them no coefficient knot and a kernel of no columns,
        the coefficient knots left as `previous`. None when a step fails. */
    function KnotsOf(held: Option<seq<int>>, dates: seq<int>, h: Helpers, fh: FitHelpers,
                     previous: KnotSet): (r: Option<(TermKnots, TermKnots)>)
      requires |dates| > 0
      ensures r.Some? <==> KnotOutcome(held, dates, fh).Pass?
      ensures r.Some? ==> var (level, coef) := r.value;
                && LevelKnots(held, levelKnotLength, spanLevel, dates, fh) == Ok(level.knots)
                && level.count == |level.knots.tp|
                && (numOfRegressors > 0 ==> PlaceKnots(coefficientsKnotLength, spanCoefficients, dates, fh.setKnotsTp) == Ok(coef.knots))
                && (numOfRegressors == 0 ==> coef.knots == previous)
                && coef.count == (if numOfRegressors > 0 then |coef.knots.tp| else 0)
    {
      var n := |dates|;
      var level := LevelKnots(held, levelKnotLength, spanLevel, dates, fh);
      var coef := PlaceKnots(coefficientsKnotLength, spanCoefficients, dates, fh.setKnotsTp);
      if level.Err? || (numOfRegressors > 0 && coef.Err?) then None
      else
        var levelKnots := TermKnots(level.value, LevelKernel(h, n, level.value.tp), |level.value.tp|);
        if numOfRegressors > 0 then
          Some((levelKnots, TermKnots(coef.value, CoefficientKernel(h, n, coef.value.tp, rhoCoefficients), |coef.value.tp|)))
        else
          Some((levelKnots, TermKnots(previous, Zeros(n, 0), 0)))
    }

    /** The knot attributes held now, of the level and of the
        coefficients; no level knot dates reads as none. */
    function KnotState(): (TermKnots, TermKnots)
      reads this`knotsTpLevel, this`levelKnotDates, this`kernelLevel, this`numKnotsLevel,
            this`knotsTpCoefficients, this`coefKnotDates, this`kernelCoefficients, this`numKnotsCoefficients
    {
      (TermKnots(KnotSet(knotsTpLevel, if levelKnotDates.Some? then levelKnotDates.value else []),
                 kernelLevel, numKnotsLevel),
       TermKnots(KnotSet(knotsTpCoefficients, coefKnotDates), kernelCoefficients, numKnotsCoefficients))
    }

    /** The knots held are those `_set_kernel_matrix` sets on the dates of
        the training data when it starts from the knot dates `held`, and
        the level knot dates are stored for the next fit. */
    predicate KnotsFrom(held: Option<seq<int>>, dates: seq<int>, h: Helpers, fh: FitHelpers)
      reads this`numOfObservations, this`knotsTpLevel, this`levelKnotDates, this`kernelLevel,
            this`numKnotsLevel, this`knotsTpCoefficients, this`coefKnotDates, this`kernelCoefficients,
            this`numKnotsCoefficients
    {
      && |dates| == numOfObservations > 0
      && levelKnotDates.Some?
      && KnotsOf(held, dates, h, fh, KnotSet(knotsTpCoefficients, coefKnotDates)) == Some(KnotState())
    }

    /** `_set_training_df_meta`: the date array, its length and its first
        and last dates; `iloc[0]` of an empty column raises IndexError. */
    method SetTrainingDfMeta(dates: seq<int>) returns (o: Outcome)
      requires OrderedDates(dates)
      requires Valid()
      modifies this`trainingDfMeta
      ensures Valid()
      ensures o.Pass? <==> dates != []
      ensures o.Fail? ==> o == Fail(IndexError)
      ensures o.Pass? ==> trainingDfMeta == Some(TrainingMetaOf(dates).value)
    {
      var meta := TrainingMetaOf(dates);
      if meta.Err? {
        return Fail(meta.error);
      }
      trainingDfMeta := Some(meta.value);
      return Pass;
    }

    /** The first half of `_set_dynamic_data_attributes`:
        `df[response_col]` (KeyError when missing), the number of
        observations, the checks of `_validate_training_df` and the
        training metadata. */
    method SetTrainingData(df: Frame) returns (o: Outcome)
      requires Valid()
      requires df.dateCol.Some? && df.responseCol.Some? ==> |df.dateCol.value| == |df.responseCol.value|
      modifies this`response, this`numOfObservations, this`trainingDfMeta
      ensures Valid()
      ensures df.responseCol.None? ==> o == Fail(KeyError)
      ensures df.responseCol.Some? ==>
                var v := ValidateTrainingDf(df, dateCol, responseCol, seasonality, |df.responseCol.value|);
                && (v.Fail? ==> o == v)
                && (v.Pass? ==> (o.Pass? <==> df.dateCol.value != []))
                && (v.Pass? && df.dateCol.value == [] ==> o == Fail(IndexError))
      ensures o.Pass? ==> TrainingFrom(df)
    {
      if df.responseCol.None? {
        o := Fail(KeyError);
      } else {
        response := df.responseCol.value;
        numOfObservations := |response|;
        o := ValidateTrainingDf(df, dateCol, responseCol, seasonality, numOfObservations);
        if o.Pass? {
          o := SetTrainingDfMeta(df.dateCol.value);
        }
      }
    }

    /** The middle of `_set_dynamic_data_attributes`: the response
        attributes and the regressor matrix of the training data. */
    method SetResponseData(df: Frame, h: Helpers, fh: FitHelpers)
      requires Valid() && FourierOk(h) && TrainingFrom(df)
      modifies this`responseMean, this`responseSd, this`isValidResponse, this`whichValidResponse,
               this`numOfValidResponse, this`regressorMatrix
      ensures DynamicFrom(df)
    {
      SetValidResponseAttributes(fh);
      SetRegressorMatrix(h);
    }

    /** The second half of `_set_dynamic_data_attributes`: the response
        attributes, the regressor matrix and the kernel matrices. */
    method SetFittedData(df: Frame, h: Helpers, fh: FitHelpers) returns (o: Outcome)
      requires Valid() && FourierOk(h) && TrainingFrom(df)
      requires |df.dateCol.value| == |df.responseCol.value|
      modifies this`responseMean, this`responseSd, this`isValidResponse, this`whichValidResponse,
               this`numOfValidResponse, this`regressorMatrix, this`knotsTpLevel, this`levelKnotDates,
               this`kernelLevel, this`numKnotsLevel, this`knotsTpCoefficients, this`coefKnotDates,
               this`kernelCoefficients, this`numKnotsCoefficients
      ensures o == KnotOutcome(old(levelKnotDates), df.dateCol.value, fh)
      ensures o.Pass? ==> DynamicFrom(df) && KnotsFrom(old(levelKnotDates), df.dateCol.value, h, fh)
    {
      SetResponseData(df, h, fh);
      o := SetKernelMatrix(df.dateCol.value, h, fh);
    }

    /** `_set_dynamic_data_attributes`: the training data, then the
        response attributes, the regressor matrix and the kernel
        matrices. */
    method SetDynamicDataAttributes(df: Frame, h: Helpers, fh: FitHelpers) returns (o: Outcome)
      requires Valid() && FourierOk(h)
      // the columns of a data frame have the same length
      requires df.dateCol.Some? && df.responseCol.Some? ==> |df.dateCol.value| == |df.responseCol.value|
      modifies this`response, this`numOfObservations, this`trainingDfMeta, this`responseMean,
               this`responseSd, this`isValidResponse, this`whichValidResponse, this`numOfValidResponse,
               this`regressorMatrix, this`knotsTpLevel, this`levelKnotDates, this`kernelLevel,
               this`numKnotsLevel, this`knotsTpCoefficients, this`coefKnotDates, this`kernelCoefficients,
               this`numKnotsCoefficients
      ensures Valid()
      ensures df.responseCol.None? ==> o == Fail(KeyError)
      ensures df.responseCol.Some? ==>
                var v := ValidateTrainingDf(df, dateCol, responseCol, seasonality, |df.responseCol.value|);
                && (v.Fail? ==> o == v)
                && (v.Pass? && df.dateCol.value == [] ==> o == Fail(IndexError))
                && (v.Pass? && df.dateCol.value != [] ==> o == KnotOutcome(old(levelKnotDates), df.dateCol.value, fh))
      ensures o.Pass? ==> DynamicFrom(df) && KnotsFrom(old(levelKnotDates), df.dateCol.value, h, fh)
    {
      o := SetTrainingData(df);
      if o.Pass? {
        o := SetFittedData(df, h, fh);
      }
    }

    /** The second half of `fit`: `_set_model_data_input`, then the
        estimator's posterior samples on that input; a failure leaves the
        posterior samples as they were. */
    method Estimate(fh: FitHelpers) returns (o: Outcome)
      modifies this`modelDataInput, this`posteriorSamples
      ensures o.Fail? ==> posteriorSamples == old(posteriorSamples)
      ensures var g := Gather(consts.mapper, Attributes());
              && (o.Pass? <==> g.Ok?)
              && (o.Pass? ==> modelDataInput == g.value
                              && posteriorSamples == fh.estimator(modelParamNames, modelDataInput))
    {
      o := SetModelDataInput();
      if o.Pass? {
        posteriorSamples := fh.estimator(modelParamNames, modelDataInput);
      }
    }

    /** `fit`: the dynamic attributes, the estimator input, and the
        estimator's posterior samples. A failing fit leaves the posterior
        samples, and so whether the model is fitted, as they were. */
    method Fit(df: Frame, h: Helpers, fh: FitHelpers) returns (o: Outcome)
      requires Valid() && FourierOk(h)
      requires df.dateCol.Some? && df.responseCol.Some? ==> |df.dateCol.value| == |df.responseCol.value|
      modifies this`response, this`numOfObservations, this`trainingDfMeta, this`responseMean,
               this`responseSd, this`isValidResponse, this`whichValidResponse, this`numOfValidResponse,
               this`regressorMatrix, this`knotsTpLevel, this`levelKnotDates, this`kernelLevel,
               this`numKnotsLevel, this`knotsTpCoefficients, this`coefKnotDates, this`kernelCoefficients,
               this`numKnotsCoefficients, this`modelDataInput, this`posteriorSamples
      ensures Valid()
      ensures o.Fail? ==> posteriorSamples == old(posteriorSamples)
      ensures df.responseCol.None? ==> o == Fail(KeyError)
      ensures o.Pass? ==>
                && DynamicFrom(df) && KnotsFrom(old(levelKnotDates), df.dateCol.value, h, fh)
                && Gather(consts.mapper, Attributes()) == Ok(modelDataInput)
                && posteriorSamples == fh.estimator(modelParamNames, modelDataInput)
    {
      o := SetDynamicDataAttributes(df, h, fh);
      if o.Pass? {
        o := Estimate(fh);
      }
    }

    /** `_predict`: the first value of the posterior, the prediction
        window, the trend, the seasonal loop, the optional noise and the
        output dictionary. */
    method Predict(est: Samples, predDates: Option<seq<int>>, includeError: bool, decompose: bool, h: Helpers)
      returns (r: Result<Dict<Matrix>>)
      requires Valid() && HelpersOk(h)
      ensures r == PredictDecomp(State(), h, consts.names, est, predDates, includeError, decompose)
    {
      var st := State();
      var names := consts.names;
      if |est| == 0 {
        return Err(IndexError);
      }
      var startR := WindowStart(trainingDfMeta, predDates);
      if startR.Err? {
        return Err(startR.error);
      }
      var start := startR.value;
      var outputLen := |predDates.value|;
      var newTp := TimeGrid(start, outputLen, trainingDfMeta.value.dfLength);
      var kernelLevelNew := h.sandwichKernel(newTp, knotsTpLevel);
      if names.obsScale !in est {
        return Err(AttributeError);
      }
      if names.levelKnot !in est {
        return Err(ValueError);
      }
      var levKnotR := MatrixOf(est[names.levelKnot], |knotsTpLevel|);
      if levKnotR.Err? {
        return Err(levKnotR.error);
      }
      var levKnot := levKnotR.value;
      var numSample := |levKnot|;
      var trend := MatMulT(levKnot, kernelLevelNew, |knotsTpLevel|);
      var totalSeasRegression := Zeros(numSample, outputLen);
      var seasDecomp: Dict<Matrix> := [];
      ghost var parts: seq<Matrix> := [];
      if Active(st) {
        if names.coefficientsKnot !in est {
          return Err(ValueError);
        }
        var coefKnotO := As3D(est[names.coefficientsKnot]);
        if coefKnotO.None? {
          return Err(ValueError);
        }
        var coefKnot := coefKnotO.value;
        var kc := |knotsTpCoefficients|;
        var R := if coefKnot == [] then 0 else |coefKnot[0]|;
        if |coefKnot| != numSample || (exists s :: 0 <= s < numSample && !IsMatrix(coefKnot[s], R, kc))
           || !SlicesFit(regressorColGp, R) {
          return Err(ValueError);
        }
        var kernelCoefficientsNew := h.gaussKernel(newTp, knotsTpCoefficients, rhoCoefficients);
        var coef := seq(numSample, s requires 0 <= s < numSample => MatMulT(coefKnot[s], kernelCoefficientsNew, kc));
        var xs := Regressors(st, h, start, outputLen);
        parts := Parts(coef, numSample, R, outputLen, regressorColGp, xs);
        assert SeasonalParts(st, h, names, est, newTp, start, numSample) == Ok(parts);
        totalSeasRegression, seasDecomp := AccumulateSeasonal(coef, numSample, R, outputLen, regressorColGp, seasonality, xs);
      } else {
        assert SeasonalParts(st, h, names, est, newTp, start, numSample) == Ok([]);
        assert SeasonalItems(seasonality, []) == [];
      }
      var predArray;
      if includeError {
        var epsilon := h.noise(numSample, outputLen);
        predArray := Add(Add(trend, totalSeasRegression, outputLen), epsilon, outputLen);
      } else {
        predArray := Add(trend, totalSeasRegression, outputLen);
      }
      if decompose {
        r := Ok(Update([(PredictionKey, predArray), (TrendKey, trend)], seasDecomp));
      } else {
        r := Ok([(PredictionKey, predArray)]);
      }
    }
  }
}
