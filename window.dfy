/** The prediction window of `_predict`: where the prediction frame starts
    relative to the training frame, and the normalised time grid of the
    predicted rows. */
module Window {
  import opened Wrappers
  import opened Training
  import Knots

  const StartMessage: string := "Prediction start must be after training start."

  /** `pd.Index(dates).get_loc(d)` on an index without repeats: the position
      of `d`, or KeyError. */
  function IndexOf(dates: seq<int>, d: int): (r: Result<nat>)
    ensures r.Ok? <==> d in dates
    ensures r.Ok? ==> r.value < |dates| && dates[r.value] == d
    ensures r.Err? ==> r.error == KeyError
  {
    if dates == [] then Err(KeyError)
    else if dates[0] == d then Ok(0)
    else
      var rest := IndexOf(dates[1..], d);
      assert dates == [dates[0]] + dates[1..];
      if rest.Err? then rest else Ok(rest.value + 1)
  }

  /** The offset `start` of the prediction frame, from the date column of
      the prediction frame (`None` when that column is missing). The checks
      run in the order the source evaluates them. */
  function WindowStart(meta: Option<TrainingMeta>, predDates: Option<seq<int>>): (r: Result<nat>)
    ensures predDates.None? ==> r == Err(KeyError)
    ensures predDates == Some([]) ==> r == Err(IndexError)
    ensures predDates.Some? && predDates.value != [] && !OrderedDates(predDates.value) ==>
              r == Err(IllegalArgument(OrderMessage))
    ensures predDates.Some? && predDates.value != [] && OrderedDates(predDates.value) && meta.None? ==>
              r == Err(TypeError)
    // a prediction that starts before the training data is refused
    ensures predDates.Some? && predDates.value != [] && OrderedDates(predDates.value) && meta.Some?
            && predDates.value[0] < meta.value.trainingStart ==>
              r == Err(PredictionException(StartMessage))
    // after the training end, prediction continues right after the last training row
    ensures r.Ok? && predDates.value[0] > meta.value.trainingEnd ==> r.value == meta.value.dfLength
    // otherwise it starts at the training row with the same date, or fails with KeyError
    ensures r.Ok? && predDates.value[0] <= meta.value.trainingEnd ==>
              r.value < |meta.value.dateArray| && meta.value.dateArray[r.value] == predDates.value[0]
    ensures predDates.Some? && predDates.value != [] && OrderedDates(predDates.value) && meta.Some?
            && meta.value.trainingStart <= predDates.value[0] <= meta.value.trainingEnd ==>
              (r.Ok? <==> predDates.value[0] in meta.value.dateArray)
    // with valid metadata the start is at most the training length, and a
    // frame starting on the first training date starts at offset 0
    ensures r.Ok? && ValidMeta(meta.value) ==> r.value <= meta.value.dfLength
    ensures predDates.Some? && predDates.value != [] && OrderedDates(predDates.value) && meta.Some?
            && ValidMeta(meta.value) && predDates.value[0] == meta.value.trainingStart ==>
              r == Ok(0)
  {
    if predDates.None? then Err(KeyError)
    else if predDates.value == [] then Err(IndexError)
    else if !OrderedDates(predDates.value) then Err(IllegalArgument(OrderMessage))
    else if meta.None? then Err(TypeError)
    else
      var m := meta.value;
      var predictionStart := predDates.value[0];
      if predictionStart < m.trainingStart then Err(PredictionException(StartMessage))
      else if predictionStart > m.trainingEnd then Ok(m.dfLength)
      else IndexOf(m.dateArray, predictionStart)
  }

  /** `np.arange(start + 1, start + output_len + 1) / trained_len` */
  function TimeGrid(start: nat, outputLen: nat, trainedLen: nat): (grid: seq<real>)
    requires trainedLen > 0
    ensures |grid| == outputLen
    // rows inside the training range get the training time points of the
    // rows they continue from `start`
    ensures forall i :: 0 <= i < outputLen && start + i < trainedLen ==>
              grid[i] == Knots.TimePoints(trainedLen)[start + i]
  {
    var a := seq(outputLen, i => start + 1 + i);
    var grid := Knots.Ratios(a, trainedLen);
    forall i | 0 <= i < outputLen && start + i < trainedLen
      ensures grid[i] == Knots.TimePoints(trainedLen)[start + i]
    {
      Knots.RatiosAt(a, trainedLen, i);
      Knots.TimePointAt(trainedLen, start + i);
    }
    grid
  }

  lemma GridAt(start: nat, outputLen: nat, trainedLen: nat, i: nat)
    requires trainedLen > 0 && i < outputLen
    ensures TimeGrid(start, outputLen, trainedLen)[i] == (start + 1 + i) as real / trainedLen as real
  {
    Knots.RatiosAt(seq(outputLen, i => start + 1 + i), trainedLen, i);
  }

  /** The grid advances by one training step per row, so it is strictly
      increasing and, after the training end, lies beyond 1. */
  lemma {:induction false} GridSteps(start: nat, outputLen: nat, trainedLen: nat, i: nat, j: nat)
    requires trainedLen > 0 && i < j < outputLen
    ensures TimeGrid(start, outputLen, trainedLen)[i] < TimeGrid(start, outputLen, trainedLen)[j]
    ensures start == trainedLen ==> TimeGrid(start, outputLen, trainedLen)[i] > 1.0
  {
    GridAt(start, outputLen, trainedLen, i);
    GridAt(start, outputLen, trainedLen, j);
    Knots.DivStrictMonotone((start + 1 + i) as real, (start + 1 + j) as real, trainedLen as real);
    if start == trainedLen {
      Knots.DivStrictMonotone(trainedLen as real, (start + 1 + i) as real, trainedLen as real);
    }
  }
}
