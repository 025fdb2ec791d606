/** The training data frame as the model sees it: its date column, the
    checks of `_validate_training_df`, and the metadata of
    `_set_training_df_meta`. Dates are modelled as integers (a day count);
    `is_ordered_datetime` is read as its error message states it, "ordered
    and not repeat", i.e. strictly increasing. */
module Training {
  import opened Wrappers
  import opened PyText
  import opened PyList
  import Response

  /** `is_ordered_datetime` */
  predicate OrderedDates(dates: seq<int>) {
    StrictlyIncreasing(dates)
  }

  /** The part of a data frame the model reads during fit: whether the date
      and response columns exist, and their values. */
  datatype Frame = Frame(
    dateCol: Option<seq<int>>,
    responseCol: Option<Response.Column>)

  const OrderMessage: string := "Datetime index must be ordered and not repeat"

  function MissingColumnMessage(kind: string, name: string): string {
    "DataFrame does not contain `" + kind + "`: " + name
  }

  function TooShortMessage(numObs: int, maxSeasonality: int): string {
    "Number of observations " + IntToString(numObs) + " is less than max seasonality " + IntToString(maxSeasonality)
  }

  /** `_validate_training_df`: the date column must exist and be ordered,
      the response column must exist, and there must be at least
      `max(seasonality)` observations. */
  function ValidateTrainingDf(df: Frame, dateColName: string, responseColName: string,
                              seasonality: seq<int>, numObs: int): (r: Outcome)
    ensures r.Pass? <==>
              && df.dateCol.Some? && OrderedDates(df.dateCol.value)
              && df.responseCol.Some?
              && (seasonality != [] ==> numObs >= Response.MaxSeasonality(seasonality))
    ensures df.dateCol.None? ==> r == Fail(ModelException(MissingColumnMessage("date_col", dateColName)))
    ensures df.dateCol.Some? && !OrderedDates(df.dateCol.value) ==> r == Fail(ModelException(OrderMessage))
    ensures df.dateCol.Some? && OrderedDates(df.dateCol.value) && df.responseCol.None? ==>
              r == Fail(ModelException(MissingColumnMessage("response_col", responseColName)))
    ensures r.Fail? ==> r.error.ModelException?
  {
    if df.dateCol.None? then Fail(ModelException(MissingColumnMessage("date_col", dateColName)))
    else if !OrderedDates(df.dateCol.value) then Fail(ModelException(OrderMessage))
    else if df.responseCol.None? then Fail(ModelException(MissingColumnMessage("response_col", responseColName)))
    else if seasonality != [] && numObs < Response.MaxSeasonality(seasonality) then
      Fail(ModelException(TooShortMessage(numObs, Response.MaxSeasonality(seasonality))))
    else Pass
  }

  /** `_training_df_meta` */
  datatype TrainingMeta = TrainingMeta(
    dateArray: seq<int>,
    dfLength: nat,
    trainingStart: int,
    trainingEnd: int)

  /** What the metadata of a validated training frame satisfies. */
  predicate ValidMeta(m: TrainingMeta) {
    && |m.dateArray| > 0
    && m.dfLength == |m.dateArray|
    && m.trainingStart == m.dateArray[0]
    && m.trainingEnd == m.dateArray[|m.dateArray| - 1]
    && OrderedDates(m.dateArray)
  }

  /** `_set_training_df_meta`: `iloc[0]` of an empty column raises IndexError. */
  function TrainingMetaOf(dates: seq<int>): (r: Result<TrainingMeta>)
    ensures r.Err? <==> dates == []
    ensures r.Err? ==> r.error == IndexError
    ensures r.Ok? ==> r.value.dateArray == dates && r.value.dfLength == |dates|
    ensures r.Ok? && OrderedDates(dates) ==> ValidMeta(r.value)
  {
    if dates == [] then Err(IndexError)
    else Ok(TrainingMeta(dates, |dates|, dates[0], dates[|dates| - 1]))
  }
}
