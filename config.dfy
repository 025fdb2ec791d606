/** Resolution of the seasonality arguments of `BaseKTRLite`
    (`_set_default_base_args`): scalar-or-list arguments become lists,
    missing orders get their default, and mismatched lengths are refused. */
module Config {
  import opened Wrappers
  import opened PyList

  /** An argument Python lets the caller pass as `None`, a number or a list. */
  datatype Arg<T> = Unset | Scalar(x: T) | Items(xs: seq<T>)

  /** The resolved ("underscore") attributes the rest of the model reads. */
  datatype BaseArgs = BaseArgs(
    seasonality: seq<int>,
    fsOrder: seq<int>,
    poolingScale: seq<real>,
    knotScale: seq<real>)

  const DefaultFsOrder: int := 2
  const MismatchMessage: string := "length of seasonality and fs_order not matching"

  /** A scalar becomes a one-element list and a list is kept; `None` has no
      `* 1.0` and raises TypeError. */
  function AsList<T>(a: Arg<T>): (r: Result<seq<T>>)
    ensures r.Err? <==> a.Unset?
    ensures a.Scalar? ==> r == Ok([a.x])
    ensures a.Items? ==> r == Ok(a.xs)
  {
    match a
    case Unset => Err(TypeError)
    case Scalar(x) => Ok([x])
    case Items(xs) => Ok(xs)
  }

  /** A scale given as a scalar is repeated once per seasonality; a list is kept as given. */
  function ScalePerSeasonality(a: Arg<real>, n: nat): (r: Result<seq<real>>)
    ensures r.Err? <==> a.Unset?
    ensures a.Scalar? ==> r.Ok? && |r.value| == n && forall i :: 0 <= i < n ==> r.value[i] == a.x
    ensures a.Items? ==> r == Ok(a.xs)
  {
    match a
    case Unset => Err(TypeError)
    case Scalar(x) => Ok(Repeat(x, n))
    case Items(xs) => Ok(xs)
  }

  /** The seasonality list after the first step: `None` gives `[]`. */
  function SeasonalityList(seasonality: Arg<int>): seq<int>
  {
    match seasonality
    case Unset => []
    case Scalar(s) => [s]
    case Items(ss) => ss
  }

  /** The order list after the second step, or the TypeError of `None * 1.0`
      when the seasonality is an empty list and no order was given. */
  function OrderList(seasonality: Arg<int>, fsOrder: Arg<int>): Result<seq<int>>
  {
    if seasonality.Unset? then Ok([])
    else if |SeasonalityList(seasonality)| > 0 && fsOrder.Unset? then
      Ok(Repeat(DefaultFsOrder, |SeasonalityList(seasonality)|))
    else AsList(fsOrder)
  }

  /** `_set_default_base_args` as a whole. */
  function ResolveBaseArgs(seasonality: Arg<int>, fsOrder: Arg<int>,
                           poolingScale: Arg<real>, knotScale: Arg<real>): (r: Result<BaseArgs>)
    // None seasonality: no seasonality and no orders, whatever order was given
    ensures seasonality.Unset? && !poolingScale.Unset? && !knotScale.Unset? ==>
              r.Ok? && r.value.seasonality == [] && r.value.fsOrder == []
    // a scalar seasonality or order becomes a one-element list
    ensures r.Ok? && seasonality.Scalar? ==> r.value.seasonality == [seasonality.x]
    ensures r.Ok? && !seasonality.Unset? && fsOrder.Scalar? ==> r.value.fsOrder == [fsOrder.x]
    ensures r.Ok? && seasonality.Items? ==> r.value.seasonality == seasonality.xs
    // a missing order defaults to 2 for every seasonality
    ensures r.Ok? && !seasonality.Unset? && fsOrder.Unset? ==>
              |r.value.fsOrder| == |r.value.seasonality|
              && forall i :: 0 <= i < |r.value.fsOrder| ==> r.value.fsOrder[i] == DefaultFsOrder
    // the two lists always end up the same length ...
    ensures r.Ok? ==> |r.value.seasonality| == |r.value.fsOrder|
    // ... because unequal lengths raise IllegalArgument
    ensures !seasonality.Unset? && fsOrder.Items? && |fsOrder.xs| != |SeasonalityList(seasonality)| ==>
              r == Err(IllegalArgument(MismatchMessage))
    // an empty seasonality list with no order hits `None * 1.0`
    ensures seasonality == Items([]) && fsOrder.Unset? ==> r == Err(TypeError)
    // scalar scales are repeated once per seasonality; lists are kept
    ensures r.Ok? && poolingScale.Scalar? ==>
              r.value.poolingScale == Repeat(poolingScale.x, |r.value.seasonality|)
    ensures r.Ok? && knotScale.Scalar? ==>
              r.value.knotScale == Repeat(knotScale.x, |r.value.seasonality|)
    ensures r.Ok? && poolingScale.Items? ==> r.value.poolingScale == poolingScale.xs
    ensures r.Ok? && knotScale.Items? ==> r.value.knotScale == knotScale.xs
    // the only failures: a None that is multiplied, or the length mismatch
    ensures r.Err? <==>
              OrderList(seasonality, fsOrder).Err?
              || |OrderList(seasonality, fsOrder).value| != |SeasonalityList(seasonality)|
              || poolingScale.Unset? || knotScale.Unset?
  {
    var seas := SeasonalityList(seasonality);
    var order :- OrderList(seasonality, fsOrder);
    if |order| != |seas| then Err(IllegalArgument(MismatchMessage))
    else
      var pooling :- ScalePerSeasonality(poolingScale, |seas|);
      var scale :- ScalePerSeasonality(knotScale, |seas|);
      Ok(BaseArgs(seas, order, pooling, scale))
  }
}
