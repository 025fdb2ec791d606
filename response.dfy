/** The response bookkeeping of `_set_valid_response_attributes`: which
    observations are present (not NaN), their positions and their count,
    and the window the response mean is taken over. */
module Response {
  import opened Wrappers
  import opened PyList

  /** A response column: `None` stands for NaN. */
  type Column = seq<Option<real>>

  /** `~np.isnan(response)` */
  function ValidMask(response: Column): (mask: seq<bool>)
    ensures |mask| == |response|
    ensures forall i :: 0 <= i < |response| ==> (mask[i] <==> response[i].Some?)
  {
    seq(|response|, i requires 0 <= i < |response| => response[i].Some?)
  }

  /** `np.where(is_valid)[0]`: the positions of the present responses, in
      increasing order. */
  function WhichValid(response: Column): (w: seq<nat>)
    ensures |w| <= |response|
    ensures forall k :: 0 <= k < |w| ==> w[k] < |response| && response[w[k]].Some?
    ensures forall i :: 0 <= i < |response| && response[i].Some? ==> i in w
    ensures forall k, l :: 0 <= k < l < |w| ==> w[k] < w[l]
  {
    if response == [] then []
    else
      var n := |response| - 1;
      WhichValid(response[..n]) + (if response[n].Some? then [n] else [])
  }

  predicate AllPresent(response: Column) {
    forall i :: 0 <= i < |response| ==> response[i].Some?
  }

  /** All responses are present exactly when every position is listed,
      i.e. `_num_of_valid_response == _num_of_observations`. */
  lemma {:induction false} AllValidIffFullCount(response: Column)
    ensures |WhichValid(response)| == |response| <==> AllPresent(response)
  {
    if response != [] {
      var n := |response| - 1;
      var init := response[..n];
      AllValidIffFullCount(init);
      assert WhichValid(response) == WhichValid(init) + (if response[n].Some? then [n] else []);
      AllPresentSnoc(response);
    }
  }

  /** A column is all present exactly when its prefix is and its last entry is. */
  lemma AllPresentSnoc(response: Column)
    requires response != []
    ensures AllPresent(response) <==> AllPresent(response[..|response| - 1]) && response[|response| - 1].Some?
  {
    var init := response[..|response| - 1];
    if AllPresent(init) && response[|response| - 1].Some? {
      forall i | 0 <= i < |response| ensures response[i].Some? {
        if i < |init| { assert init[i] == response[i]; }
      }
    }
  }

  /** `WhichValid` is the one increasing list of exactly the present positions. */
  lemma WhichValidUnique(response: Column, w: seq<nat>)
    requires forall k, l :: 0 <= k < l < |w| ==> w[k] < w[l]
    requires forall x: nat :: x in w <==> x < |response| && response[x].Some?
    ensures w == WhichValid(response)
  {
    var v := WhichValid(response);
    forall x: nat ensures x in w <==> x in v {
      if x in v {
        var k :| 0 <= k < |v| && v[k] == x;
      }
    }
    SortedSetUnique(w, v);
  }

  /** `np.round(np.max(seasonality))` for integer periods. */
  function MaxSeasonality(seasonality: seq<int>): (m: int)
    requires |seasonality| > 0
    ensures m in seasonality
    ensures forall i :: 0 <= i < |seasonality| ==> seasonality[i] <= m
  {
    if |seasonality| == 1 then seasonality[0]
    else
      var m := MaxSeasonality(seasonality[1..]);
      if seasonality[0] >= m then seasonality[0] else m
  }

  /** Python's `s[:k]`: a negative `k` counts from the end. */
  function SliceTo<T>(s: seq<T>, k: int): (r: seq<T>)
    ensures r <= s
    ensures 0 <= k <= |s| ==> |r| == k
    ensures k >= |s| ==> r == s
  {
    if k >= 0 then s[..if k <= |s| then k else |s|]
    else s[..if |s| + k >= 0 then |s| + k else 0]
  }

  /** The responses the mean is taken over: with seasonality, only the first
      `max(seasonality)` of them. */
  function MeanWindow(response: Column, seasonality: seq<int>): (w: Column)
    ensures seasonality == [] ==> w == response
    ensures seasonality != [] && 0 <= MaxSeasonality(seasonality) <= |response| ==>
              w == response[..MaxSeasonality(seasonality)]
  {
    if seasonality != [] then SliceTo(response, MaxSeasonality(seasonality)) else response
  }
}
