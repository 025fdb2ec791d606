/** Posterior dictionaries: the MAP variant's wrapping of each estimate in a
    leading dimension of size 1 (`_set_map_posterior`), and the bootstrap
    resampling of `KTRLiteFull._bootstrap`, where one vector of draw
    indices is applied to every parameter array. */
module Posterior {
  import opened Wrappers
  import opened Tensors

  /** A posterior dictionary: parameter name to the array of its draws. */
  type Samples = map<string, NdArray>

  /** `_set_map_posterior`: each listed parameter's array, read with
      `posterior_samples[name]` (KeyError when absent), gets a new leading
      axis of length 1. */
  function MapPosterior(samples: Samples, names: seq<string>): (r: Result<Samples>)
    ensures r.Err? <==> exists p :: p in names && p !in samples
    ensures r.Err? ==> r.error == KeyError
    ensures r.Ok? ==> r.value.Keys == set p | p in names
    ensures r.Ok? ==> forall p :: p in r.value ==>
              p in samples && LeadingDim(r.value[p]) == Ok(1) && r.value[p].items[0] == samples[p]
  {
    if exists p :: p in names && p !in samples then Err(KeyError)
    else Ok(map p | p in names :: ExpandDims(samples[p]))
  }

  /** The loop of `_set_map_posterior`. */
  method WrapEach(samples: Samples, names: seq<string>) returns (r: Result<Samples>)
    ensures r == MapPosterior(samples, names)
  {
    var mapPosterior: Samples := map[];
    for i := 0 to |names|
      invariant forall p :: p in names[..i] ==> p in samples
      invariant mapPosterior == map p | p in names[..i] :: ExpandDims(samples[p])
    {
      assert names[..i + 1] == names[..i] + [names[i]];
      if names[i] !in samples {
        return Err(KeyError);
      }
      var paramArray := ExpandDims(samples[names[i]]);
      mapPosterior := mapPosterior[names[i] := paramArray];
    }
    assert names[..|names|] == names;
    return Ok(mapPosterior);
  }

  const BootstrapMessage: string := "Error: The number of bootstrap draws must be at least 2"

  /** `np.random.choice(range(numSamples), size=n)` returns `n` indices below
      `numSamples`; the draw is an input of the model. */
  predicate ValidDraws(draws: seq<int>, n: int, numSamples: int) {
    |draws| == n && forall j :: 0 <= j < |draws| ==> 0 <= draws[j] < numSamples
  }

  function AsIndices(draws: seq<int>): (idx: seq<nat>)
    requires forall j :: 0 <= j < |draws| ==> draws[j] >= 0
    ensures |idx| == |draws| && forall j :: 0 <= j < |draws| ==> idx[j] == draws[j]
  {
    seq(|draws|, j requires 0 <= j < |draws| => draws[j] as nat)
  }

  /** `v[sample_idx]` succeeds on array `v`. */
  predicate Indexable(v: NdArray, draws: seq<int>) {
    v.Node? && forall j :: 0 <= j < |draws| ==> 0 <= draws[j] < |v.items|
  }

  /** `_bootstrap(n)` given the draw: fewer than 2 draws is refused,
      `choice` from an empty range raises ValueError, and indexing an array
      with too few draws raises IndexError. */
  function Bootstrap(samples: Samples, n: int, numSamples: int, draws: seq<int>): (r: Result<Samples>)
    requires n >= 2 && numSamples > 0 ==> ValidDraws(draws, n, numSamples)
    ensures n < 2 ==> r == Err(IllegalArgument(BootstrapMessage))
    ensures n >= 2 && numSamples <= 0 ==> r == Err(ValueError)
    ensures r.Ok? <==> n >= 2 && numSamples > 0 && forall p :: p in samples ==> Indexable(samples[p], draws)
    ensures n >= 2 && numSamples > 0 && r.Err? ==> r.error == IndexError
    // the result has the posterior's keys ...
    ensures r.Ok? ==> r.value.Keys == samples.Keys
    // ... and every array is resampled with the same index vector of length n
    ensures r.Ok? ==> forall p :: p in r.value ==>
              r.value[p].Node? && |r.value[p].items| == n
              && forall j :: 0 <= j < n ==> r.value[p].items[j] == samples[p].items[draws[j]]
  {
    if n < 2 then Err(IllegalArgument(BootstrapMessage))
    else if numSamples <= 0 then Err(ValueError)
    else if exists p :: p in samples && !Indexable(samples[p], draws) then Err(IndexError)
    else Ok(map p | p in samples :: Take(samples[p], AsIndices(draws)).value)
  }

  /** The loop of `_bootstrap` over the posterior's items. */
  method BootstrapEach(samples: Samples, n: int, numSamples: int, draws: seq<int>) returns (r: Result<Samples>)
    requires n >= 2 && numSamples > 0 ==> ValidDraws(draws, n, numSamples)
    ensures r == Bootstrap(samples, n, numSamples, draws)
  {
    if n < 2 {
      return Err(IllegalArgument(BootstrapMessage));
    }
    if numSamples <= 0 {
      return Err(ValueError);
    }
    var sampleIdx := AsIndices(draws);
    var bootstrapSamples: Samples := map[];
    var remaining := samples.Keys;
    while remaining != {}
      invariant remaining <= samples.Keys
      invariant forall p :: p in samples && p !in remaining ==> Indexable(samples[p], draws)
      invariant bootstrapSamples == map p | p in samples && p !in remaining :: Take(samples[p], sampleIdx).value
      decreases remaining
    {
      var k :| k in remaining;
      var taken := Take(samples[k], sampleIdx);
      if taken.Err? {
        return Err(IndexError);
      }
      bootstrapSamples := bootstrapSamples[k := taken.value];
      remaining := remaining - {k};
    }
    assert !exists p :: p in samples && !Indexable(samples[p], draws);
    assert bootstrapSamples == map p | p in samples :: Take(samples[p], sampleIdx).value;
    return Ok(bootstrapSamples);
  }
}
