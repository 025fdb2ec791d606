/** The numpy arrays the core handles, reduced to their shape and, where the
    core combines them, to exact real arithmetic. */
module Tensors {
  import opened Wrappers

  /** A numpy array of any rank: a scalar, or a sequence of sub-arrays
      along its leading axis. */
  datatype NdArray = Leaf(x: real) | Node(items: seq<NdArray>)

  /** `a.shape[0]`: a 0-d array has no leading axis. */
  function LeadingDim(a: NdArray): (r: Result<nat>)
    ensures r.Ok? <==> a.Node?
    ensures r.Ok? ==> r.value == |a.items|
  {
    match a
    case Leaf(_) => Err(IndexError)
    case Node(items) => Ok(|items|)
  }

  /** `np.expand_dims(a, axis=0)`: the same array under a new leading axis of size 1. */
  function ExpandDims(a: NdArray): (r: NdArray)
    ensures LeadingDim(r) == Ok(1) && r.items[0] == a
  {
    Node([a])
  }

  /** `a[idx]` for an integer index vector: the sub-arrays at the given
      positions, in the order of `idx`; an index past the leading axis raises. */
  function Take(a: NdArray, idx: seq<nat>): (r: Result<NdArray>)
    ensures r.Ok? <==> a.Node? && forall j :: 0 <= j < |idx| ==> idx[j] < |a.items|
    ensures r.Ok? ==> r.value.Node? && |r.value.items| == |idx|
    ensures r.Ok? ==> forall j :: 0 <= j < |idx| ==> r.value.items[j] == a.items[idx[j]]
  {
    if a.Leaf? || exists j :: 0 <= j < |idx| && idx[j] >= |a.items| then Err(IndexError)
    else Ok(Node(seq(|idx|, j requires 0 <= j < |idx| => a.items[idx[j]])))
  }

  type Matrix = seq<seq<real>>

  /** Every row of `m` has `cols` entries. */
  predicate Width(m: Matrix, cols: nat) {
    forall i :: 0 <= i < |m| ==> |m[i]| == cols
  }

  predicate IsMatrix(m: Matrix, rows: nat, cols: nat) {
    |m| == rows && Width(m, cols)
  }

  function Zeros(rows: nat, cols: nat): (m: Matrix)
    ensures IsMatrix(m, rows, cols)
    ensures forall i, j :: 0 <= i < rows && 0 <= j < cols ==> m[i][j] == 0.0
  {
    seq(rows, _ => seq(cols, _ => 0.0))
  }

  function Dot(a: seq<real>, b: seq<real>): real
    requires |a| == |b|
  {
    if a == [] then 0.0 else Dot(a[..|a| - 1], b[..|b| - 1]) + a[|a| - 1] * b[|b| - 1]
  }

  /** Elementwise sum of two matrices of the same shape. */
  function Add(a: Matrix, b: Matrix, cols: nat): (c: Matrix)
    requires IsMatrix(a, |a|, cols) && IsMatrix(b, |a|, cols)
    ensures IsMatrix(c, |a|, cols)
    ensures forall i, j :: 0 <= i < |a| && 0 <= j < cols ==> c[i][j] == a[i][j] + b[i][j]
  {
    seq(|a|, i requires 0 <= i < |a| => seq(cols, j requires 0 <= j < cols => a[i][j] + b[i][j]))
  }

  /** The real matrix an array holds when it is two-dimensional. */
  function AsMatrix(a: NdArray): (r: Option<Matrix>)
    ensures r.Some? ==> a.Node? && |r.value| == |a.items|
  {
    if a.Node? && forall i :: 0 <= i < |a.items| ==> IsVector(a.items[i])
    then Some(seq(|a.items|, i requires 0 <= i < |a.items| => Values(a.items[i])))
    else None
  }

  /** The real three-dimensional block an array holds when it has rank 3. */
  function As3D(a: NdArray): (r: Option<seq<Matrix>>)
    ensures r.Some? ==> a.Node? && |r.value| == |a.items|
  {
    if a.Node? && forall i :: 0 <= i < |a.items| ==> AsMatrix(a.items[i]).Some?
    then Some(seq(|a.items|, i requires 0 <= i < |a.items| => AsMatrix(a.items[i]).value))
    else None
  }

  predicate IsVector(a: NdArray) {
    a.Node? && forall i :: 0 <= i < |a.items| ==> a.items[i].Leaf?
  }

  function Values(a: NdArray): (r: seq<real>)
    requires IsVector(a)
    ensures |r| == |a.items|
  {
    seq(|a.items|, i requires 0 <= i < |a.items| => a.items[i].x)
  }

  /** `a.flatten()` of a matrix: its rows one after another. */
  function Flatten(m: Matrix): (r: seq<real>)
    ensures |m| == 1 ==> r == m[0]
  {
    if m == [] then [] else m[0] + Flatten(m[1..])
  }
}
