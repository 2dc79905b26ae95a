/**
  The kernels on n-dimensional arrays. The last axis holds the samples and the
  leading axes are batch axes. A kernel works on each lane along the last axis
  on its own, keeps every leading axis, and makes the last axis one longer.
  This module also models the 2-D and 3-D layouts the integrity test builds
  (rows repeated, then reshaped) and the zero array helper.
*/
module Batched {
  import opened Wrappers
  import opened Calculus

  /** An array of samples: one lane along the last axis, or a stack of sub-arrays along a leading axis. */
  datatype Tensor = Lane(samples: seq<real>) | Stack(slices: seq<Tensor>)

  /**
    t has shape s, listed outermost axis first. A stack of m slices has m as
    its first extent, and every slice has the rest of the shape. This holds
    even when m is zero.
  */
  predicate HasShape(t: Tensor, s: seq<nat>)
  {
    match t
    case Lane(v) => s == [|v|]
    case Stack(ts) => |s| >= 2 && s[0] == |ts| && forall i :: 0 <= i < |ts| ==> HasShape(ts[i], s[1..])
  }

  /** An array value: its shape together with its entries. */
  datatype NdArray = NdArray(shape: seq<nat>, data: Tensor)
  {
    predicate WellShaped()
    {
      |shape| >= 1 && HasShape(data, shape)
    }
  }

  /** The shape with the last axis one longer. */
  function Grown(s: seq<nat>): (g: seq<nat>)
    requires |s| >= 1
    ensures |g| == |s| && g[|s| - 1] == s[|s| - 1] + 1
  {
    s[..|s| - 1] + [s[|s| - 1] + 1]
  }

  /** Every lane holds at least one sample. */
  predicate LanesNonEmpty(t: Tensor)
  {
    match t
    case Lane(v) => |v| >= 1
    case Stack(ts) => forall i :: 0 <= i < |ts| ==> LanesNonEmpty(ts[i])
  }

  /** A kernel applied to every lane along the last axis. */
  function Along(k: Kernel, t: Tensor): (r: Tensor)
    requires LanesNonEmpty(t)
    ensures r.Lane? == t.Lane?
    ensures t.Stack? ==> |r.slices| == |t.slices|
  {
    match t
    case Lane(v) => Lane(Apply1D(k, v))
    case Stack(ts) => Stack(seq(|ts|, i requires 0 <= i < |ts| => Along(k, ts[i])))
  }

  /**
    Shape rule: if the last axis is not empty, every lane holds samples, and
    the result keeps every leading axis and has a last axis one longer.
  */
  lemma {:induction false} AlongShape(k: Kernel, t: Tensor, s: seq<nat>)
    requires HasShape(t, s) && |s| >= 1 && s[|s| - 1] >= 1
    ensures LanesNonEmpty(t) && HasShape(Along(k, t), Grown(s))
  {
    match t
    case Lane(v) =>
    case Stack(ts) =>
      forall i | 0 <= i < |ts|
        ensures LanesNonEmpty(ts[i]) && HasShape(Along(k, ts[i]), Grown(s[1..]))
      {
        AlongShape(k, ts[i], s[1..]);
      }
      assert Grown(s)[1..] == Grown(s[1..]);
  }

  /** Why a kernel rejects an array: which kernel, and the axis that has no samples. */
  datatype KernelError = EmptyLastAxis(kernel: Kernel, axis: nat)

  /**
    A kernel applied to an n-dimensional array. It fails exactly when the last
    axis is empty. Otherwise the result has the input's leading axes and a
    last axis one longer.
  */
  function ApplyKernel(k: Kernel, a: NdArray): (r: Result<NdArray, KernelError>)
    requires a.WellShaped()
    ensures r.Err? <==> a.shape[|a.shape| - 1] == 0
    ensures r.Err? ==> r.error == EmptyLastAxis(k, |a.shape| - 1)
    ensures r.Ok? ==> r.value.WellShaped() && r.value.shape == Grown(a.shape)
  {
    if a.shape[|a.shape| - 1] == 0 then
      Err(EmptyLastAxis(k, |a.shape| - 1))
    else
      AlongShape(k, a.data, a.shape);
      Ok(NdArray(Grown(a.shape), Along(k, a.data)))
  }

  /** The lane reached by choosing one index on each leading axis, if the indices fit. */
  function LaneAt(t: Tensor, path: seq<nat>): Option<seq<real>>
    decreases |path|
  {
    match t
    case Lane(v) => if |path| == 0 then Some(v) else None
    case Stack(ts) =>
      if |path| == 0 || path[0] >= |ts| then None else LaneAt(ts[path[0]], path[1..])
  }

  /** Every index list within the leading extents reaches a lane with the last extent's length. */
  lemma {:induction false} LanesCoverShape(t: Tensor, s: seq<nat>, path: seq<nat>)
    requires HasShape(t, s) && |path| == |s| - 1
    requires forall j :: 0 <= j < |path| ==> path[j] < s[j]
    ensures LaneAt(t, path).Some? && |LaneAt(t, path).value| == s[|s| - 1]
    decreases |path|
  {
    match t
    case Lane(v) =>
    case Stack(ts) =>
      assert path[0] < s[0];
      LanesCoverShape(ts[path[0]], s[1..], path[1..]);
  }

  /**
    The kernel acts lane by lane: the output has a lane exactly where the input
    has one, and that lane is the 1-D kernel applied to the input lane.
  */
  lemma {:induction false} AlongPerLane(k: Kernel, t: Tensor, path: seq<nat>)
    requires LanesNonEmpty(t)
    ensures LaneAt(Along(k, t), path).Some? == LaneAt(t, path).Some?
    ensures LaneAt(t, path).Some? ==>
              |LaneAt(t, path).value| >= 1 &&
              LaneAt(Along(k, t), path).value == Apply1D(k, LaneAt(t, path).value)
    decreases |path|
  {
    match t
    case Lane(v) =>
    case Stack(ts) =>
      if |path| > 0 && path[0] < |ts| {
        AlongPerLane(k, ts[path[0]], path[1..]);
      }
  }

  /**
    The kernel acts only along the last axis: for every choice of indices on
    the leading axes, the output lane there is the 1-D kernel applied to the
    input lane there.
  */
  lemma KernelActsOnLanes(k: Kernel, a: NdArray, path: seq<nat>)
    requires a.WellShaped() && a.shape[|a.shape| - 1] >= 1 && |path| == |a.shape| - 1
    requires forall j :: 0 <= j < |path| ==> path[j] < a.shape[j]
    ensures LaneAt(a.data, path).Some? && |LaneAt(a.data, path).value| == a.shape[|a.shape| - 1]
    ensures ApplyKernel(k, a).Ok?
    ensures LaneAt(ApplyKernel(k, a).value.data, path) == Some(Apply1D(k, LaneAt(a.data, path).value))
  {
    LanesCoverShape(a.data, a.shape, path);
    AlongShape(k, a.data, a.shape);
    AlongPerLane(k, a.data, path);
  }

  /** A 2-D array whose rows are the given sequences. */
  function Matrix(rows: seq<seq<real>>): Tensor
  {
    Stack(seq(|rows|, i requires 0 <= i < |rows| => Lane(rows[i])))
  }

  /** Rows of equal length n make an array of shape (rows, n). */
  lemma MatrixShape(rows: seq<seq<real>>, n: nat)
    requires forall i :: 0 <= i < |rows| ==> |rows[i]| == n
    ensures HasShape(Matrix(rows), [|rows|, n])
  {
  }

  /** The 1-D kernel applied to each row. */
  function Map1D(k: Kernel, rows: seq<seq<real>>): (r: seq<seq<real>>)
    requires forall i :: 0 <= i < |rows| ==> |rows[i]| >= 1
    ensures |r| == |rows|
  {
    seq(|rows|, i requires 0 <= i < |rows| => Apply1D(k, rows[i]))
  }

  /** On a 2-D array the kernel works row by row. */
  lemma RowwiseMatrix(k: Kernel, rows: seq<seq<real>>)
    requires forall i :: 0 <= i < |rows| ==> |rows[i]| >= 1
    ensures LanesNonEmpty(Matrix(rows))
    ensures Along(k, Matrix(rows)) == Matrix(Map1D(k, rows))
  {
  }

  /** One sample vector reshaped to a single row and repeated count times along the first axis. */
  function RepeatRows(x: seq<real>, count: nat): (r: Tensor)
    ensures HasShape(r, [count, |x|])
  {
    var rows := seq(count, _ => x);
    MatrixShape(rows, |x|);
    Matrix(rows)
  }

  /** A kernel applied to repeated rows gives the 1-D result, repeated. */
  lemma RepeatedRows(k: Kernel, x: seq<real>, count: nat)
    requires |x| >= 1
    ensures LanesNonEmpty(RepeatRows(x, count))
    ensures Along(k, RepeatRows(x, count)) == RepeatRows(Apply1D(k, x), count)
  {
    var rows := seq(count, _ => x);
    RowwiseMatrix(k, rows);
    assert Map1D(k, rows) == seq(count, _ => Apply1D(k, x));
  }

  /** Bound used to cut the first axis into blocks of d2. */
  lemma BlockInBounds(i: nat, d1: nat, d2: nat)
    requires i < d1
    ensures 0 <= i * d2 && i * d2 + d2 <= d1 * d2
  {
    assert (i + 1) * d2 <= d1 * d2;
  }

  /** Reshapes a first axis of length d1 * d2 into two axes (d1, d2), in row-major order. */
  function SplitLeading(t: Tensor, d1: nat, d2: nat): (r: Tensor)
    requires t.Stack? && |t.slices| == d1 * d2
    ensures r.Stack? && |r.slices| == d1
  {
    Stack(seq(d1, i requires 0 <= i < d1 =>
      BlockInBounds(i, d1, d2);
      Stack(t.slices[i * d2 .. i * d2 + d2])))
  }

  /** Block i of the reshaped axes is the run of d2 slices starting at i * d2. */
  lemma SplitLeadingBlock(t: Tensor, d1: nat, d2: nat, i: nat)
    requires t.Stack? && |t.slices| == d1 * d2 && i < d1
    ensures 0 <= i * d2 && i * d2 + d2 <= |t.slices|
    ensures SplitLeading(t, d1, d2).slices[i] == Stack(t.slices[i * d2 .. i * d2 + d2])
  {
    BlockInBounds(i, d1, d2);
  }

  /** The slices of the given stacks, one stack after another (a lane contributes nothing). */
  function Concat(blocks: seq<Tensor>): seq<Tensor>
  {
    if |blocks| == 0 then []
    else
      var last := blocks[|blocks| - 1];
      Concat(blocks[..|blocks| - 1]) + (if last.Stack? then last.slices else [])
  }

  /** The first k blocks end where block k - 1 ends, at k * d2. */
  lemma BlockEnd(k: nat, d1: nat, d2: nat)
    requires 1 <= k <= d1
    ensures 0 <= (k - 1) * d2 && (k - 1) * d2 + d2 == k * d2 && k * d2 <= d1 * d2
  {
    BlockInBounds(k - 1, d1, d2);
  }

  /** The first k blocks of the reshaped axes, joined, are the first k * d2 entries of the original axis. */
  lemma {:induction false} ConcatBlocks(t: Tensor, d1: nat, d2: nat, k: nat, hi: nat)
    requires t.Stack? && |t.slices| == d1 * d2 && k <= d1 && hi == k * d2
    ensures hi <= |t.slices|
    ensures Concat(SplitLeading(t, d1, d2).slices[..k]) == t.slices[..hi]
    decreases k
  {
    var blocks := SplitLeading(t, d1, d2).slices;
    if k == 0 {
      assert blocks[..0] == [] && t.slices[..hi] == [];
    } else {
      BlockEnd(k, d1, d2);
      var lo := (k - 1) * d2;
      ConcatBlocks(t, d1, d2, k - 1, lo);
      SplitLeadingBlock(t, d1, d2, k - 1);
      assert blocks[..k][..k - 1] == blocks[..k - 1];
      assert t.slices[..lo] + t.slices[lo..hi] == t.slices[..hi];
    }
  }

  /**
    Row-major order: joining the d1 blocks of the reshaped axes, in order,
    gives back the original axis of d1 * d2 entries.
  */
  lemma SplitLeadingRowMajor(t: Tensor, d1: nat, d2: nat)
    requires t.Stack? && |t.slices| == d1 * d2
    ensures Concat(SplitLeading(t, d1, d2).slices) == t.slices
  {
    ConcatBlocks(t, d1, d2, d1, d1 * d2);
    assert SplitLeading(t, d1, d2).slices[..d1] == SplitLeading(t, d1, d2).slices;
    assert t.slices[..d1 * d2] == t.slices;
  }

  /** A run of consecutive slices has the same trailing shape as the whole stack. */
  lemma BlockShape(t: Tensor, s: seq<nat>, lo: nat, hi: nat)
    requires HasShape(t, s) && t.Stack? && lo <= hi <= |t.slices|
    ensures HasShape(Stack(t.slices[lo..hi]), [hi - lo] + s[1..])
  {
  }

  /** The kernel applied to a run of slices is the same run of the kernel's output. */
  lemma AlongOfBlock(k: Kernel, t: Tensor, lo: nat, hi: nat)
    requires t.Stack? && LanesNonEmpty(t) && lo <= hi <= |t.slices|
    ensures LanesNonEmpty(Stack(t.slices[lo..hi]))
    ensures Along(k, Stack(t.slices[lo..hi])) == Stack(Along(k, t).slices[lo..hi])
  {
    var blk := t.slices[lo..hi];
    forall j | 0 <= j < hi - lo
      ensures LanesNonEmpty(blk[j])
    {
      assert blk[j] == t.slices[lo + j];
    }
    var lhs, rhs := Along(k, Stack(blk)), Along(k, t).slices[lo..hi];
    forall j | 0 <= j < hi - lo
      ensures lhs.slices[j] == rhs[j]
    {
      assert blk[j] == t.slices[lo + j];
    }
  }

  /** Reshaping (d1 * d2, ...) into (d1, d2, ...) keeps the trailing axes. */
  lemma SplitLeadingShape(t: Tensor, d1: nat, d2: nat, s: seq<nat>)
    requires HasShape(t, s) && |s| >= 2 && s[0] == d1 * d2
    ensures t.Stack? && HasShape(SplitLeading(t, d1, d2), [d1, d2] + s[1..])
  {
    var r := SplitLeading(t, d1, d2);
    var s3 := [d1, d2] + s[1..];
    assert s3[1..] == [d2] + s[1..];
    forall i | 0 <= i < d1
      ensures HasShape(r.slices[i], s3[1..])
    {
      SplitBlockShape(t, d1, d2, s, i);
    }
  }

  /** Block i of the reshaped axes has shape (d2, ...). */
  lemma SplitBlockShape(t: Tensor, d1: nat, d2: nat, s: seq<nat>, i: nat)
    requires HasShape(t, s) && |s| >= 2 && s[0] == d1 * d2 && i < d1
    ensures t.Stack? && HasShape(SplitLeading(t, d1, d2).slices[i], [d2] + s[1..])
  {
    SplitLeadingBlock(t, d1, d2, i);
    var lo := i * d2;
    BlockShape(t, s, lo, lo + d2);
  }

  /** Block i of the reshaped kernel output is the kernel applied to block i of the reshaped input. */
  lemma AlongOfSplitBlock(k: Kernel, t: Tensor, d1: nat, d2: nat, i: nat)
    requires t.Stack? && |t.slices| == d1 * d2 && LanesNonEmpty(t) && i < d1
    ensures LanesNonEmpty(SplitLeading(t, d1, d2).slices[i])
    ensures Along(k, SplitLeading(t, d1, d2).slices[i]) == SplitLeading(Along(k, t), d1, d2).slices[i]
  {
    var out := Along(k, t);
    SplitLeadingBlock(t, d1, d2, i);
    SplitLeadingBlock(out, d1, d2, i);
    var lo := i * d2;
    AlongOfBlock(k, t, lo, lo + d2);
  }

  /** Applying the kernel and reshaping the leading axis give the same array in either order. */
  lemma AlongCommutesWithSplit(k: Kernel, t: Tensor, d1: nat, d2: nat)
    requires t.Stack? && |t.slices| == d1 * d2 && LanesNonEmpty(t)
    ensures LanesNonEmpty(SplitLeading(t, d1, d2))
    ensures Along(k, SplitLeading(t, d1, d2)) == SplitLeading(Along(k, t), d1, d2)
  {
    var split := SplitLeading(t, d1, d2);
    forall i | 0 <= i < d1
      ensures LanesNonEmpty(split.slices[i])
      ensures Along(k, split.slices[i]) == SplitLeading(Along(k, t), d1, d2).slices[i]
    {
      AlongOfSplitBlock(k, t, d1, d2, i);
    }
  }

  /** numpy's reshape of a (d1 * d2, n) array to (d1, d2, n). */
  function Reshape3(a: NdArray, d1: nat, d2: nat): (r: NdArray)
    requires a.WellShaped() && |a.shape| == 2 && a.shape[0] == d1 * d2
    ensures r.WellShaped() && r.shape == [d1, d2, a.shape[1]]
  {
    SplitLeadingShape(a.data, d1, d2, a.shape);
    assert [d1, d2] + a.shape[1..] == [d1, d2, a.shape[1]];
    NdArray([d1, d2, a.shape[1]], SplitLeading(a.data, d1, d2))
  }

  /**
    The kernel treats the leading axes of a 2-D array as a batch: reshaping
    the batch into (d1, d2) before the kernel gives the same result as
    reshaping after it.
  */
  lemma KernelCommutesWithReshape(k: Kernel, a: NdArray, d1: nat, d2: nat)
    requires a.WellShaped() && |a.shape| == 2 && a.shape[0] == d1 * d2
    ensures ApplyKernel(k, a).Ok? == ApplyKernel(k, Reshape3(a, d1, d2)).Ok?
    ensures ApplyKernel(k, a).Ok? ==>
              ApplyKernel(k, Reshape3(a, d1, d2)).value == Reshape3(ApplyKernel(k, a).value, d1, d2)
  {
    if a.shape[1] > 0 {
      AlongShape(k, a.data, a.shape);
      AlongCommutesWithSplit(k, a.data, d1, d2);
    }
  }

  /** The one-dimensional case of the integrity test: the kernel gives the expected output and one more sample. */
  lemma VectorIntegrity(k: Kernel, x: seq<real>)
    requires |x| >= 1
    ensures NdArray([|x|], Lane(x)).WellShaped()
    ensures ApplyKernel(k, NdArray([|x|], Lane(x))) == Ok(NdArray([|x| + 1], Lane(Setup(k, x))))
  {
    Apply1DMatchesSetup(k, x);
  }

  /**
    The two-dimensional case of the integrity test: d copies of x as rows give
    d copies of the expected output as rows, in shape (d, n + 1).
  */
  lemma MatrixIntegrity(k: Kernel, x: seq<real>, d: nat)
    requires |x| >= 1
    ensures NdArray([d, |x|], RepeatRows(x, d)).WellShaped()
    ensures ApplyKernel(k, NdArray([d, |x|], RepeatRows(x, d)))
         == Ok(NdArray([d, |x| + 1], RepeatRows(Setup(k, x), d)))
  {
    MatrixShape(seq(d, _ => x), |x|);
    RepeatedRows(k, x, d);
    Apply1DMatchesSetup(k, x);
    assert Grown([d, |x|]) == [d, |x| + 1];
  }

  /**
    The three-dimensional case of the integrity test: d * d copies of x, run
    through the kernel and reshaped to (d, d, n + 1), have the input's leading
    shape with the last axis one longer, and equal the expected rows reshaped
    the same way.
  */
  lemma CubeIntegrity(k: Kernel, x: seq<real>, d: nat)
    requires |x| >= 1
    ensures NdArray([d * d, |x|], RepeatRows(x, d * d)).WellShaped()
    ensures NdArray([d * d, |x| + 1], RepeatRows(Setup(k, x), d * d)).WellShaped()
    ensures ApplyKernel(k, NdArray([d * d, |x|], RepeatRows(x, d * d))).Ok?
    ensures
      var input := NdArray([d * d, |x|], RepeatRows(x, d * d));
      var output := Reshape3(ApplyKernel(k, input).value, d, d);
      output.shape == Grown(Reshape3(input, d, d).shape) &&
      output == Reshape3(NdArray([d * d, |x| + 1], RepeatRows(Setup(k, x), d * d)), d, d)
  {
    MatrixIntegrity(k, x, d * d);
    MatrixShape(seq(d * d, _ => Setup(k, x)), |x| + 1);
    assert Grown([d, d, |x|]) == [d, d, |x| + 1];
  }

  /** Every entry is zero. */
  predicate AllZero(t: Tensor)
  {
    match t
    case Lane(v) => forall j :: 0 <= j < |v| ==> v[j] == 0.0
    case Stack(ts) => forall i :: 0 <= i < |ts| ==> AllZero(ts[i])
  }

  /** What the zero array helper gives: a scalar zero, or an array of zeros. */
  datatype NdValue = Scalar(value: real) | Dense(dense: NdArray)

  /**
    The zero padding for an array of the given rank whose first axis has n
    entries: the scalar 0.0 for rank 1, a zero column of shape (n, 1) for
    rank 2. Other ranks have no padding.
  */
  function ZeroArray(n: nat, ndim: nat): (r: Option<NdValue>)
    ensures r.Some? <==> ndim == 1 || ndim == 2
    ensures ndim == 1 ==> r == Some(Scalar(0.0))
    ensures ndim == 2 ==>
              r.Some? && r.value.Dense? && r.value.dense.WellShaped() &&
              r.value.dense.shape == [n, 1] && AllZero(r.value.dense.data)
  {
    if ndim == 1 then
      Some(Scalar(0.0))
    else if ndim == 2 then
      var rows := seq(n, _ => [0.0]);
      MatrixShape(rows, 1);
      Some(Dense(NdArray([n, 1], Matrix(rows))))
    else
      None
  }

  /** Both kernels map zeros to zeros. */
  lemma Apply1DOfZeros(k: Kernel, v: seq<real>)
    requires |v| >= 1 && forall j :: 0 <= j < |v| ==> v[j] == 0.0
    ensures forall j :: 0 <= j < |v| + 1 ==> Apply1D(k, v)[j] == 0.0
  {
  }

  /** A kernel applied to an array of zeros gives zeros. */
  lemma {:induction false} AlongOfZeros(k: Kernel, t: Tensor)
    requires LanesNonEmpty(t) && AllZero(t)
    ensures AllZero(Along(k, t))
  {
    match t
    case Lane(v) =>
      Apply1DOfZeros(k, v);
    case Stack(ts) =>
      var r := Along(k, t);
      forall i | 0 <= i < |ts|
        ensures AllZero(r.slices[i])
      {
        AlongOfZeros(k, ts[i]);
      }
  }

  /** The rank-2 zero padding, run through either kernel, is a zero array of shape (n, 2). */
  lemma KernelOfZeroArray(k: Kernel, n: nat)
    ensures ZeroArray(n, 2).value.dense.WellShaped()
    ensures ApplyKernel(k, ZeroArray(n, 2).value.dense).Ok?
    ensures
      var out := ApplyKernel(k, ZeroArray(n, 2).value.dense).value;
      out.shape == [n, 2] && AllZero(out.data)
  {
    var a := ZeroArray(n, 2).value.dense;
    AlongShape(k, a.data, a.shape);
    AlongOfZeros(k, a.data);
    assert Grown([n, 1]) == [n, 2];
  }
}
