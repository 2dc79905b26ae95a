/**
  The two discrete-calculus kernels a Cosserat rod uses to move per-node
  values onto elements and back: a trapezoidal quadrature and a two-point
  difference. Both take n samples to n + 1 outputs by treating the samples as
  if a zero sat beyond each end; values are exact reals, not floating point.
*/
module Calculus {
  import opened SeqAlgebra

  /** The samples with one zero appended at each end: the boundary both kernels assume. */
  function Padded(x: seq<real>): (p: seq<real>)
    ensures |p| == |x| + 2 && p[0] == 0.0 && p[|x| + 1] == 0.0 && p[1..|x| + 1] == x
  {
    [0.0] + x + [0.0]
  }

  /**
    Trapezoidal quadrature: output i is the mean of the samples on either side
    of it in the zero-padded input, so the two end outputs carry half of the
    end samples and every interior output the mean of two neighbours.
  */
  function Trapezoidal(x: seq<real>): (r: seq<real>)
    requires |x| >= 1
    ensures |r| == |x| + 1
    ensures r[0] == 0.5 * x[0] && r[|x|] == 0.5 * x[|x| - 1]
  {
    Avgs(Padded(x))
  }

  /** Interior output i of the quadrature is the mean of samples i - 1 and i. */
  lemma TrapezoidalInterior(x: seq<real>, i: nat)
    requires 1 <= i < |x|
    ensures Trapezoidal(x)[i] == 0.5 * (x[i] + x[i - 1])
  {
  }

  /**
    Two-point difference: output i is the jump between the samples on either
    side of it in the zero-padded input, so the first output is the first
    sample, the last output the negated last sample.
  */
  function TwoPointDifference(x: seq<real>): (r: seq<real>)
    requires |x| >= 1
    ensures |r| == |x| + 1
    ensures r[0] == x[0] && r[|x|] == -x[|x| - 1]
  {
    Diffs(Padded(x))
  }

  /** Interior output i of the difference is sample i less sample i - 1. */
  lemma DifferenceInterior(x: seq<real>, i: nat)
    requires 1 <= i < |x|
    ensures TwoPointDifference(x)[i] == x[i] - x[i - 1]
  {
  }

  /** The two kernels, as a test parametrised over both of them selects one. */
  datatype Kernel = TrapezoidalKernel | DifferenceKernel

  /** One kernel applied to a single lane of samples. */
  function Apply1D(k: Kernel, x: seq<real>): (r: seq<real>)
    requires |x| >= 1
    ensures |r| == |x| + 1
  {
    match k
    case TrapezoidalKernel => Trapezoidal(x)
    case DifferenceKernel => TwoPointDifference(x)
  }

  /**
    The expected quadrature the test assembles by stacking: half the first
    sample, the means of neighbouring samples, half the last sample.
  */
  function TrapezoidalSetup(x: seq<real>): (r: seq<real>)
    requires |x| >= 1
    ensures |r| == |x| + 1
  {
    [0.5 * x[0]] + Mean(x[1..], x[..|x| - 1]) + [0.5 * x[|x| - 1]]
  }

  /**
    The expected difference the test assembles by stacking: the first sample,
    the differences of neighbouring samples, the negated last sample.
  */
  function DifferenceSetup(x: seq<real>): (r: seq<real>)
    requires |x| >= 1
    ensures |r| == |x| + 1
  {
    [x[0]] + Sub(x[1..], x[..|x| - 1]) + [-x[|x| - 1]]
  }

  /** The quadrature agrees with the test's stacked construction on every input. */
  lemma TrapezoidalMatchesSetup(x: seq<real>)
    requires |x| >= 1
    ensures Trapezoidal(x) == TrapezoidalSetup(x)
  {
  }

  /** The difference agrees with the test's stacked construction on every input. */
  lemma DifferenceMatchesSetup(x: seq<real>)
    requires |x| >= 1
    ensures TwoPointDifference(x) == DifferenceSetup(x)
  {
  }

  /** The expected output the test builds for the kernel it is parametrised with. */
  function Setup(k: Kernel, x: seq<real>): (r: seq<real>)
    requires |x| >= 1
    ensures |r| == |x| + 1
  {
    match k
    case TrapezoidalKernel => TrapezoidalSetup(x)
    case DifferenceKernel => DifferenceSetup(x)
  }

  /** Either kernel agrees with the expected output the test builds for it. */
  lemma Apply1DMatchesSetup(k: Kernel, x: seq<real>)
    requires |x| >= 1
    ensures Apply1D(k, x) == Setup(k, x)
  {
    match k
    case TrapezoidalKernel => TrapezoidalMatchesSetup(x);
    case DifferenceKernel => DifferenceMatchesSetup(x);
  }

  /** The quadrature conserves the total: each sample gives half to each of its two outputs. */
  lemma TrapezoidalConservesSum(x: seq<real>)
    requires |x| >= 1
    ensures Sum(Trapezoidal(x)) == Sum(x)
  {
    AvgsSum(Padded(x));
    PaddedSum(x);
  }

  /** Padding with zeros leaves the total unchanged. */
  lemma PaddedSum(x: seq<real>)
    ensures Sum(Padded(x)) == Sum(x)
  {
    var p := Padded(x);
    assert p[..|p| - 1] == [0.0] + x;
    SumConcat([0.0], x);
    assert [0.0][..0] == [];
  }

  /** The differences telescope: their partial sums give back the samples. */
  lemma DifferencePartialSum(x: seq<real>, k: nat)
    requires k < |x|
    ensures Sum(TwoPointDifference(x)[..k + 1]) == x[k]
  {
    DiffsTelescope(Padded(x), k + 1);
  }

  /** The differences sum to exactly zero: the boundary terms cancel the telescoped sum. */
  lemma DifferenceSumsToZero(x: seq<real>)
    requires |x| >= 1
    ensures Sum(TwoPointDifference(x)) == 0.0
  {
    var d := TwoPointDifference(x);
    DiffsTelescope(Padded(x), |x| + 1);
    assert d[..|x| + 1] == d;
  }

  /** Running totals: element i is the sum of the first i + 1 elements. */
  function CumulativeSum(d: seq<real>): (c: seq<real>)
    ensures |c| == |d|
  {
    seq(|d|, i requires 0 <= i < |d| => Sum(d[..i + 1]))
  }

  /**
    Summing the differences recovers the samples, followed by the zero the
    difference assumed beyond the last sample.
  */
  lemma CumulativeSumOfDifference(x: seq<real>)
    requires |x| >= 1
    ensures CumulativeSum(TwoPointDifference(x)) == x + [0.0]
  {
    var d := TwoPointDifference(x);
    var c := CumulativeSum(d);
    forall i | 0 <= i < |c|
      ensures c[i] == (x + [0.0])[i]
    {
      if i < |x| {
        DifferencePartialSum(x, i);
      } else {
        DifferenceSumsToZero(x);
        assert d[..i + 1] == d;
      }
    }
  }

  /**
    Conversely, any n + 1 values that sum to zero are the two-point difference
    of their first n running totals: the kernel maps n samples one-to-one onto
    the zero-sum sequences of length n + 1.
  */
  lemma DifferenceOfCumulativeSum(d: seq<real>)
    requires |d| >= 2 && Sum(d) == 0.0
    ensures TwoPointDifference(CumulativeSum(d)[..|d| - 1]) == d
  {
    var n := |d| - 1;
    var c := CumulativeSum(d);
    var x := c[..n];
    var r := TwoPointDifference(x);
    forall i | 0 <= i <= n
      ensures r[i] == d[i]
    {
      if i == 0 {
        assert c[0] == Sum(d[..1]);
        assert d[..1][..0] == [];
      } else if i < n {
        assert c[i] == Sum(d[..i + 1]) && c[i - 1] == Sum(d[..i]);
        assert d[..i + 1][..i] == d[..i];
      } else {
        assert c[n - 1] == Sum(d[..n]);
        assert d[..n + 1] == d;
      }
    }
  }

  /**
    The difference is minus the transpose of the node-to-element forward
    difference: pairing the n + 1 outputs with n + 1 values y equals minus
    pairing the samples with the n differences of y (discrete integration by
    parts, with the zero ends absorbing the boundary terms).
  */
  lemma DifferenceAdjoint(x: seq<real>, y: seq<real>)
    requires |x| >= 1 && |y| == |x| + 1
    ensures Dot(TwoPointDifference(x), y) == -Dot(x, Diffs(y))
  {
    DiffsByParts(Padded(x), y);
  }

  /**
    The quadrature is the transpose of the node-to-element average: pairing the
    n + 1 outputs with n + 1 values y equals pairing the samples with the n
    neighbour means of y.
  */
  lemma TrapezoidalAdjoint(x: seq<real>, y: seq<real>)
    requires |x| >= 1 && |y| == |x| + 1
    ensures Dot(Trapezoidal(x), y) == Dot(x, Avgs(y))
  {
    AvgsByParts(Padded(x), y);
  }
}
