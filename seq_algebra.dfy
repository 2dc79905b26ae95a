/**
  Sums, inner products and the two neighbour operators that move values
  between the nodes and the elements of a discretised rod: for n + 1 node
  values, `Diffs` gives the n element differences and `Avgs` the n element
  averages. The lemmas are the discrete telescoping and summation-by-parts
  identities the calculus kernels rest on.
*/
module SeqAlgebra {

  /** Sum of a sequence, peeling off the last element. */
  function Sum(s: seq<real>): real
  {
    if |s| == 0 then 0.0 else Sum(s[..|s| - 1]) + s[|s| - 1]
  }

  /** Inner product of two sequences of equal length. */
  function Dot(a: seq<real>, b: seq<real>): real
    requires |a| == |b|
  {
    DotTo(a, b, |a|)
  }

  /** Inner product of the first k elements of two sequences. */
  function DotTo(a: seq<real>, b: seq<real>, k: nat): real
    requires |a| == |b| && k <= |a|
  {
    if k == 0 then 0.0 else DotTo(a, b, k - 1) + a[k - 1] * b[k - 1]
  }

  /** Element-wise difference a - b. */
  function Sub(a: seq<real>, b: seq<real>): (c: seq<real>)
    requires |a| == |b|
    ensures |c| == |a|
  {
    seq(|a|, i requires 0 <= i < |a| => a[i] - b[i])
  }

  /** Element-wise mean (a + b) / 2. */
  function Mean(a: seq<real>, b: seq<real>): (c: seq<real>)
    requires |a| == |b|
    ensures |c| == |a|
  {
    seq(|a|, i requires 0 <= i < |a| => 0.5 * (a[i] + b[i]))
  }

  /** Forward differences of neighbours: element i is p[i+1] - p[i]. */
  function Diffs(p: seq<real>): (d: seq<real>)
    requires |p| >= 1
    ensures |d| == |p| - 1
  {
    Sub(p[1..], p[..|p| - 1])
  }

  /** Averages of neighbours: element i is the mean of p[i] and p[i+1]. */
  function Avgs(p: seq<real>): (a: seq<real>)
    requires |p| >= 1
    ensures |a| == |p| - 1
  {
    Mean(p[..|p| - 1], p[1..])
  }

  /** Summing distributes over concatenation. */
  lemma {:induction false} SumConcat(a: seq<real>, b: seq<real>)
    ensures Sum(a + b) == Sum(a) + Sum(b)
    decreases |b|
  {
    if |b| > 0 {
      assert (a + b)[..|a + b| - 1] == a + b[..|b| - 1];
      SumConcat(a, b[..|b| - 1]);
    } else {
      assert a + b == a;
    }
  }

  /** Differences telescope: their partial sums are the node values relative to the first node. */
  lemma {:induction false} DiffsTelescope(p: seq<real>, k: nat)
    requires k < |p|
    ensures Sum(Diffs(p)[..k]) == p[k] - p[0]
  {
    if k > 0 {
      assert Diffs(p)[..k][..k - 1] == Diffs(p)[..k - 1];
      DiffsTelescope(p, k - 1);
    }
  }

  /**
    Averages conserve the sum up to half of each end value: every interior node
    contributes half to each of its two elements, each end node half to one.
  */
  lemma {:induction false} AvgsPartialSum(p: seq<real>, k: nat)
    requires k < |p|
    ensures Sum(Avgs(p)[..k]) == Sum(p[..k + 1]) - 0.5 * (p[0] + p[k])
  {
    if k > 0 {
      assert Avgs(p)[..k][..k - 1] == Avgs(p)[..k - 1];
      assert p[..k + 1][..k] == p[..k];
      AvgsPartialSum(p, k - 1);
    }
  }

  /** The averages of m + 1 node values sum to their total less half of each end value. */
  lemma AvgsSum(p: seq<real>)
    requires |p| >= 1
    ensures Sum(Avgs(p)) == Sum(p) - 0.5 * (p[0] + p[|p| - 1])
  {
    AvgsPartialSum(p, |p| - 1);
    assert Avgs(p)[..|p| - 1] == Avgs(p);
    assert p[..|p|] == p;
  }

  /** Pairing with a difference is the difference of the pairings. */
  lemma DotSub(a: seq<real>, b: seq<real>, y: seq<real>)
    requires |a| == |b| == |y|
    ensures Dot(Sub(a, b), y) == Dot(a, y) - Dot(b, y)
  {
    DotToSub(a, b, y, |y|);
  }

  lemma {:induction false} DotToSub(a: seq<real>, b: seq<real>, y: seq<real>, k: nat)
    requires |a| == |b| == |y| && k <= |y|
    ensures DotTo(Sub(a, b), y, k) == DotTo(a, y, k) - DotTo(b, y, k)
  {
    if k > 0 {
      DotToSub(a, b, y, k - 1);
      assert Sub(a, b)[k - 1] == a[k - 1] - b[k - 1];
    }
  }

  /** Pairing with a mean is the mean of the pairings. */
  lemma DotMean(a: seq<real>, b: seq<real>, y: seq<real>)
    requires |a| == |b| == |y|
    ensures Dot(Mean(a, b), y) == 0.5 * (Dot(a, y) + Dot(b, y))
  {
    DotToMean(a, b, y, |y|);
  }

  lemma {:induction false} DotToMean(a: seq<real>, b: seq<real>, y: seq<real>, k: nat)
    requires |a| == |b| == |y| && k <= |y|
    ensures DotTo(Mean(a, b), y, k) == 0.5 * (DotTo(a, y, k) + DotTo(b, y, k))
  {
    if k > 0 {
      DotToMean(a, b, y, k - 1);
      assert Mean(a, b)[k - 1] == 0.5 * (a[k - 1] + b[k - 1]);
    }
  }

  /** The inner product is symmetric. */
  lemma DotSymmetric(a: seq<real>, b: seq<real>)
    requires |a| == |b|
    ensures Dot(a, b) == Dot(b, a)
  {
    DotToSymmetric(a, b, |a|);
  }

  lemma {:induction false} DotToSymmetric(a: seq<real>, b: seq<real>, k: nat)
    requires |a| == |b| && k <= |a|
    ensures DotTo(a, b, k) == DotTo(b, a, k)
  {
    if k > 0 {
      DotToSymmetric(a, b, k - 1);
    }
  }

  /** Splitting off the first product of an inner product. */
  lemma DotFirst(a: seq<real>, b: seq<real>)
    requires |a| == |b| >= 1
    ensures Dot(a, b) == a[0] * b[0] + Dot(a[1..], b[1..])
  {
    DotToFirst(a, b, |a|);
  }

  lemma {:induction false} DotToFirst(a: seq<real>, b: seq<real>, k: nat)
    requires |a| == |b| && 1 <= k <= |a|
    ensures DotTo(a, b, k) == a[0] * b[0] + DotTo(a[1..], b[1..], k - 1)
  {
    if k > 1 {
      DotToFirst(a, b, k - 1);
      assert a[1..][k - 1 - 1] == a[k - 1] && b[1..][k - 1 - 1] == b[k - 1];
    }
  }

  /** Splitting off the last product of an inner product. */
  lemma DotLast(a: seq<real>, b: seq<real>)
    requires |a| == |b| >= 1
    ensures Dot(a, b) == Dot(a[..|a| - 1], b[..|b| - 1]) + a[|a| - 1] * b[|b| - 1]
  {
    DotToPrefix(a, b, |a| - 1, |a| - 1);
  }

  /** A partial inner product depends only on the elements it covers. */
  lemma {:induction false} DotToPrefix(a: seq<real>, b: seq<real>, j: nat, k: nat)
    requires |a| == |b| && k <= j <= |a|
    ensures DotTo(a, b, k) == DotTo(a[..j], b[..j], k)
  {
    if k > 0 {
      DotToPrefix(a, b, j, k - 1);
    }
  }

  /**
    Summation by parts: pairing the differences of m + 1 node values with m
    element values moves the difference onto the element values, leaving the
    two boundary products.
  */
  lemma DiffsByParts(p: seq<real>, y: seq<real>)
    requires |y| >= 1 && |p| == |y| + 1
    ensures Dot(Diffs(p), y)
         == p[|y|] * y[|y| - 1] - p[0] * y[0] - Dot(p[1..|y|], Diffs(y))
  {
    var m := |y|;
    var inner := p[1..m];
    DotSub(p[1..], p[..m], y);
    DotLast(p[1..], y);
    assert p[1..][..m - 1] == inner;
    DotFirst(p[..m], y);
    assert p[..m][1..] == inner;
    DotSymmetric(inner, Diffs(y));
    DotSub(y[1..], y[..m - 1], inner);
    DotSymmetric(inner, y[1..]);
    DotSymmetric(inner, y[..m - 1]);
  }

  /**
    Summation by parts for averages: pairing the averages of m + 1 node values
    with m element values equals pairing the interior nodes with the averages
    of the element values, plus half of each boundary product.
  */
  lemma AvgsByParts(p: seq<real>, y: seq<real>)
    requires |y| >= 1 && |p| == |y| + 1
    ensures Dot(Avgs(p), y)
         == 0.5 * p[0] * y[0] + 0.5 * p[|y|] * y[|y| - 1] + Dot(p[1..|y|], Avgs(y))
  {
    var m := |y|;
    var inner := p[1..m];
    DotMean(p[..m], p[1..], y);
    DotLast(p[1..], y);
    assert p[1..][..m - 1] == inner;
    DotFirst(p[..m], y);
    assert p[..m][1..] == inner;
    DotSymmetric(inner, Avgs(y));
    DotMean(y[..m - 1], y[1..], inner);
    DotSymmetric(inner, y[1..]);
    DotSymmetric(inner, y[..m - 1]);
  }
}
