# PyElastica discrete-calculus kernels

This project models the two discrete-calculus kernels that PyElastica's rod
code uses to move per-node values onto elements and back, together with the
zero-array helper that goes with them.

- `_trapezoidal` is a trapezoidal quadrature. For n samples it returns n + 1
  outputs. The two end outputs are half of the end samples. Every interior
  output is the mean of its two neighbouring samples.
- `_two_point_difference` is a two-point difference. For n samples it returns
  n + 1 outputs. The first output is the first sample and the last output is
  the negated last sample. Every interior output is the jump between its two
  neighbouring samples.
- `_get_zero_array(n, ndim)` returns zeros for ranks 1 and 2. The model
  chooses the scalar 0.0 for rank 1 and a zero column of shape (n, 1) for
  rank 2; the test accepts both.

Both kernels are defined the same way in the model. The samples are padded
with one zero at each end (`Calculus.Padded`). The quadrature is then the
neighbour average of the padded samples, and the difference is their
neighbour difference. The element-wise formulas the test checks are proved
about these definitions, not assumed.

Values are exact reals. Arrays of any rank are `Batched.Tensor` values: a
lane of samples along the last axis, or a stack of sub-arrays along a leading
axis. `Batched.NdArray` pairs a tensor with its shape. The kernels on arrays
apply the 1-D kernel lane by lane.

Modules:

- `Wrappers` (wrappers.dfy) holds `Option` and `Result`.
- `SeqAlgebra` (seq_algebra.dfy) holds sums, inner products, neighbour
  differences and averages, and the telescoping and summation-by-parts
  identities.
- `Calculus` (calculus.dfy) holds the 1-D kernels, the expected outputs the
  test builds, and the sum, inverse and adjoint properties.
- `Batched` (batched.dfy) holds n-dimensional arrays, the shape rule, the
  row-wise and reshape behaviour, and the zero array.

## Model

| member | source | states |
|---|---|---|
| Calculus.Trapezoidal | tests/test_calculus.py:25-29 | n >= 1 samples give n + 1 outputs; the first output is half the first sample and the last output is half the last sample |
| Calculus.TrapezoidalInterior | tests/test_calculus.py:28 | interior output i (1 <= i < n) is 0.5 * (x[i] + x[i-1]) |
| Calculus.TwoPointDifference | tests/test_calculus.py:42-46 | n >= 1 samples give n + 1 outputs; the first output is the first sample and the last output is the negated last sample |
| Calculus.DifferenceInterior | tests/test_calculus.py:45 | interior output i (1 <= i < n) is x[i] - x[i-1] |
| Calculus.Apply1D | tests/test_calculus.py:63-66 | the kernel a test is parametrised with turns n samples into n + 1 outputs |
| Calculus.TrapezoidalSetup | tests/test_calculus.py:25-29 | the expected vector stacked from half the first sample, the neighbour means and half the last sample has n + 1 entries, the length line 79 checks |
| Calculus.DifferenceSetup | tests/test_calculus.py:42-46 | the expected vector stacked from the first sample, the neighbour differences and the negated last sample has n + 1 entries |
| Calculus.Setup | tests/test_calculus.py:51-54 | the expected vector of the parametrised setup has n + 1 entries |
| Calculus.TrapezoidalMatchesSetup | tests/test_calculus.py:21-31 | the quadrature equals the expected vector `Trapezoidal.oned_setup` stacks from half the first sample, the neighbour means and half the last sample, on every input |
| Calculus.DifferenceMatchesSetup | tests/test_calculus.py:38-48 | the difference equals the expected vector `Difference.oned_setup` stacks from the first sample, the neighbour differences and the negated last sample, on every input |
| Calculus.Apply1DMatchesSetup | tests/test_calculus.py:51-54 | for both parametrisations, the kernel equals that setup's expected vector |
| Calculus.TrapezoidalConservesSum | tests/test_calculus.py:25-29 | the quadrature outputs sum to the sum of the samples |
| Calculus.DifferencePartialSum | tests/test_calculus.py:42-46 | the first k + 1 difference outputs sum to sample k |
| Calculus.DifferenceSumsToZero | tests/test_calculus.py:42-46 | the difference outputs sum to exactly zero |
| Calculus.CumulativeSumOfDifference | tests/test_calculus.py:42-46 | the running totals of the difference are the samples followed by 0 |
| Calculus.DifferenceOfCumulativeSum | tests/test_calculus.py:42-46 | any n + 1 values that sum to zero are the difference of their first n running totals, so the difference is one-to-one onto the zero-sum sequences |
| Calculus.DifferenceAdjoint | tests/test_calculus.py:42-46 | pairing the difference of x with y equals minus pairing x with the neighbour differences of y (summation by parts) |
| Calculus.TrapezoidalAdjoint | tests/test_calculus.py:25-29 | pairing the quadrature of x with y equals pairing x with the neighbour means of y |
| Batched.Along | tests/test_calculus.py:65-69 | the kernel on an array keeps a lane a lane and a stack a stack with the same number of slices; what it does to each lane is stated by `Batched.AlongPerLane` |
| Batched.AlongShape | tests/test_calculus.py:79 | with a non-empty last axis, the kernel on every lane keeps all leading axes and makes the last axis one longer |
| Batched.ApplyKernel | tests/test_calculus.py:79 | an array is rejected exactly when its last axis is empty, with an error naming the kernel and that axis; otherwise the result's shape is the input's leading shape plus the last extent + 1 |
| Batched.AlongPerLane | tests/test_calculus.py:67-70 | every lane of the output sits where a lane of the input sits and is the 1-D kernel of that lane |
| Batched.KernelActsOnLanes | tests/test_calculus.py:71-80 | for every in-range index on the leading axes, the output lane is the 1-D kernel of the input lane there |
| Batched.MatrixShape | tests/test_calculus.py:58-61 | rows of equal length n form an array of shape (rows, n) |
| Batched.RepeatRows | tests/test_calculus.py:58-61 | a sample vector reshaped to one row and repeated count times along the first axis has shape (count, n) |
| Batched.RowwiseMatrix | tests/test_calculus.py:67-70 | on a 2-D array the kernel is applied to each row separately |
| Batched.RepeatedRows | tests/test_calculus.py:58-70 | the kernel of a sample vector repeated along a new first axis is the 1-D result repeated the same number of times |
| Batched.SplitLeadingShape | tests/test_calculus.py:75-77 | reshaping a first axis of length d1 * d2 into (d1, d2) keeps the trailing axes |
| Batched.SplitLeading | tests/test_calculus.py:75-77 | reshaping a first axis of d1 * d2 entries gives a stack of d1 blocks |
| Batched.ConcatBlocks | tests/test_calculus.py:75-77 | the first k blocks of the reshape, joined in order, are the first k * d2 entries of the original axis |
| Batched.SplitLeadingRowMajor | tests/test_calculus.py:75-77 | row-major order: joining all d1 blocks of the reshape in order gives back the original axis exactly |
| Batched.AlongCommutesWithSplit | tests/test_calculus.py:71-77 | the kernel followed by the reshape equals the reshape followed by the kernel |
| Batched.Reshape3 | tests/test_calculus.py:75-77 | reshaping a well-shaped (d1 * d2, n) array gives a well-shaped (d1, d2, n) array |
| Batched.KernelCommutesWithReshape | tests/test_calculus.py:71-77 | on arrays, the kernel succeeds on the flat array exactly when it succeeds on the reshaped one, and the two orders of kernel and reshape give the same array |
| Batched.VectorIntegrity | tests/test_calculus.py:63-66 | the ndim = 1 case: a vector of n >= 1 samples gives the expected vector of length n + 1 |
| Batched.MatrixIntegrity | tests/test_calculus.py:67-70 | the ndim = 2 case: d repeated rows give d repeated expected rows, with shape (d, n + 1) |
| Batched.CubeIntegrity | tests/test_calculus.py:71-80 | the ndim = 3 case: after the reshape to (d, d, ...), the output shape is the input shape with the last axis one longer, and the output equals the expected rows reshaped the same way |
| Batched.ZeroArray | tests/test_calculus.py:12-14 | there is a result exactly for ranks 1 and 2; rank 1 gives the scalar 0.0; rank 2 gives a well-shaped (n, 1) array whose every entry is 0.0 |
| Batched.KernelOfZeroArray | tests/test_calculus.py:12-14 | a derived property, not something the test checks: either kernel maps the rank-2 zero array of shape (n, 1) to zeros of shape (n, 2) |

## Left out

- elastica/_calculus.py, which defines the kernels, is not part of this model. The kernels are modelled from the expected outputs built in tests/test_calculus.py and from the shape assertion at line 79.
- Calculus.Trapezoidal and Calculus.TwoPointDifference: defined for n >= 1 samples only, since the expected outputs index the first sample. At the array level an empty last axis is rejected by `Batched.ApplyKernel` with `EmptyLastAxis`. The test does not fix what the library itself returns for zero samples.
- Batched.ApplyKernel: the model applies the kernel lane by lane for arrays of any rank. The test only calls the kernels on rank-1 and rank-2 arrays and reshapes the rank-2 result to rank 3 afterwards. That is the case `Batched.CubeIntegrity` covers, and `Batched.KernelCommutesWithReshape` shows both orders agree.
- Batched.ZeroArray: ranks other than 1 and 2 give `None`, because the test only calls the helper with those two.
- Batched.ZeroArray: the result shapes are the model's choice. `assert_allclose` broadcasts a scalar, so line 13 accepts any all-zero result and line 14 accepts a scalar 0.0 as well as a (3, 1) zero array. The model gives the scalar 0.0 for rank 1 and an (n, 1) zero column for rank 2.
- Batched.ZeroArray: whether two calls share one array is not modelled, because model values have no identity.
- Floating point: samples are exact reals, so rounding is not modelled.
- The accuracy tests `test_trapezoidal_correctness` and `test_two_point_difference_correctness` (tests/test_calculus.py:83-133) are left out. They compare against sine and cosine within floating-point tolerances.
- Random inputs (`np.random.randn`) and pytest parametrisation are left out. In the model, the input is any sequence and the kernel is either `Kernel` value.
- FrictionValidationCases/rolling_friction_initial_velocity.py is left out. It is a simulation driver script. It builds a rod and its forcing from library classes that are not part of this model, integrates for two million steps, runs a process pool, and plots and pickles its results.
- The symplectic stepper, the rod state and the `integrate` driver are not part of this model.
