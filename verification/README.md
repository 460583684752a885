# proximal-optimize in Dafny

A Dafny model of the core of the `proximal-optimize` crate. It covers three
parts:

- **`ProximalOptimizer`**: a derivative-free coordinate hill climber. It keeps
  one adaptive, signed step size per input dimension, plus an expansion ratio
  and a compression ratio for that step. Each iteration evaluates the objective
  at the current position. It then tries every dimension in turn against that
  same snapshot. An improving trial moves the coordinate and grows the step. An
  equal trial shrinks the step. A worse or unordered trial shrinks the step and
  reverses its direction.
- **Vector arithmetic** (`src/misc.rs`): elementwise operations on real
  vectors. Length mismatches are reported as `ParameterLengthMismatch`.
- **`NesterovStepper` and `l2sq`** (`src/utils.rs`): the generator of the
  acceleration multiplier omega, and the sum of squares.

Numbers are exact reals. The objective is a pure function `seq<real> -> T`.
Its fitness type `T` is only partially ordered, through a comparator
`(T, T) -> Option<Ordering>`, and `None` plays the role of a NaN comparison.
The source's `&mut self` setters become pure functions that return the updated
optimizer. The fallible setters also return the `Result<()>` the source
returns. `optimize` is written as recursion over iterations (`Iterate`), one
iteration (`Round`) and the dimensions of one iteration (`Sweep`, `TrialDim`).
Its state includes the trial vector and a log of every position handed to the
objective. So "the trial vector is the snapshot again after each dimension"
and "nothing is evaluated before the length check" are proved facts, not
built-in assumptions.

Files: `common.dfy` holds the shared types: ordering, option, error kinds and
result. `misc.dfy`, `utils.dfy`, `config.dfy` (construction and setters) and
`hillclimb.dfy` (`optimize`) each model one part of the source. `examples.dfy`
holds the regression test and the counterexample from the findings.

Where the source's documentation and its code disagree, the model follows the
code. There are two such places; both are listed under Findings:

- The doc comment of `step_expansion_ratio` says it sets the growth ratio. The
  code sets the compression ratio.
- The comment before the final check speaks of the "ending fitness". The code
  compares the fitness taken at the start of the last iteration.

## Model

| member | source | states |
|---|---|---|
| Config.DefaultParameters | src/lib.rs:286-291 | a default triple has expansion 1.5, compression 0.5 and step 1.0 |
| Config.New | src/lib.rs:78-86 | `new(n)` yields exactly n triples, each (1.5, 0.5, 1.0), a budget of 100 iterations and minimising mode |
| Config.Maximize | src/lib.rs:93 | switches to maximising; triples and budget are unchanged |
| Config.Minimize | src/lib.rs:97 | switches to minimising; triples and budget are unchanged |
| Config.Iterations | src/lib.rs:101-103 | sets the budget; triples and direction are unchanged |
| Config.InitialStepSize | src/lib.rs:110-114 | every step size becomes the value; both ratios of every triple, the budget and the direction are unchanged |
| Config.InitialStepSizes | src/lib.rs:118-128 | fails with `ParameterLengthMismatch` iff the slice length differs from n, and then leaves the optimizer unchanged; on success step i becomes slice[i] and nothing else changes |
| Config.StepExpansionRatio | src/lib.rs:131-135 | as written: every COMPRESSION ratio becomes the value, while the expansion ratios and steps are untouched |
| Config.StepExpansionRatioIntended | src/lib.rs:130-135 | as documented: every expansion ratio becomes the value, while the compression ratios and steps are untouched |
| Config.StepExpansionRatios | src/lib.rs:139-149 | fails with `ParameterLengthMismatch` iff the length differs from n, with no change; otherwise expansion ratio i becomes slice[i] and nothing else changes |
| Config.StepCompressionRatio | src/lib.rs:152-156 | every compression ratio becomes the value; expansion ratios and steps are untouched |
| Config.StepDecreaseRatios | src/lib.rs:160-170 | fails with `ParameterLengthMismatch` iff the length differs from n, with no change; otherwise compression ratio i becomes slice[i] and nothing else changes |
| Config.StepExpansionRatioMisroutes | src/lib.rs:131-135 | on `new(1)`, the scalar expansion setter with 2.0 yields the triple (1.5, 2.0, 1.0); the documented behaviour yields (2.0, 0.5, 1.0) |
| HillClimb.Classify | src/lib.rs:224-233 | the classification is Greater iff the trial is strictly better in the search direction (greater when maximising, less when minimising); it is Equal iff the comparator says Equal, and None iff the comparator says None |
| HillClimb.UpdateStep | src/lib.rs:235-258 | the step update never changes a triple's ratios |
| HillClimb.TrialDim | src/lib.rs:220-263 | trying dimension i evaluates the objective once, at the candidate with coordinate i set to pos[i] + step. If better: pos[i] += step and step *= expansion. If equal: pos unchanged and step *= compression. If worse or unordered: pos unchanged and step := -step * compression. No other coordinate or triple changes, and the candidate is restored |
| HillClimb.SweepEffect | src/lib.rs:219-264 | sweeping the remaining dimensions from a snapshot: trial j is the snapshot with only coordinate j moved, compared with the same fitness; each coordinate and triple is updated from its own trial alone; the candidate ends equal to the snapshot |
| HillClimb.SweepLog | src/lib.rs:219-264 | the evaluation-log half of `HillClimb.SweepEffect`: one objective call per remaining dimension, in order, trial j being the snapshot with only coordinate j moved by its step; earlier log entries are kept and the candidate ends equal to the snapshot |
| HillClimb.SweepMoves | src/lib.rs:219-264 | the update half of `HillClimb.SweepEffect`: dimensions already swept are left alone, and coordinate j and its triple are updated from the comparison of trial j with the fixed fitness alone |
| HillClimb.RoundEffect | src/lib.rs:210-265 | one iteration evaluates the current position once, then evaluates the n trials, trial j being that snapshot with only coordinate j moved by its step. All trials are compared with the snapshot's fitness. Coordinate j moves by its step exactly when its trial improves on that fitness. The candidate ends equal to the snapshot |
| HillClimb.RatiosPreserved | src/lib.rs:196-256 | the working copy's ratios stay equal to the optimizer's own. So the source reading the compression ratio from one copy and the other ratios from the other copy makes no difference |
| HillClimb.Sweep | src/lib.rs:219-264 | the inner loop over dimensions i..n-1 keeps the search state shaped (position, triples and candidate of length n); what it computes is stated by `HillClimb.SweepEffect` |
| HillClimb.Round | src/lib.rs:210-265 | one iteration of the outer loop keeps the search state shaped; what it computes is stated by `HillClimb.RoundEffect` |
| HillClimb.Iterate | src/lib.rs:210-265 | k iterations of the outer loop keep the search state shaped; their evaluations are counted by `HillClimb.IterateEvaluations` |
| HillClimb.IterateEvaluations | src/lib.rs:210-222 | every iteration appends n + 1 evaluations to the log and keeps the earlier ones |
| HillClimb.Execute | src/lib.rs:172-204 | `ParameterLengthMismatch` iff `len(start) != n`, with no objective evaluation; `StartUnorderable` iff the start fitness does not compare with itself, after exactly the two evaluations of `start`; a returned vector has length n |
| HillClimb.Optimize | src/lib.rs:172-276 | `ParameterLengthMismatch` iff `len(start) != n`; `StartUnorderable` iff the start's fitness compares `None` with itself; a returned vector has length n |
| HillClimb.OptimizeSucceedsIff | src/lib.rs:187-275 | once the start is accepted, success iff the fitness taken at the start of the last iteration (the start's own with no iterations) is strictly greater when maximising, or strictly less when minimising, than the start's fitness. The success value is the position after all iterations; otherwise the result is `SolutionNoBetter` |
| HillClimb.FewIterationsNeverSucceed | src/lib.rs:187-275 | with at most one iteration, and a comparator under which self-comparable values compare Equal, `optimize` never succeeds; an accepted start always gives `SolutionNoBetter` |
| HillClimb.EvaluationCount | src/lib.rs:187-222 | an accepted start costs 2 + iterations * (n + 1) objective calls, and the first two are on `start` |
| HillClimb.OptimizeIntended | src/lib.rs:267-275 | corrected final check: success only with a returned position strictly better than the start, and the position returned is the one after all iterations; `SolutionNoBetter` only when the position after all iterations is not strictly better |
| Examples.Parabola | src/lib.rs:362-364 | on a non-empty vector the objective equals 1262 - 0.5(x[0] - 50)², so it never exceeds 1262 and peaks at x[0] = 50 |
| Examples.ParabolaRegression | src/lib.rs:352-364 | maximising -0.5x² + 50x + 12 from [0.0] with 10 iterations returns exactly [49.2578125] |
| Examples.StaleFinalFitness | src/lib.rs:267-275 | maximising x[0] from [0.0] with one iteration moves to [1.0], which is strictly better. `optimize` still reports `SolutionNoBetter`, while the corrected check returns [1.0] |
| Misc.VecAdd | src/misc.rs:8-19 | fails with `ParameterLengthMismatch` iff the lengths differ; otherwise the result has length len(a) and element i is a[i] + b[i] |
| Misc.VecSub | src/misc.rs:22-33 | fails with `ParameterLengthMismatch` iff the lengths differ; otherwise the result has length len(a) and element i is a[i] - b[i] |
| Misc.AddSubRoundTrip | src/misc.rs:8-33 | for equal lengths, `vec_sub(vec_add(a, b), b) == a` |
| Misc.SubAddRoundTrip | src/misc.rs:8-33 | for equal lengths, `vec_add(vec_sub(a, b), b) == a` |
| Misc.VecSubScalar | src/misc.rs:36-42 | never fails, preserves length, and element i is x[i] - scalar |
| Misc.SubScalarIsSubOfConstant | src/misc.rs:22-42 | subtracting a scalar is `vec_sub` with the constant vector of that scalar |
| Misc.VecMulScalar | src/misc.rs:45-51 | never fails, preserves length, and element i is x[i] * scalar |
| Misc.MulScalarRoundTrip | src/misc.rs:45-51 | scaling by s != 0 and then by 1/s gives back the vector |
| Misc.MulScalarIsMulOfConstant | src/misc.rs:45-84 | scaling is `vec_mul` with the constant vector of the scalar |
| Misc.VecMaxScalar | src/misc.rs:55-61 | preserves length; every element is >= scalar and >= x[i], and equals one of the two |
| Misc.MaxScalarIdempotent | src/misc.rs:55-61 | clamping twice with the same scalar is clamping once |
| Misc.VecMul | src/misc.rs:77-84 | demands equal lengths (the source asserts them); preserves length, and element i is a[i] * b[i] |
| Misc.VecMulCommutative | src/misc.rs:77-84 | `vec_mul(a, b) == vec_mul(b, a)` |
| Misc.VecInnerProd | src/misc.rs:63-74 | fails with `ParameterLengthMismatch` iff the lengths differ; otherwise returns the sum of a[i] * b[i] |
| Misc.InnerProductIsSumOfProducts | src/misc.rs:63-84 | the inner product is the sum of the elements of `vec_mul(a, b)` |
| Misc.InnerProductSymmetric | src/misc.rs:63-74 | the inner product does not depend on the order of its arguments |
| Misc.InnerProductSelf | src/misc.rs:63-92 | the inner product of x with itself is the sum of squares of x |
| Misc.VecSumSq | src/misc.rs:86-92 | returns the sum of x[i]², which is >= 0 |
| Misc.SumOfSquaresNonNegative | src/misc.rs:86-92 | a sum of squares is never negative |
| Utils.New | src/utils.rs:24-27 | a new stepper has t = 1 and the given acceleration flag |
| Utils.Omega | src/utils.rs:29-38 | disabled: returns 0 and leaves the stepper unchanged. Enabled: t' > 0 with t' (t' - 1) = t², omega * t' = t - 1, and the flag is kept |
| Utils.Omegas | src/utils.rs:29-38 | n consecutive calls of `omega` return exactly n multipliers and keep the acceleration flag; their values are stated by `Utils.DisabledIsInert` and `Utils.AcceleratedSequence` |
| Utils.DisabledIsInert | src/utils.rs:29-37 | a disabled stepper returns 0 and stays unchanged over any number of consecutive calls |
| Utils.OmegaStep | src/utils.rs:31-33 | enabled with t >= 1: the new t exceeds the old by more than 0.5; 0 <= omega < 1; and omega = 0 when t = 1 |
| Utils.FirstOmegaIsZero | src/utils.rs:24-32 | the first call of a new accelerated stepper returns 0 |
| Utils.OmegaIncreases | src/utils.rs:29-34 | enabled with t >= 1: two consecutive multipliers strictly increase |
| Utils.AcceleratedSequence | src/utils.rs:29-34 | enabled from t >= 1, any number of consecutive calls: every omega lies in [0, 1), the omegas strictly increase, and after n calls t is at least its starting value plus n/2 (the strict growth of more than 0.5 in a single call is `Utils.OmegaStep`) |
| Utils.L2sq | src/utils.rs:50-56 | `l2sq(x)` is the sum of x[i]² (the same value as `vec_sum_sq`), and is >= 0 |

## Left out

- The proximal gradient driver `pgm` is not modelled.
- `src/examples/parabola.rs`: a caller-supplied proximal step and a logged test of `pgm`.
- IEEE-754 arithmetic. Numbers are exact reals, so rounding, overflow to infinity and NaN propagation are not modelled. NaN appears only as a comparator answer of `None`. `vec_max_scalar` uses the real maximum, not `f64::max` with its NaN rule.
- Convergence to an optimum. The Rosenbrock tests (src/lib.rs:316-349) and the documentation example (src/lib.rs:12-24) depend on floating-point rounding and on 10⁴ to 4·10⁵ iterations.
- Side effects of the `FnMut` objective, `Debug` output and logging. The objective is a pure function; the order of its calls is kept in the evaluation log.
- The ratios are not required to be positive: the setters accept any value, so the model assumes nothing about their sign.
- `usize` limits on the iteration count and on the dimension count: both are unbounded naturals.
- `get_num_parameters` and `get_iterations` are not modelled as functions: they only read the length of `parameters` and the `iterations` field.
- Utils.Omega: the square root of `4t² + 1` is supplied by the caller, together with the requirement that it is that root. Reals have no square root here.
- Examples.Parabola: on an empty vector it returns 0, where the source would index out of bounds. The regression run calls it only on one-element vectors.

## Findings

| source | as written | input that shows it | evidently intended | confidence | as-written member | corrected member |
|---|---|---|---|---|---|---|
| src/lib.rs:133 | `step_expansion_ratio` assigns `compression_ratio` | `new(1)`, then `step_expansion_ratio(2.0)`: the triple becomes (expansion 1.5, compression 2.0, step 1.0) | assign `expansion_ratio`, as the doc comment at src/lib.rs:130 says | high; not executed | Config.StepExpansionRatioMisroutes | Config.StepExpansionRatioIntended |
| src/lib.rs:269 | the final check compares `current_fit`, the fitness taken at the start of the last iteration, with the start's fitness | maximise `x[0]` from `[0.0]` with 1 iteration: the position moves to `[1.0]` (fitness 1 > 0), yet the result is `SolutionNoBetter`; with at most one iteration `optimize` can never succeed | compare the fitness of the returned position ("the ending fitness", src/lib.rs:267) | medium; not executed | Examples.StaleFinalFitness | HillClimb.OptimizeIntended |
