/**
 The hill-climbing optimizer's configuration (src/lib.rs): one parameter
 triple per input dimension, the iteration budget and the direction of the
 search. The source mutates the optimizer through `&mut self` setters; here
 each setter is a pure function returning the updated optimizer, and the
 fallible ones return the optimizer together with the `Result<()>` the source
 returns (on an error the optimizer comes back unchanged).
 */
module Config {
  import opened Common

  const DefaultExpansionRatio: real := 1.5
  const DefaultCompressionRatio: real := 0.5
  const DefaultInitialStepSize: real := 1.0
  const DefaultNumIterations: nat := 100

  /** The adaptive step of one dimension: a signed step size and the ratios that grow or shrink it. */
  datatype Parameters = Parameters(expansionRatio: real, compressionRatio: real, stepSize: real)

  datatype ProximalOptimizer = ProximalOptimizer(parameters: seq<Parameters>, iterations: nat, maximize: bool)

  /** The three fields of a parameter triple, so that "only this field changed" can be stated once. */
  datatype Field = Expansion | Compression | Step

  function Get(p: Parameters, f: Field): real
  {
    match f
    case Expansion => p.expansionRatio
    case Compression => p.compressionRatio
    case Step => p.stepSize
  }

  function With(p: Parameters, f: Field, v: real): Parameters
  {
    match f
    case Expansion => p.(expansionRatio := v)
    case Compression => p.(compressionRatio := v)
    case Step => p.(stepSize := v)
  }

  /**
   `after` is `before` with field `f` of triple i set to `values[i]` for every i
   and the other two fields of every triple untouched.
   */
  ghost predicate AssignsField(before: seq<Parameters>, after: seq<Parameters>, f: Field, values: seq<real>)
  {
    && |after| == |before| == |values|
    && (forall i :: 0 <= i < |after| ==> Get(after[i], f) == values[i])
    && (forall i, g :: 0 <= i < |after| && g != f ==> Get(after[i], g) == Get(before[i], g))
  }

  /** Sets field `f` of every triple to the matching element of `values`. */
  function AssignEach(ps: seq<Parameters>, f: Field, values: seq<real>): (r: seq<Parameters>)
    requires |values| == |ps|
    ensures AssignsField(ps, r, f, values)
  {
    if |ps| == 0 then []
    else [With(ps[0], f, values[0])] + AssignEach(ps[1..], f, values[1..])
  }

  /** `Parameters::default`. */
  function DefaultParameters(): (p: Parameters)
    ensures p.expansionRatio == 1.5 && p.compressionRatio == 0.5 && p.stepSize == 1.0
  {
    Parameters(DefaultExpansionRatio, DefaultCompressionRatio, DefaultInitialStepSize)
  }

  /** `ProximalOptimizer::new`: n default triples, 100 iterations, minimising. */
  function New(numParameters: nat): (po: ProximalOptimizer)
    ensures |po.parameters| == numParameters
    ensures forall i :: 0 <= i < numParameters ==> po.parameters[i] == Parameters(1.5, 0.5, 1.0)
    ensures po.iterations == 100 && !po.maximize
  {
    ProximalOptimizer(seq(numParameters, _ => DefaultParameters()), DefaultNumIterations, false)
  }

  /** Search for a maximum; nothing else changes. */
  function Maximize(po: ProximalOptimizer): (r: ProximalOptimizer)
    ensures r.maximize && r.parameters == po.parameters && r.iterations == po.iterations
  {
    po.(maximize := true)
  }

  /** Search for a minimum (the default); nothing else changes. */
  function Minimize(po: ProximalOptimizer): (r: ProximalOptimizer)
    ensures !r.maximize && r.parameters == po.parameters && r.iterations == po.iterations
  {
    po.(maximize := false)
  }

  /** Sets the iteration budget; nothing else changes. */
  function Iterations(po: ProximalOptimizer, iterations: nat): (r: ProximalOptimizer)
    ensures r.iterations == iterations && r.parameters == po.parameters && r.maximize == po.maximize
  {
    po.(iterations := iterations)
  }

  /** Sets every step size to `stepSize`, leaving the ratios and the rest of the optimizer alone. */
  function InitialStepSize(po: ProximalOptimizer, stepSize: real): (r: ProximalOptimizer)
    ensures AssignsField(po.parameters, r.parameters, Step, Fill(|po.parameters|, stepSize))
    ensures r.iterations == po.iterations && r.maximize == po.maximize
  {
    po.(parameters := AssignEach(po.parameters, Step, Fill(|po.parameters|, stepSize)))
  }

  /**
   Shared shape of the three per-dimension setters: a length mismatch leaves the
   optimizer unchanged and reports `ParameterLengthMismatch`; otherwise field `f`
   of triple i becomes `values[i]`.
   */
  function AssignChecked(po: ProximalOptimizer, f: Field, values: seq<real>): (r: (ProximalOptimizer, Result<()>))
    ensures r.1.Err? <==> |values| != |po.parameters|
    ensures r.1.Err? ==> r.1.error == ParameterLengthMismatch && r.0 == po
    ensures r.1.Ok? ==> AssignsField(po.parameters, r.0.parameters, f, values)
    ensures r.0.iterations == po.iterations && r.0.maximize == po.maximize
  {
    if |values| != |po.parameters| then (po, Err(ParameterLengthMismatch))
    else (po.(parameters := AssignEach(po.parameters, f, values)), Ok(()))
  }

  /** `initial_step_sizes`: per-dimension step sizes, checked against the dimension count. */
  function InitialStepSizes(po: ProximalOptimizer, stepSizes: seq<real>): (r: (ProximalOptimizer, Result<()>))
    ensures r.1.Err? <==> |stepSizes| != |po.parameters|
    ensures r.1.Err? ==> r.1.error == ParameterLengthMismatch && r.0 == po
    ensures r.1.Ok? ==> AssignsField(po.parameters, r.0.parameters, Step, stepSizes)
    ensures r.0.iterations == po.iterations && r.0.maximize == po.maximize
  {
    AssignChecked(po, Step, stepSizes)
  }

  /**
   `step_expansion_ratio` as written: despite its name and documentation it
   assigns the COMPRESSION ratio of every triple and leaves the expansion
   ratio alone (src/lib.rs:133).
   */
  function StepExpansionRatio(po: ProximalOptimizer, ratio: real): (r: ProximalOptimizer)
    ensures AssignsField(po.parameters, r.parameters, Compression, Fill(|po.parameters|, ratio))
    ensures r.iterations == po.iterations && r.maximize == po.maximize
  {
    po.(parameters := AssignEach(po.parameters, Compression, Fill(|po.parameters|, ratio)))
  }

  /** `step_expansion_ratio` as documented: assigns the expansion ratio of every triple. */
  function StepExpansionRatioIntended(po: ProximalOptimizer, ratio: real): (r: ProximalOptimizer)
    ensures AssignsField(po.parameters, r.parameters, Expansion, Fill(|po.parameters|, ratio))
    ensures r.iterations == po.iterations && r.maximize == po.maximize
  {
    po.(parameters := AssignEach(po.parameters, Expansion, Fill(|po.parameters|, ratio)))
  }

  /** `step_expansion_ratios`: per-dimension expansion ratios, checked against the dimension count. */
  function StepExpansionRatios(po: ProximalOptimizer, ratios: seq<real>): (r: (ProximalOptimizer, Result<()>))
    ensures r.1.Err? <==> |ratios| != |po.parameters|
    ensures r.1.Err? ==> r.1.error == ParameterLengthMismatch && r.0 == po
    ensures r.1.Ok? ==> AssignsField(po.parameters, r.0.parameters, Expansion, ratios)
    ensures r.0.iterations == po.iterations && r.0.maximize == po.maximize
  {
    AssignChecked(po, Expansion, ratios)
  }

  /** `step_compression_ratio`: assigns the compression ratio of every triple. */
  function StepCompressionRatio(po: ProximalOptimizer, ratio: real): (r: ProximalOptimizer)
    ensures AssignsField(po.parameters, r.parameters, Compression, Fill(|po.parameters|, ratio))
    ensures r.iterations == po.iterations && r.maximize == po.maximize
  {
    po.(parameters := AssignEach(po.parameters, Compression, Fill(|po.parameters|, ratio)))
  }

  /** `step_decrease_ratios`: per-dimension compression ratios, checked against the dimension count. */
  function StepDecreaseRatios(po: ProximalOptimizer, ratios: seq<real>): (r: (ProximalOptimizer, Result<()>))
    ensures r.1.Err? <==> |ratios| != |po.parameters|
    ensures r.1.Err? ==> r.1.error == ParameterLengthMismatch && r.0 == po
    ensures r.1.Ok? ==> AssignsField(po.parameters, r.0.parameters, Compression, ratios)
    ensures r.0.iterations == po.iterations && r.0.maximize == po.maximize
  {
    AssignChecked(po, Compression, ratios)
  }

  /**
   The as-written `step_expansion_ratio` on a fresh one-dimensional optimizer:
   the expansion ratio keeps its default 1.5 and the compression ratio becomes
   the requested 2.0, whereas the documented behaviour gives expansion 2.0 and
   keeps compression 0.5.
   */
  lemma StepExpansionRatioMisroutes()
    ensures StepExpansionRatio(New(1), 2.0).parameters == [Parameters(1.5, 2.0, 1.0)]
    ensures StepExpansionRatioIntended(New(1), 2.0).parameters == [Parameters(2.0, 0.5, 1.0)]
  {
  }
}
