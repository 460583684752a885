/**
 Concrete runs of the optimizer over ordinary (non-NaN) numbers: the
 regression test of src/lib.rs:352-364, and a one-iteration run showing that
 the final comparison uses a stale fitness.
 */
module Examples {
  import opened Common
  import opened Config
  import opened HillClimb

  /** `partial_cmp` on reals: always ordered. */
  function RealCmp(a: real, b: real): (c: Option<Ordering>)
    ensures c.Some?
    ensures c == Some(Less) <==> a < b
    ensures c == Some(Equal) <==> a == b
    ensures c == Some(Greater) <==> a > b
  {
    if a < b then Some(Less) else if a == b then Some(Equal) else Some(Greater)
  }

  lemma RealCmpSelfEqual()
    ensures SelfComparesEqual(RealCmp)
  {
  }

  /**
   -0.5 x^2 + 50 x + 12 on the first coordinate, the objective of the test;
   in vertex form its maximum is 1262, at x = 50.
   The source indexes the vector directly; every call here is on a
   one-element vector, so the empty case is never reached.
   */
  function Parabola(x: seq<real>): (y: real)
    ensures |x| > 0 ==> y == 1262.0 - 0.5 * (x[0] - 50.0) * (x[0] - 50.0)
    ensures |x| > 0 ==> y <= 1262.0
  {
    if |x| == 0 then 0.0 else -0.5 * x[0] * x[0] + 50.0 * x[0] + 12.0
  }

  /** The first coordinate, as an objective. */
  function FirstCoordinate(x: seq<real>): real
  {
    if |x| == 0 then 0.0 else x[0]
  }

  /** The configuration of the regression test: one dimension, 10 iterations, maximising. */
  function ParabolaOptimizer(): ProximalOptimizer
  {
    Maximize(Iterations(New(1), 10))
  }

  /** The search state after k iterations of the regression run. */
  function ParabolaState(k: nat): Search
  {
    Iterate(Parabola, RealCmp, true, ParabolaOptimizer().parameters, k,
            InitialSearch(ParabolaOptimizer(), [0.0]), Parabola([0.0])).0
  }

  /** One round of the regression run, in terms of the position and the step size. */
  lemma ParabolaRound(k: nat, p: real, step: real)
    requires ParabolaState(k).pos == [p]
    requires ParabolaState(k).params == [Parameters(1.5, 0.5, step)]
    ensures var c := Classify(RealCmp, true, Parabola([p + step]), Parabola([p]));
      && ParabolaState(k + 1).pos == [if c == Some(Greater) then p + step else p]
      && ParabolaState(k + 1).params == [UpdateStep(Parameters(1.5, 0.5, step), Parameters(1.5, 0.5, 1.0), c)]
  {
    var orig := ParabolaOptimizer().parameters;
    var s0 := InitialSearch(ParabolaOptimizer(), [0.0]);
    IterateSplit(Parabola, RealCmp, true, orig, k, s0, Parabola([0.0]));
    RoundEffect(Parabola, RealCmp, true, orig, ParabolaState(k));
    assert TrialPoint([p], [Parameters(1.5, 0.5, step)], 0) == [p + step];
  }

  /**
   The regression test: maximising -0.5 x^2 + 50 x + 12 from [0] with 10
   iterations returns [49.2578125]. The position climbs
   0, 1, 2.5, 4.75, 8.125, 13.1875, 20.78125, 32.171875, 49.2578125 and then
   stays, as the next two trials (steps 25.62890625 and -12.814453125)
   overshoot the maximum at 50.
   */
  lemma ParabolaRegression()
    ensures Optimize(ParabolaOptimizer(), [0.0], Parabola, RealCmp) == Ok([49.2578125])
  {
    ParabolaRound(0, 0.0, 1.0);
    ParabolaRound(1, 1.0, 1.5);
    ParabolaRound(2, 2.5, 2.25);
    ParabolaRound(3, 4.75, 3.375);
    ParabolaRound(4, 8.125, 5.0625);
    ParabolaRound(5, 13.1875, 7.59375);
    ParabolaRound(6, 20.78125, 11.390625);
    ParabolaRound(7, 32.171875, 17.0859375);
    ParabolaRound(8, 49.2578125, 25.62890625);
    ParabolaRound(9, 49.2578125, -12.814453125);
    OptimizeSucceedsIff(ParabolaOptimizer(), [0.0], Parabola, RealCmp);
  }

  /**
   Maximising the first coordinate from [0] with one iteration: the iteration
   moves to [1], which is strictly better, yet `optimize` reports
   `SolutionNoBetter` because it compares the fitness taken before the move;
   the corrected comparison returns [1].
   */
  lemma StaleFinalFitness()
    ensures PositionAfter(Maximize(Iterations(New(1), 1)), [0.0], FirstCoordinate, RealCmp, 1) == [1.0]
    ensures FirstCoordinate([1.0]) > FirstCoordinate([0.0])
    ensures Optimize(Maximize(Iterations(New(1), 1)), [0.0], FirstCoordinate, RealCmp) == Err(SolutionNoBetter)
    ensures OptimizeIntended(Maximize(Iterations(New(1), 1)), [0.0], FirstCoordinate, RealCmp) == Ok([1.0])
  {
    var po := Maximize(Iterations(New(1), 1));
    var s0 := InitialSearch(po, [0.0]);
    IterateSplit(FirstCoordinate, RealCmp, true, po.parameters, 0, s0, FirstCoordinate([0.0]));
    RoundEffect(FirstCoordinate, RealCmp, true, po.parameters, s0);
    assert TrialPoint([0.0], po.parameters, 0) == [1.0];
    RealCmpSelfEqual();
    FewIterationsNeverSucceed(po, [0.0], FirstCoordinate, RealCmp);
  }
}
