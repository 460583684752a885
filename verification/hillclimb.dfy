/**
 `ProximalOptimizer::optimize` (src/lib.rs): coordinate hill climbing with an
 adaptive signed step per dimension.

 The objective is a pure function from positions to a fitness type `T` that is
 only partially ordered; `cmp` is its `partial_cmp`, with `None` for values that
 have no order (NaN-like). One iteration ("round") evaluates the objective at
 the current position, then for every dimension i in turn tries the round's
 snapshot with coordinate i moved by that dimension's step, compares the trial
 with the round's fitness and adapts the step:
   better               -> move coordinate i to the trial value, step *= expansion
   equal                -> stay, step *= compression
   worse or unordered   -> stay, step := -step * compression
 The trial vector ("candidate") is restored after every dimension, so all
 dimensions of a round are tested against the same snapshot.

 The state also records every position handed to the objective, in order, so
 that statements about when the objective is evaluated can be made.
 */
module HillClimb {
  import opened Common
  import opened Config

  /** `a` is strictly better than `b`: greater when maximising, less when minimising. */
  predicate Improves<T>(cmp: Comparator<T>, maximize: bool, a: T, b: T)
  {
    cmp(a, b) == Some(if maximize then Greater else Less)
  }

  /** The comparison of a trial's fitness with the round's, reversed when minimising (src/lib.rs:224-233). */
  function Classify<T>(cmp: Comparator<T>, maximize: bool, testFit: T, currentFit: T): (c: Option<Ordering>)
    ensures c == Some(Greater) <==> Improves(cmp, maximize, testFit, currentFit)
    ensures c == Some(Equal) <==> cmp(testFit, currentFit) == Some(Equal)
    ensures c == None <==> cmp(testFit, currentFit) == None
  {
    match cmp(testFit, currentFit)
    case None => None
    case Some(o) => if !maximize then Some(o.Reverse()) else Some(o)
  }

  /**
   The step update of one dimension (src/lib.rs:235-258). `work` is the working
   copy of the triple and `orig` the optimizer's own; the source reads the
   compression ratio from the working copy in the first branch and both ratios
   from the optimizer's own triple in the other two.
   */
  function UpdateStep(work: Parameters, orig: Parameters, c: Option<Ordering>): (r: Parameters)
    ensures r.expansionRatio == work.expansionRatio && r.compressionRatio == work.compressionRatio
  {
    match c
    case None => work.(stepSize := work.stepSize * -1.0 * work.compressionRatio)
    case Some(Less) => work.(stepSize := work.stepSize * -1.0 * work.compressionRatio)
    case Some(Greater) => work.(stepSize := work.stepSize * orig.expansionRatio)
    case Some(Equal) => work.(stepSize := work.stepSize * orig.compressionRatio)
  }

  /** The loop state of `optimize`. */
  datatype Search = Search(
    pos: seq<real>,              // current_pos
    params: seq<Parameters>,     // the working copy of the parameter triples
    candidate: seq<real>,        // the trial vector
    evaluated: seq<seq<real>>)   // every argument of the objective so far, in order

  predicate Shaped(s: Search, n: nat)
  {
    |s.pos| == n && |s.params| == n && |s.candidate| == n
  }

  /** The point tried for dimension i: the candidate with coordinate i at pos[i] + step (src/lib.rs:221). */
  function Trial(s: Search, i: nat): seq<real>
    requires i < |s.candidate| && i < |s.pos| && i < |s.params|
  {
    s.candidate[i := s.pos[i] + s.params[i].stepSize]
  }

  /** The snapshot `snap` with coordinate j moved by the step of `p[j]`. */
  function TrialPoint(snap: seq<real>, p: seq<Parameters>, j: nat): seq<real>
    requires j < |snap| && j < |p|
  {
    snap[j := snap[j] + p[j].stepSize]
  }

  /** Tries dimension i once (src/lib.rs:220-263). */
  function TrialDim<T>(f: seq<real> -> T, cmp: Comparator<T>, maximize: bool, orig: seq<Parameters>,
                       currentFit: T, i: nat, s: Search): (r: Search)
    requires Shaped(s, |orig|) && i < |orig|
    ensures Shaped(r, |orig|)
    ensures r.candidate == s.candidate
    ensures r.evaluated == s.evaluated + [Trial(s, i)]
    ensures forall j :: 0 <= j < |orig| && j != i ==> r.pos[j] == s.pos[j] && r.params[j] == s.params[j]
    ensures r.params[i].expansionRatio == s.params[i].expansionRatio
    ensures r.params[i].compressionRatio == s.params[i].compressionRatio
    ensures Improves(cmp, maximize, f(Trial(s, i)), currentFit) ==>
      r.pos[i] == s.pos[i] + s.params[i].stepSize
      && r.params[i].stepSize == s.params[i].stepSize * orig[i].expansionRatio
    ensures cmp(f(Trial(s, i)), currentFit) == Some(Equal) ==>
      r.pos[i] == s.pos[i]
      && r.params[i].stepSize == s.params[i].stepSize * orig[i].compressionRatio
    ensures !Improves(cmp, maximize, f(Trial(s, i)), currentFit) && cmp(f(Trial(s, i)), currentFit) != Some(Equal) ==>
      r.pos[i] == s.pos[i]
      && r.params[i].stepSize == -(s.params[i].stepSize * s.params[i].compressionRatio)
  {
    var oldVal := s.candidate[i];
    var trial := Trial(s, i);
    var c := Classify(cmp, maximize, f(trial), currentFit);
    var pos := if c == Some(Greater) then s.pos[i := trial[i]] else s.pos;
    Search(pos, s.params[i := UpdateStep(s.params[i], orig[i], c)], trial[i := oldVal], s.evaluated + [trial])
  }

  /** Tries dimensions i, i+1, ..., n-1 in turn against the same fitness (src/lib.rs:219-264). */
  function Sweep<T>(f: seq<real> -> T, cmp: Comparator<T>, maximize: bool, orig: seq<Parameters>,
                    currentFit: T, i: nat, s: Search): (r: Search)
    requires Shaped(s, |orig|) && i <= |orig|
    ensures Shaped(r, |orig|)
    decreases |orig| - i
  {
    if i == |orig| then s
    else Sweep(f, cmp, maximize, orig, currentFit, i + 1, TrialDim(f, cmp, maximize, orig, currentFit, i, s))
  }

  /**
   One iteration of the training loop (src/lib.rs:210-265): evaluate the current
   position, reset the candidate to it, sweep all dimensions. Returns the new
   state and the fitness the round compared against.
   */
  function Round<T>(f: seq<real> -> T, cmp: Comparator<T>, maximize: bool, orig: seq<Parameters>,
                    s: Search): (r: (Search, T))
    requires Shaped(s, |orig|)
    ensures Shaped(r.0, |orig|)
  {
    var currentFit := f(s.pos);
    var reset := s.(candidate := s.pos, evaluated := s.evaluated + [s.pos]);
    (Sweep(f, cmp, maximize, orig, currentFit, 0, reset), currentFit)
  }

  /** `k` further iterations; `fit` is the current fitness carried from before. */
  function Iterate<T>(f: seq<real> -> T, cmp: Comparator<T>, maximize: bool, orig: seq<Parameters>,
                      k: nat, s: Search, fit: T): (r: (Search, T))
    requires Shaped(s, |orig|)
    ensures Shaped(r.0, |orig|)
    decreases k
  {
    if k == 0 then (s, fit)
    else
      var (next, roundFit) := Round(f, cmp, maximize, orig, s);
      Iterate(f, cmp, maximize, orig, k - 1, next, roundFit)
  }

  /** The state before the first iteration: the objective has been called on `start` twice (src/lib.rs:187-204). */
  function InitialSearch(po: ProximalOptimizer, start: seq<real>): Search
  {
    Search(start, po.parameters, start, [start, start])
  }

  /** The position after the first k iterations. */
  function PositionAfter<T>(po: ProximalOptimizer, start: seq<real>, f: seq<real> -> T, cmp: Comparator<T>, k: nat): seq<real>
    requires |start| == |po.parameters|
  {
    Iterate(f, cmp, po.maximize, po.parameters, k, InitialSearch(po, start), f(start)).0.pos
  }

  /** The result of `optimize` together with every position the objective was called on. */
  datatype Outcome = Outcome(result: Result<seq<real>>, evaluated: seq<seq<real>>)

  /**
   `optimize` with its evaluation log (src/lib.rs:172-276).

   As in the source, the final comparison (src/lib.rs:269) uses `current_fit`,
   which is the fitness taken at the START of the last iteration, i.e. of the
   position before that iteration's moves, and not the fitness of the position
   returned; with no iterations it is the fitness of `start` itself.
   */
  function Execute<T>(po: ProximalOptimizer, start: seq<real>, f: seq<real> -> T, cmp: Comparator<T>): (o: Outcome)
    ensures o.result == Err(ParameterLengthMismatch) <==> |start| != |po.parameters|
    ensures |start| != |po.parameters| ==> o.evaluated == []
    ensures o.result == Err(StartUnorderable) <==> |start| == |po.parameters| && cmp(f(start), f(start)).None?
    ensures o.result == Err(StartUnorderable) ==> o.evaluated == [start, start]
    ensures o.result.Ok? ==> |o.result.value| == |po.parameters|
  {
    if |start| != |po.parameters| then Outcome(Err(ParameterLengthMismatch), [])
    else
      var startFit := f(start);
      var currentFit := f(start);
      if cmp(startFit, startFit).None? then Outcome(Err(StartUnorderable), [start, start])
      else
        var (last, lastFit) := Iterate(f, cmp, po.maximize, po.parameters, po.iterations, InitialSearch(po, start), currentFit);
        if Improves(cmp, po.maximize, lastFit, startFit) then Outcome(Ok(last.pos), last.evaluated)
        else Outcome(Err(SolutionNoBetter), last.evaluated)
  }

  /** `ProximalOptimizer::optimize`. The optimizer is taken by value: the source borrows it immutably. */
  function Optimize<T>(po: ProximalOptimizer, start: seq<real>, f: seq<real> -> T, cmp: Comparator<T>): (r: Result<seq<real>>)
    ensures r == Err(ParameterLengthMismatch) <==> |start| != |po.parameters|
    ensures r == Err(StartUnorderable) <==> |start| == |po.parameters| && cmp(f(start), f(start)).None?
    ensures r.Ok? ==> |r.value| == |po.parameters|
  {
    Execute(po, start, f, cmp).result
  }

  /**
   The evidently intended `optimize`: identical except that the final
   comparison uses the fitness of the position actually returned.
   */
  function OptimizeIntended<T>(po: ProximalOptimizer, start: seq<real>, f: seq<real> -> T, cmp: Comparator<T>): (r: Result<seq<real>>)
    ensures r == Err(ParameterLengthMismatch) <==> |start| != |po.parameters|
    ensures r == Err(StartUnorderable) <==> |start| == |po.parameters| && cmp(f(start), f(start)).None?
    ensures r.Ok? ==> |r.value| == |po.parameters| && Improves(cmp, po.maximize, f(r.value), f(start))
    ensures r.Ok? ==> r.value == PositionAfter(po, start, f, cmp, po.iterations)
    ensures r == Err(SolutionNoBetter) ==>
      !Improves(cmp, po.maximize, f(PositionAfter(po, start, f, cmp, po.iterations)), f(start))
  {
    if |start| != |po.parameters| then Err(ParameterLengthMismatch)
    else
      var startFit := f(start);
      if cmp(startFit, startFit).None? then Err(StartUnorderable)
      else
        var last := Iterate(f, cmp, po.maximize, po.parameters, po.iterations, InitialSearch(po, start), startFit).0;
        if Improves(cmp, po.maximize, f(last.pos), startFit) then Ok(last.pos) else Err(SolutionNoBetter)
  }

  // ---------------------------------------------------------------------------
  // One round

  /**
   The evaluation log of a sweep over dimensions i.. from a state whose
   candidate is the snapshot and whose remaining coordinates and triples are
   still those of the snapshot: one entry per dimension, the trial for
   dimension j being the snapshot with only coordinate j moved by its step, and
   the candidate ends equal to the snapshot.
   */
  lemma {:induction false} SweepLog<T>(f: seq<real> -> T, cmp: Comparator<T>, maximize: bool, orig: seq<Parameters>,
                                       fit: T, i: nat, s: Search, snap: seq<real>, p0: seq<Parameters>)
    requires Shaped(s, |orig|) && i <= |orig|
    requires |snap| == |orig| && |p0| == |orig|
    requires s.candidate == snap
    requires forall j :: i <= j < |orig| ==> s.pos[j] == snap[j] && s.params[j] == p0[j]
    ensures Sweep(f, cmp, maximize, orig, fit, i, s).candidate == snap
    ensures |Sweep(f, cmp, maximize, orig, fit, i, s).evaluated| == |s.evaluated| + (|orig| - i)
    ensures Sweep(f, cmp, maximize, orig, fit, i, s).evaluated[..|s.evaluated|] == s.evaluated
    ensures forall j :: i <= j < |orig| ==>
      Sweep(f, cmp, maximize, orig, fit, i, s).evaluated[|s.evaluated| + (j - i)] == TrialPoint(snap, p0, j)
    decreases |orig| - i
  {
    if i < |orig| {
      var s1 := TrialDim(f, cmp, maximize, orig, fit, i, s);
      assert Trial(s, i) == TrialPoint(snap, p0, i);
      SweepLog(f, cmp, maximize, orig, fit, i + 1, s1, snap, p0);
      var r := Sweep(f, cmp, maximize, orig, fit, i, s);
      assert r == Sweep(f, cmp, maximize, orig, fit, i + 1, s1);
      assert r.evaluated[..|s1.evaluated|] == s1.evaluated;
      assert r.evaluated[..|s.evaluated|] == s1.evaluated[..|s.evaluated|];
    }
  }

  /**
   The moves of the same sweep: coordinates and triples before i are left
   alone, and coordinate j >= i and its triple are updated from the comparison
   of trial j with the fixed fitness alone.
   */
  lemma {:induction false} SweepMoves<T>(f: seq<real> -> T, cmp: Comparator<T>, maximize: bool, orig: seq<Parameters>,
                                         fit: T, i: nat, s: Search, snap: seq<real>, p0: seq<Parameters>)
    requires Shaped(s, |orig|) && i <= |orig|
    requires |snap| == |orig| && |p0| == |orig|
    requires s.candidate == snap
    requires forall j :: i <= j < |orig| ==> s.pos[j] == snap[j] && s.params[j] == p0[j]
    ensures forall j :: 0 <= j < i ==>
      Sweep(f, cmp, maximize, orig, fit, i, s).pos[j] == s.pos[j]
      && Sweep(f, cmp, maximize, orig, fit, i, s).params[j] == s.params[j]
    ensures forall j :: i <= j < |orig| ==>
      var c := Classify(cmp, maximize, f(TrialPoint(snap, p0, j)), fit);
      && Sweep(f, cmp, maximize, orig, fit, i, s).pos[j] == (if c == Some(Greater) then snap[j] + p0[j].stepSize else snap[j])
      && Sweep(f, cmp, maximize, orig, fit, i, s).params[j] == UpdateStep(p0[j], orig[j], c)
    decreases |orig| - i
  {
    if i < |orig| {
      var s1 := TrialDim(f, cmp, maximize, orig, fit, i, s);
      assert Trial(s, i) == TrialPoint(snap, p0, i);
      SweepMoves(f, cmp, maximize, orig, fit, i + 1, s1, snap, p0);
      assert Sweep(f, cmp, maximize, orig, fit, i, s) == Sweep(f, cmp, maximize, orig, fit, i + 1, s1);
    }
  }

  /**
   Sweeping dimensions i.. from a state whose candidate is the snapshot and
   whose remaining coordinates and triples are still those of the snapshot:
   the candidate ends equal to the snapshot, the trial for dimension j is the
   snapshot with only coordinate j moved by its step, and coordinate j and its
   triple are updated from that trial's comparison alone.
   */
  lemma SweepEffect<T>(f: seq<real> -> T, cmp: Comparator<T>, maximize: bool, orig: seq<Parameters>,
                       fit: T, i: nat, s: Search, snap: seq<real>, p0: seq<Parameters>)
    requires Shaped(s, |orig|) && i <= |orig|
    requires |snap| == |orig| && |p0| == |orig|
    requires s.candidate == snap
    requires forall j :: i <= j < |orig| ==> s.pos[j] == snap[j] && s.params[j] == p0[j]
    ensures Sweep(f, cmp, maximize, orig, fit, i, s).candidate == snap
    ensures |Sweep(f, cmp, maximize, orig, fit, i, s).evaluated| == |s.evaluated| + (|orig| - i)
    ensures Sweep(f, cmp, maximize, orig, fit, i, s).evaluated[..|s.evaluated|] == s.evaluated
    ensures forall j :: i <= j < |orig| ==>
      Sweep(f, cmp, maximize, orig, fit, i, s).evaluated[|s.evaluated| + (j - i)] == TrialPoint(snap, p0, j)
    ensures forall j :: 0 <= j < i ==>
      Sweep(f, cmp, maximize, orig, fit, i, s).pos[j] == s.pos[j]
      && Sweep(f, cmp, maximize, orig, fit, i, s).params[j] == s.params[j]
    ensures forall j :: i <= j < |orig| ==>
      var c := Classify(cmp, maximize, f(TrialPoint(snap, p0, j)), fit);
      && Sweep(f, cmp, maximize, orig, fit, i, s).pos[j] == (if c == Some(Greater) then snap[j] + p0[j].stepSize else snap[j])
      && Sweep(f, cmp, maximize, orig, fit, i, s).params[j] == UpdateStep(p0[j], orig[j], c)
  {
    SweepLog(f, cmp, maximize, orig, fit, i, s, snap, p0);
    SweepMoves(f, cmp, maximize, orig, fit, i, s, snap, p0);
  }

  /**
   One iteration: the objective is evaluated at the snapshot (the current
   position) and then at the n trial points, trial j being the snapshot with
   only coordinate j moved by its step; every trial is compared with the
   snapshot's fitness; coordinate j moves by its step exactly when its trial
   improves on that fitness, and its triple is updated by the step rule; the
   candidate ends equal to the snapshot.
   */
  lemma RoundEffect<T>(f: seq<real> -> T, cmp: Comparator<T>, maximize: bool, orig: seq<Parameters>, s: Search)
    requires Shaped(s, |orig|)
    ensures Round(f, cmp, maximize, orig, s).1 == f(s.pos)
    ensures Round(f, cmp, maximize, orig, s).0.candidate == s.pos
    ensures |Round(f, cmp, maximize, orig, s).0.evaluated| == |s.evaluated| + 1 + |orig|
    ensures Round(f, cmp, maximize, orig, s).0.evaluated[..|s.evaluated| + 1] == s.evaluated + [s.pos]
    ensures forall j :: 0 <= j < |orig| ==>
      Round(f, cmp, maximize, orig, s).0.evaluated[|s.evaluated| + 1 + j] == TrialPoint(s.pos, s.params, j)
    ensures forall j :: 0 <= j < |orig| ==>
      var c := Classify(cmp, maximize, f(TrialPoint(s.pos, s.params, j)), f(s.pos));
      && Round(f, cmp, maximize, orig, s).0.pos[j] == (if c == Some(Greater) then s.pos[j] + s.params[j].stepSize else s.pos[j])
      && Round(f, cmp, maximize, orig, s).0.params[j] == UpdateStep(s.params[j], orig[j], c)
  {
    var reset := s.(candidate := s.pos, evaluated := s.evaluated + [s.pos]);
    SweepEffect(f, cmp, maximize, orig, f(s.pos), 0, reset, s.pos, s.params);
    assert Round(f, cmp, maximize, orig, s).0 == Sweep(f, cmp, maximize, orig, f(s.pos), 0, reset);
  }

  // ---------------------------------------------------------------------------
  // Many rounds

  /** The triples' ratios agree. */
  ghost predicate SameRatios(a: seq<Parameters>, b: seq<Parameters>)
  {
    |a| == |b|
    && forall j :: 0 <= j < |a| ==>
      a[j].expansionRatio == b[j].expansionRatio && a[j].compressionRatio == b[j].compressionRatio
  }

  /**
   The working copy's ratios never change, so reading them from the working
   copy or from the optimizer's own triples (the source does both) is the same.
   */
  lemma {:induction false} RatiosPreserved<T>(f: seq<real> -> T, cmp: Comparator<T>, maximize: bool, orig: seq<Parameters>,
                                              k: nat, s: Search, fit: T)
    requires Shaped(s, |orig|) && SameRatios(s.params, orig)
    ensures SameRatios(Iterate(f, cmp, maximize, orig, k, s, fit).0.params, orig)
    decreases k
  {
    if k > 0 {
      RoundEffect(f, cmp, maximize, orig, s);
      var (next, roundFit) := Round(f, cmp, maximize, orig, s);
      RatiosPreserved(f, cmp, maximize, orig, k - 1, next, roundFit);
    }
  }

  /** k + 1 iterations are k iterations followed by one more round. */
  lemma {:induction false} IterateSplit<T>(f: seq<real> -> T, cmp: Comparator<T>, maximize: bool, orig: seq<Parameters>,
                                           k: nat, s: Search, fit: T)
    requires Shaped(s, |orig|)
    ensures Iterate(f, cmp, maximize, orig, k + 1, s, fit)
         == Round(f, cmp, maximize, orig, Iterate(f, cmp, maximize, orig, k, s, fit).0)
    decreases k
  {
    if k > 0 {
      var (next, roundFit) := Round(f, cmp, maximize, orig, s);
      IterateSplit(f, cmp, maximize, orig, k - 1, next, roundFit);
    }
  }

  /** Every round adds n + 1 evaluations to the log and keeps what was there. */
  lemma {:induction false} IterateEvaluations<T>(f: seq<real> -> T, cmp: Comparator<T>, maximize: bool, orig: seq<Parameters>,
                                                 k: nat, s: Search, fit: T)
    requires Shaped(s, |orig|)
    ensures |Iterate(f, cmp, maximize, orig, k, s, fit).0.evaluated| == |s.evaluated| + k * (|orig| + 1)
    ensures Iterate(f, cmp, maximize, orig, k, s, fit).0.evaluated[..|s.evaluated|] == s.evaluated
    decreases k
  {
    if k > 0 {
      RoundEffect(f, cmp, maximize, orig, s);
      var (next, roundFit) := Round(f, cmp, maximize, orig, s);
      IterateEvaluations(f, cmp, maximize, orig, k - 1, next, roundFit);
      var r := Iterate(f, cmp, maximize, orig, k, s, fit).0;
      assert r.evaluated[..|next.evaluated|] == next.evaluated;
      assert next.evaluated[..|s.evaluated|] == s.evaluated;
      assert r.evaluated[..|s.evaluated|] == next.evaluated[..|s.evaluated|];
      assert (k - 1) * (|orig| + 1) + (|orig| + 1) == k * (|orig| + 1);
    }
  }

  // ---------------------------------------------------------------------------
  // The outcome of optimize

  /**
   Once the start is accepted, `optimize` succeeds exactly when the fitness
   taken at the start of the last iteration (the start's own fitness when there
   are no iterations) strictly improves on the start's fitness; it then returns
   the position after all iterations, and otherwise reports `SolutionNoBetter`.
   */
  lemma OptimizeSucceedsIff<T>(po: ProximalOptimizer, start: seq<real>, f: seq<real> -> T, cmp: Comparator<T>)
    requires |start| == |po.parameters| && cmp(f(start), f(start)).Some?
    ensures var lastFit := if po.iterations == 0 then f(start) else f(PositionAfter(po, start, f, cmp, po.iterations - 1));
      Optimize(po, start, f, cmp).Ok? <==> Improves(cmp, po.maximize, lastFit, f(start))
    ensures Optimize(po, start, f, cmp).Ok? ==> Optimize(po, start, f, cmp).value == PositionAfter(po, start, f, cmp, po.iterations)
    ensures Optimize(po, start, f, cmp).Err? ==> Optimize(po, start, f, cmp).error == SolutionNoBetter
  {
    if po.iterations > 0 {
      var k := po.iterations - 1;
      var s0 := InitialSearch(po, start);
      IterateSplit(f, cmp, po.maximize, po.parameters, k, s0, f(start));
      RoundEffect(f, cmp, po.maximize, po.parameters, Iterate(f, cmp, po.maximize, po.parameters, k, s0, f(start)).0);
    }
  }

  /** Every self-comparable fitness compares `Equal` with itself, as for floating-point numbers. */
  ghost predicate SelfComparesEqual<T(!new)>(cmp: Comparator<T>)
  {
    forall x: T :: cmp(x, x).Some? ==> cmp(x, x) == Some(Equal)
  }

  /**
   With at most one iteration `optimize` never succeeds: the fitness it
   compares at the end is the start's own, whatever that iteration achieved.
   */
  lemma FewIterationsNeverSucceed<T(!new)>(po: ProximalOptimizer, start: seq<real>, f: seq<real> -> T, cmp: Comparator<T>)
    requires po.iterations <= 1 && SelfComparesEqual(cmp)
    ensures Optimize(po, start, f, cmp).Err?
    ensures |start| == |po.parameters| && cmp(f(start), f(start)).Some? ==>
      Optimize(po, start, f, cmp) == Err(SolutionNoBetter)
  {
    if |start| == |po.parameters| && cmp(f(start), f(start)).Some? {
      OptimizeSucceedsIff(po, start, f, cmp);
      if po.iterations == 1 {
        assert PositionAfter(po, start, f, cmp, 0) == start;
      }
      assert cmp(f(start), f(start)) == Some(Equal);
    }
  }

  /**
   Once the start is accepted the objective is called on the start twice and
   then n + 1 times per iteration: 2 + iterations * (n + 1) calls in all.
   */
  lemma EvaluationCount<T>(po: ProximalOptimizer, start: seq<real>, f: seq<real> -> T, cmp: Comparator<T>)
    requires |start| == |po.parameters| && cmp(f(start), f(start)).Some?
    ensures |Execute(po, start, f, cmp).evaluated| == 2 + po.iterations * (|start| + 1)
    ensures Execute(po, start, f, cmp).evaluated[..2] == [start, start]
  {
    IterateEvaluations(f, cmp, po.maximize, po.parameters, po.iterations, InitialSearch(po, start), f(start));
  }
}
