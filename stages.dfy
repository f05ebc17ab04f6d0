/** The stage entry points: a one-trial smoke test (stage 1) and the
    multi-trial, fail-fast, worst-case scoring loop shared by stage 2
    (three trials) and stage 3 (eight trials). Every exception a stage
    meets is caught and turned into a record. */
module Stages {
  import opened Results
  import opened KernelTest

  const STAGE2_TRIALS: nat := 3
  const STAGE3_TRIALS: nat := 8

  /** Loading the reference module and then the candidate module either
      succeeds or raises. */
  datatype Loading = Loaded | LoadFailed(text: string)

  /** A trial that finished and found the output equal to the reference. */
  predicate Passed(o: TrialResult) {
    o.Finished? && o.correct
  }

  /** The cycle count a trial reports (0 for a trial that raised). */
  function CyclesOf(o: TrialResult): nat {
    if o.Finished? then o.cycles else 0
  }

  /** The verdicts of the trials, in the order they are run. */
  function Outcomes(trials: seq<TrialEnv>): (rs: seq<TrialResult>)
    ensures |rs| == |trials|
  {
    if |trials| == 0 then []
    else Outcomes(trials[..|trials| - 1]) + [Outcome(trials[|trials| - 1])]
  }

  /** The index of the first trial that does not pass, or `|results|` when
      every trial passes. */
  function FirstFailure(results: seq<TrialResult>): (k: nat)
    ensures k <= |results|
    ensures forall i :: 0 <= i < k ==> Passed(results[i])
    ensures k < |results| ==> !Passed(results[k])
  {
    if |results| == 0 then 0
    else if !Passed(results[0]) then 0
    else 1 + FirstFailure(results[1..])
  }

  /** `cycles_list` once every trial has been appended. */
  function CycleCounts(results: seq<TrialResult>): (cs: seq<nat>)
    ensures |cs| == |results|
    ensures forall i :: 0 <= i < |results| ==> cs[i] == CyclesOf(results[i])
  {
    seq(|results|, i requires 0 <= i < |results| => CyclesOf(results[i]))
  }

  /** Python's `max` on a non-empty list. */
  function SeqMax(s: seq<nat>): (m: nat)
    requires |s| > 0
    ensures m in s
    ensures forall i :: 0 <= i < |s| ==> s[i] <= m
  {
    if |s| == 1 then s[0]
    else
      var rest := SeqMax(s[1..]);
      if s[0] < rest then rest else s[0]
  }

  /** The record built from the cycle counts of a stage whose every trial
      passed: `max` raises on an empty list, the division raises when every
      count is zero (both are caught), and otherwise the worst case is scored. */
  function Score(cycles: seq<nat>): (r: Metrics)
    ensures |cycles| == 0 ==> r == ExceptionRecord(EmptyMaximum)
    ensures |cycles| > 0 && (forall i :: 0 <= i < |cycles| ==> cycles[i] == 0) ==>
      r == ExceptionRecord(DivisionByZero)
    ensures (exists i :: 0 <= i < |cycles| && cycles[i] > 0) ==>
      && r.correctness == 1
      && (forall i :: 0 <= i < |cycles| ==> cycles[i] <= r.cycles)
      && (exists i :: 0 <= i < |cycles| && cycles[i] == r.cycles)
      && r.cycles > 0
      && r.speedup == Speedup(r.cycles)
      && r.combinedScore == 10.0 * r.speedup
      && r.error == NoError && !r.hasTraceback
  {
    if |cycles| == 0 then ExceptionRecord(EmptyMaximum)
    else
      var maxCycles := SeqMax(cycles);
      if maxCycles == 0 then ExceptionRecord(DivisionByZero)
      else ScoreRecord(maxCycles)
  }

  /** What a stage returns, given how loading went and the verdicts of its
      trials: the first trial that raises or is incorrect decides, and
      otherwise the maximum cycle count is scored. */
  function StageOf(load: Loading, results: seq<TrialResult>): (r: Metrics)
    ensures load.LoadFailed? ==> r == ExceptionRecord(ImportFailure(load.text))
    ensures r.correctness == 0 || r.correctness == 1
    ensures r.correctness == 0 ==>
      && r.combinedScore == 0.0 && r.cycles == 2 * BASELINE && r.speedup == 0.5
      && r.error != NoError
    ensures r.correctness == 1 ==> r.cycles > 0 && r.error == NoError && !r.hasTraceback
  {
    if load.LoadFailed? then ExceptionRecord(ImportFailure(load.text))
    else
      var k := FirstFailure(results);
      if k < |results| then
        if results[k].Threw? then ExceptionRecord(results[k].exc) else IncorrectRecord()
      else Score(CycleCounts(results))
  }

  /** The verdicts of a prefix of the trials are a prefix of the verdicts. */
  lemma {:induction false} OutcomesPrefix(trials: seq<TrialEnv>, i: nat)
    requires i <= |trials|
    ensures Outcomes(trials[..i]) == Outcomes(trials)[..i]
    decreases |trials|
  {
    if i < |trials| {
      var init := trials[..|trials| - 1];
      assert trials[..i] == init[..i];
      OutcomesPrefix(init, i);
    } else {
      assert trials[..i] == trials;
    }
  }

  /** Running one more trial appends its verdict. */
  lemma {:induction false} OutcomesExtend(trials: seq<TrialEnv>, i: nat)
    requires i < |trials|
    ensures Outcomes(trials[..i + 1]) == Outcomes(trials[..i]) + [Outcome(trials[i])]
  {
    assert trials[..i + 1][..i] == trials[..i];
  }

  /** The verdict at position `k` is the verdict of trial `k`. */
  lemma {:induction false} OutcomesAt(trials: seq<TrialEnv>, k: nat)
    requires k < |trials|
    ensures Outcomes(trials)[k] == Outcome(trials[k])
  {
    OutcomesPrefix(trials, k + 1);
    OutcomesExtend(trials, k);
    assert Outcomes(trials)[k] == Outcomes(trials)[..k + 1][k];
  }

  /** Once the verdicts of the first trials end in one that does not pass,
      that one is the first failure of all the trials' verdicts. */
  lemma {:induction false} DecidedByPrefix(trials: seq<TrialEnv>, seen: seq<TrialResult>)
    requires 0 < |seen| <= |trials|
    requires seen == Outcomes(trials[..|seen|])
    requires forall j :: 0 <= j < |seen| - 1 ==> Passed(seen[j])
    requires !Passed(seen[|seen| - 1])
    ensures FirstFailure(Outcomes(trials)) == |seen| - 1
    ensures Outcomes(trials)[|seen| - 1] == seen[|seen| - 1]
  {
    var k := |seen| - 1;
    var rs := Outcomes(trials);
    OutcomesPrefix(trials, k + 1);
    assert rs[..k + 1] == seen;
    forall j | 0 <= j <= k ensures rs[j] == seen[j] {
      assert rs[j] == rs[..k + 1][j];
    }
  }

  /** The trial loop of stages 2 and 3: runs the trials in order and stops
      at the first one that raises or is incorrect, returning its verdict;
      when every trial passes, returns `cycles_list` and no failure. */
  method RunTrials(trials: seq<TrialEnv>) returns (cyclesList: seq<nat>, failure: Option<TrialResult>)
    ensures failure.Some? ==>
      && FirstFailure(Outcomes(trials)) < |trials|
      && failure.value == Outcomes(trials)[FirstFailure(Outcomes(trials))]
    ensures failure.None? ==>
      && FirstFailure(Outcomes(trials)) == |trials|
      && cyclesList == CycleCounts(Outcomes(trials))
  {
    cyclesList := [];
    ghost var seen: seq<TrialResult> := [];
    var i := 0;
    while i < |trials|
      invariant 0 <= i <= |trials|
      invariant seen == Outcomes(trials[..i])
      invariant forall j :: 0 <= j < i ==> Passed(seen[j])
      invariant cyclesList == CycleCounts(seen)
    {
      var outcome := RunKernelTest(trials[i]);
      OutcomesExtend(trials, i);
      seen := seen + [outcome];
      if outcome.Threw? || !outcome.correct {
        DecidedByPrefix(trials, seen);
        return cyclesList, Some(outcome);
      }
      cyclesList := cyclesList + [outcome.cycles];
      i := i + 1;
    }
    assert trials[..i] == trials;
    failure := None;
  }

  /** Stages 2 and 3 after loading: the first failing trial decides the
      record, and otherwise the worst cycle count is scored. */
  method EvaluateTrials(load: Loading, trials: seq<TrialEnv>) returns (r: Metrics)
    ensures r == StageOf(load, Outcomes(trials))
  {
    if load.LoadFailed? {
      return ExceptionRecord(ImportFailure(load.text));
    }
    var cyclesList, failure := RunTrials(trials);
    match failure {
      case Some(outcome) =>
        if outcome.Threw? {
          r := ExceptionRecord(outcome.exc);
        } else {
          r := IncorrectRecord();
        }
      case None =>
        r := Score(cyclesList);
    }
  }

  /** Stage 2: three trials at full problem size. */
  method EvaluateStage2(load: Loading, trials: seq<TrialEnv>) returns (r: Metrics)
    requires |trials| == STAGE2_TRIALS
    ensures r == StageOf(load, Outcomes(trials))
    ensures r.correctness == 1 ==> r.cycles > 0
  {
    r := EvaluateTrials(load, trials);
    NeverCorrectWithZeroCycles(load, Outcomes(trials));
  }

  /** Stage 3: eight trials at full problem size; also the default entry point. */
  method EvaluateStage3(load: Loading, trials: seq<TrialEnv>) returns (r: Metrics)
    requires |trials| == STAGE3_TRIALS
    ensures r == StageOf(load, Outcomes(trials))
    ensures r.correctness == 1 ==> r.cycles > 0
  {
    r := EvaluateTrials(load, trials);
    NeverCorrectWithZeroCycles(load, Outcomes(trials));
  }

  /** Stage 1: one smoke-test trial on a small problem, pass or fail only. */
  method EvaluateStage1(load: Loading, trial: TrialEnv) returns (r: QuickMetrics)
    ensures load.LoadFailed? ==> r == QuickException(ImportFailure(load.text))
    ensures load.Loaded? && Outcome(trial).Threw? ==> r == QuickException(Outcome(trial).exc)
    ensures load.Loaded? && Outcome(trial).Finished? ==>
      r == (if Outcome(trial).correct then QuickPass() else QuickFail())
    ensures r.correctness == 1 <==> load.Loaded? && Passed(Outcome(trial))
    ensures r.correctness == 1 <==> r == QuickPass()
  {
    if load.LoadFailed? {
      return QuickException(ImportFailure(load.text));
    }
    var outcome := RunKernelTest(trial);
    match outcome {
      case Threw(e) =>
        r := QuickException(e);
      case Finished(_, correct) =>
        if !correct {
          return QuickFail();
        }
        r := QuickPass();
    }
  }

  /** The first trial that raises or is incorrect decides the stage: an
      exception gives the exception record, an incorrect output gives the
      "Incorrect output values" record, however many trials passed before. */
  lemma {:induction false} StopsAtFirstFailure(results: seq<TrialResult>, k: nat)
    requires k < |results|
    requires forall i :: 0 <= i < k ==> Passed(results[i])
    requires !Passed(results[k])
    ensures results[k].Threw? ==> StageOf(Loaded, results) == ExceptionRecord(results[k].exc)
    ensures results[k].Finished? ==> StageOf(Loaded, results) == IncorrectRecord()
    ensures StageOf(Loaded, results).combinedScore == 0.0
    ensures StageOf(Loaded, results).cycles == 2 * BASELINE
    ensures StageOf(Loaded, results).correctness == 0
  {
    assert FirstFailure(results) == k;
  }

  /** Fail-fast: once verdict `k` is the first that does not pass, nothing
      after it affects the result. */
  lemma {:induction false} FailFast(load: Loading, results: seq<TrialResult>, other: seq<TrialResult>)
    requires FirstFailure(results) < |results|
    requires FirstFailure(results) < |other|
    requires other[..FirstFailure(results) + 1] == results[..FirstFailure(results) + 1]
    ensures StageOf(load, other) == StageOf(load, results)
  {
    var k := FirstFailure(results);
    forall i | 0 <= i <= k ensures other[i] == results[i] {
      assert other[..k + 1][i] == results[..k + 1][i];
    }
    assert FirstFailure(other) == k;
  }

  /** Fail-fast, stated on the trials: once trial `k` is the first that does
      not pass, trials after it are never run, so replacing them (or adding
      or removing some) leaves the stage result unchanged. */
  lemma {:induction false} LaterTrialsIgnored(load: Loading, trials: seq<TrialEnv>, other: seq<TrialEnv>)
    requires FirstFailure(Outcomes(trials)) < |trials|
    requires FirstFailure(Outcomes(trials)) < |other|
    requires other[..FirstFailure(Outcomes(trials)) + 1] == trials[..FirstFailure(Outcomes(trials)) + 1]
    ensures StageOf(load, Outcomes(other)) == StageOf(load, Outcomes(trials))
  {
    var k := FirstFailure(Outcomes(trials));
    OutcomesPrefix(trials, k + 1);
    OutcomesPrefix(other, k + 1);
    FailFast(load, Outcomes(trials), Outcomes(other));
  }

  /** When every trial passes, the stage scores the full list of cycle counts. */
  lemma {:induction false} AllPassScoresCycles(results: seq<TrialResult>)
    requires forall i :: 0 <= i < |results| ==> Passed(results[i])
    ensures StageOf(Loaded, results) == Score(CycleCounts(results))
  {
    assert FirstFailure(results) == |results|;
  }

  /** When every trial passes and the worst case took some cycles, the stage
      reports that worst case: at least every trial's count and equal to one
      of them, with the speedup and score derived from it. */
  lemma {:induction false} AllCorrectReportsMaximum(results: seq<TrialResult>)
    requires forall i :: 0 <= i < |results| ==> Passed(results[i])
    requires exists i :: 0 <= i < |results| && CyclesOf(results[i]) > 0
    ensures var r := StageOf(Loaded, results);
      && r.correctness == 1
      && (forall i :: 0 <= i < |results| ==> CyclesOf(results[i]) <= r.cycles)
      && (exists i :: 0 <= i < |results| && CyclesOf(results[i]) == r.cycles)
      && r.cycles > 0
      && r.speedup == Speedup(r.cycles)
      && r.combinedScore == r.speedup * 10.0
      && r.error == NoError
  {
    var cs := CycleCounts(results);
    AllPassScoresCycles(results);
    var i :| 0 <= i < |results| && CyclesOf(results[i]) > 0;
    assert cs[i] > 0;
    var m := Score(cs).cycles;
    var j :| 0 <= j < |cs| && cs[j] == m;
    assert CyclesOf(results[j]) == m;
  }

  /** A stage scores correctness 1 exactly when loading succeeded, every
      trial passed, and at least one trial took a positive number of cycles. */
  lemma {:induction false} CorrectnessIffAllPass(load: Loading, results: seq<TrialResult>)
    ensures StageOf(load, results).correctness == 1 <==>
      && load.Loaded?
      && (forall i :: 0 <= i < |results| ==> Passed(results[i]))
      && (exists i :: 0 <= i < |results| && CyclesOf(results[i]) > 0)
  {
    if load.Loaded? && forall i :: 0 <= i < |results| ==> Passed(results[i]) {
      AllPassScoresCycles(results);
      var cs := CycleCounts(results);
      if exists i :: 0 <= i < |results| && CyclesOf(results[i]) > 0 {
        AllCorrectReportsMaximum(results);
      } else if |cs| > 0 {
        var j :| 0 <= j < |cs| && cs[j] == SeqMax(cs);
        assert CyclesOf(results[j]) == 0;
      }
    } else if load.Loaded? {
      var i :| 0 <= i < |results| && !Passed(results[i]);
      assert FirstFailure(results) < |results|;
    }
  }

  /** No stage returns a correct record with zero cycles: a zero worst case
      raises in the division and yields the exception record instead. */
  lemma {:induction false} NeverCorrectWithZeroCycles(load: Loading, results: seq<TrialResult>)
    ensures StageOf(load, results).correctness == 1 ==> StageOf(load, results).cycles > 0
    ensures
      (&& load.Loaded?
       && (forall i :: 0 <= i < |results| ==> Passed(results[i]))
       && |results| > 0
       && (forall i :: 0 <= i < |results| ==> CyclesOf(results[i]) == 0))
      ==> StageOf(load, results) == ExceptionRecord(DivisionByZero)
  {
    CorrectnessIffAllPass(load, results);
    if StageOf(load, results).correctness == 1 {
      AllCorrectReportsMaximum(results);
    }
    if load.Loaded? && (forall i :: 0 <= i < |results| ==> Passed(results[i])) && |results| > 0 {
      AllPassScoresCycles(results);
      var cs := CycleCounts(results);
      var j :| 0 <= j < |cs| && cs[j] == SeqMax(cs);
      assert SeqMax(cs) == CyclesOf(results[j]);
    }
  }

  /** Every stage result is one of the three record shapes, and its
      combined score is positive exactly when it is a correct record. */
  lemma {:induction false} StageResultShape(load: Loading, results: seq<TrialResult>)
    ensures var r := StageOf(load, results);
      || r == IncorrectRecord()
      || (exists e :: r == ExceptionRecord(e))
      || (r.cycles > 0 && r == ScoreRecord(r.cycles))
    ensures StageOf(load, results).correctness in {0, 1}
    ensures StageOf(load, results).combinedScore > 0.0 <==> StageOf(load, results).correctness == 1
  {
    var r := StageOf(load, results);
    NeverCorrectWithZeroCycles(load, results);
    if load.LoadFailed? {
      assert r == ExceptionRecord(ImportFailure(load.text));
    } else if FirstFailure(results) < |results| {
      var o := results[FirstFailure(results)];
      if o.Threw? {
        assert r == ExceptionRecord(o.exc);
      }
    } else {
      var cs := CycleCounts(results);
      if |cs| == 0 {
        assert r == ExceptionRecord(EmptyMaximum);
      } else if SeqMax(cs) == 0 {
        assert r == ExceptionRecord(DivisionByZero);
      }
    }
  }

  /** Between two correct stage results, the one with fewer worst-case
      cycles has the strictly higher combined score. */
  lemma {:induction false} FewerCyclesScoreHigher(
    load1: Loading, results1: seq<TrialResult>, load2: Loading, results2: seq<TrialResult>)
    requires StageOf(load1, results1).correctness == 1
    requires StageOf(load2, results2).correctness == 1
    requires StageOf(load1, results1).cycles < StageOf(load2, results2).cycles
    ensures StageOf(load1, results1).combinedScore > StageOf(load2, results2).combinedScore
  {
    var r1, r2 := StageOf(load1, results1), StageOf(load2, results2);
    StageResultShape(load1, results1);
    StageResultShape(load2, results2);
    assert r1 == ScoreRecord(r1.cycles) && r2 == ScoreRecord(r2.cycles);
    ScoreStrictlyDecreasing(r1.cycles, r2.cycles);
  }
}
