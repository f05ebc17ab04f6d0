/** The records the evaluator hands back to the search controller, the
    constants that calibrate them, and the speedup and score formulas.
    Python floats are modelled as exact reals. */
module Results {

  /** Cycle count of the unoptimised kernel on the full problem. */
  const BASELINE: nat := 147734

  /** The exceptions that the stage entry points catch with `except Exception`. */
  datatype Exception =
      /** Loading the reference module or the candidate module raised. */
    | ImportFailure(text: string)
      /** The problem generators, the candidate's builder, the machine or the
          reference kernel raised while a trial was running. */
    | KernelFailure(text: string)
      /** `ref_mem[6]` on a reference memory shorter than seven words. */
    | IndexOutOfRange
      /** `BASELINE / max_cycles` with `max_cycles == 0`. */
    | DivisionByZero
      /** `max(cycles_list)` on an empty list (only with zero trials). */
    | EmptyMaximum

  /** The message stored when a trial's output differs from the reference. */
  const INCORRECT_OUTPUT_VALUES: string := "Incorrect output values"

  /** The optional `error` entry of a result dictionary. */
  datatype ErrorField = NoError | Message(text: string) | Raised(exc: Exception)

  /** The dictionary returned by stages 2 and 3: `combined_score`, `cycles`,
      `speedup`, `correctness`, and optionally `error` and `traceback`. */
  datatype Metrics = Metrics(
    combinedScore: real,
    cycles: int,
    speedup: real,
    correctness: int,
    error: ErrorField,
    hasTraceback: bool)

  /** The dictionary returned by stage 1: `quick_score`, `correctness`,
      `combined_score`, and optionally `error`. */
  datatype QuickMetrics = QuickMetrics(
    quickScore: real,
    correctness: int,
    combinedScore: real,
    error: ErrorField)

  /** The fixed penalty record for a candidate that is not correct. */
  function ErrorResult(): (r: Metrics)
    ensures r.combinedScore == 0.0 && r.speedup == 0.5 && r.correctness == 0
    ensures r.cycles == 295468
    ensures r.error == NoError && !r.hasTraceback
  {
    Metrics(0.0, BASELINE * 2, 0.5, 0, NoError, false)
  }

  /** `BASELINE / max_cycles`: how many times faster than the baseline. */
  function Speedup(maxCycles: nat): (s: real)
    requires maxCycles > 0
    ensures s > 0.0
  {
    BASELINE as real / maxCycles as real
  }

  /** `speedup * 10`: the scalar fitness the search maximises. */
  function CombinedScore(maxCycles: nat): (score: real)
    requires maxCycles > 0
    ensures score > 0.0
  {
    Speedup(maxCycles) * 10.0
  }

  /** Speedup and score are inverse to the worst-case cycle count: scaled by
      it they give back the baseline (times 10 for the score). */
  lemma {:induction false} ScaledByCycles(maxCycles: nat)
    requires maxCycles > 0
    ensures Speedup(maxCycles) * maxCycles as real == BASELINE as real
    ensures CombinedScore(maxCycles) * maxCycles as real == 10.0 * BASELINE as real
  {
    var s, m := Speedup(maxCycles), maxCycles as real;
    assert s * m == BASELINE as real;
    assert CombinedScore(maxCycles) * m == (s * m) * 10.0;
  }

  /** The record of a stage whose every trial was correct. */
  function ScoreRecord(maxCycles: nat): (r: Metrics)
    requires maxCycles > 0
    ensures r.correctness == 1 && r.cycles == maxCycles
    ensures r.speedup == Speedup(maxCycles)
    ensures r.combinedScore == r.speedup * 10.0
    ensures r.error == NoError && !r.hasTraceback
  {
    Metrics(CombinedScore(maxCycles), maxCycles, Speedup(maxCycles), 1, NoError, false)
  }

  /** The penalty record with the "Incorrect output values" message. */
  function IncorrectRecord(): (r: Metrics)
    ensures r.error == Message(INCORRECT_OUTPUT_VALUES) && !r.hasTraceback
    ensures r.(error := NoError) == ErrorResult()
  {
    ErrorResult().(error := Message(INCORRECT_OUTPUT_VALUES))
  }

  /** The penalty record for a caught exception, with `error` and `traceback`. */
  function ExceptionRecord(e: Exception): (r: Metrics)
    ensures r.error == Raised(e) && r.hasTraceback
    ensures r.(error := NoError, hasTraceback := false) == ErrorResult()
  {
    ErrorResult().(error := Raised(e), hasTraceback := true)
  }

  /** Stage 1's record for a correct smoke test. */
  function QuickPass(): (r: QuickMetrics)
    ensures r.quickScore == 1.0 && r.correctness == 1 && r.combinedScore == 1.0
    ensures r.error == NoError
  {
    QuickMetrics(1.0, 1, 1.0, NoError)
  }

  /** Stage 1's record for an incorrect smoke test. */
  function QuickFail(): (r: QuickMetrics)
    ensures r.quickScore == 0.0 && r.correctness == 0 && r.combinedScore == 0.0
    ensures r.error == NoError
  {
    QuickMetrics(0.0, 0, 0.0, NoError)
  }

  /** Stage 1's record for a caught exception: all zeros plus `error`. */
  function QuickException(e: Exception): (r: QuickMetrics)
    ensures r.(error := NoError) == QuickFail()
    ensures r.error == Raised(e)
  {
    QuickMetrics(0.0, 0, 0.0, Raised(e))
  }

  /** A run at exactly the baseline cycle count scores 10. */
  lemma ScoreAtBaseline()
    ensures Speedup(BASELINE) == 1.0
    ensures CombinedScore(BASELINE) == 10.0
  {
  }

  /** Fewer worst-case cycles give a strictly higher score. */
  lemma {:induction false} ScoreStrictlyDecreasing(fewer: nat, more: nat)
    requires 0 < fewer < more
    ensures Speedup(fewer) > Speedup(more)
    ensures CombinedScore(fewer) > CombinedScore(more)
  {
    var b, x, y := BASELINE as real, fewer as real, more as real;
    var sx, sy := Speedup(fewer), Speedup(more);
    ScaledByCycles(fewer);
    ScaledByCycles(more);
    assert sx * x == b && sy * y == b;
    // sx * x == sy * y > sy * x, and x > 0, so sx > sy
    assert sy * (y - x) > 0.0;
    assert (sx - sy) * x > 0.0;
  }

  /** The penalty's cycles and speedup agree with the formula at twice the
      baseline, but its combined score is 0, not the formula's 5. */
  lemma PenaltyAgainstFormula()
    ensures Speedup(2 * BASELINE) == ErrorResult().speedup
    ensures CombinedScore(ErrorResult().cycles) == 5.0
    ensures ErrorResult().combinedScore == 0.0
  {
  }

  /** Every correct record outranks the penalty records by combined score. */
  lemma PenaltyBelowEveryScore(maxCycles: nat, e: Exception)
    requires maxCycles > 0
    ensures ErrorResult().combinedScore < ScoreRecord(maxCycles).combinedScore
    ensures IncorrectRecord().combinedScore < ScoreRecord(maxCycles).combinedScore
    ensures ExceptionRecord(e).combinedScore < ScoreRecord(maxCycles).combinedScore
  {
  }
}
