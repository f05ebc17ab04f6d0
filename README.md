# Evaluator scoring pipeline, modelled in Dafny

This project models the scoring pipeline of the evaluator that an evolutionary
code search uses to rank candidate kernels for the performance take-home
(`src/evaluator.py`). A candidate kernel runs on an external machine simulator.
Its output window is compared word for word with the final memory of the
reference kernel. A stage then turns its trials into one result record:

- **Stage 1** runs one smoke-test trial and reports pass or fail. Its record
  has only `quick_score`, `correctness` and `combined_score`: 1.0 / 1 / 1.0 on
  a pass, all zeros on a failure, and all zeros plus `error` when an exception
  is caught. It has no cycles, speedup or traceback.
- **Stages 2 and 3** run 3 and 8 trials. They stop at the first incorrect
  trial. When every trial is correct they score the worst (maximum) cycle
  count as `speedup = BASELINE / max_cycles` and `combined_score = speedup * 10`.
- **Penalty record (stages 2 and 3).** Any failure in these stages gives a
  fixed record: score 0, cycles `2 * BASELINE`, speedup 0.5. An incorrect
  output adds the message "Incorrect output values". A caught exception adds
  `error` and `traceback`.
- **Exceptions.** Every stage catches every `Exception` and turns it into its
  record.

The model has three modules:

- `Results` (`results.dfy`) holds the constant `BASELINE = 147734` and the
  exceptions the stages catch. It also holds the result dictionaries as
  datatypes (`Metrics` for stages 2/3, `QuickMetrics` for stage 1), the penalty
  record, and the speedup and score formulas. Speedup and score are exact
  `real`s.
- `KernelTest` (`kernel_test.dfy`) models one trial (`_run_kernel_test`):
  - The machine, the problem generators and the reference kernel are
    external. A trial is described by what they produced (`Run`: the machine's
    memory and cycle counter, every memory state the reference kernel yielded,
    and the number of input values) or by the exception they raised (`Failed`).
  - `DrainReference` is the loop that drains the reference generator and keeps
    its last state.
  - `PySlice` is Python's list slicing, including negative bounds and the
    clamping of bounds that are out of range.
  - `Outcome` is the trial's verdict, and `RunKernelTest` is the method proved
    to compute it.
- `Stages` (`stages.dfy`) models `evaluate_stage1`, and `evaluate_stage2` /
  `evaluate_stage3` as one shared body, `EvaluateTrials`:
  - `RunTrials` is the trial loop. It stops at the first trial that raises or
    is incorrect, and otherwise collects `cycles_list`.
  - `EvaluateTrials` takes the loading outcome and the sequence of trials,
    runs the loop and builds the record. It is proved to compute the
    specification function `StageOf` on the trials' verdicts (`Outcomes`).
  - `EvaluateStage2` and `EvaluateStage3` call it with 3 and 8 trials. The
    source's `evaluate` alias is `evaluate_stage3`.
  - Lemmas about `StageOf` state the properties: stopping at the first
    failure, the maximum as the aggregate, correctness if and only if every
    trial passes, and the ordering of scores.

Two facts about the code decide how failures are modelled:

- `_get_frozen_problem_module` is called inside each stage's `try` block. A
  reference module that fails to load is therefore caught like any candidate
  failure (`LoadFailed` in the model). In stages 2 and 3 it yields the penalty
  record with `error` and `traceback`, and in stage 1 the all-zero record with
  `error`.
- `_run_kernel_test` catches nothing. An exception raised during a trial
  leaves the trial loop, and the stage's `except` builds the record. The model
  has the same structure: `TrialResult.Threw` ends the stage loop.

## Model

| member | source | states |
|---|---|---|
| `Results.ErrorResult` | src/evaluator.py:79-85 | the penalty record has combined score 0.0, cycles 295468 (= 2 × BASELINE), speedup 0.5, correctness 0, and no error entry |
| `Results.Speedup` | src/evaluator.py:132 | the speedup of a positive worst-case cycle count is positive |
| `Results.CombinedScore` | src/evaluator.py:135 | the combined score of a positive worst-case cycle count is positive |
| `Results.ScaledByCycles` | src/evaluator.py:132-135 | speedup multiplied by the worst-case cycle count gives back BASELINE, and the combined score multiplied by it gives 10 × BASELINE |
| `Results.ScoreRecord` | src/evaluator.py:134-139 | a correct stage's record has correctness 1, cycles equal to the worst case, the formula's speedup, combined score = speedup × 10, and no error |
| `Results.IncorrectRecord` | src/evaluator.py:128 | the incorrect-output record is the penalty record plus the message "Incorrect output values", without a traceback |
| `Results.ExceptionRecord` | src/evaluator.py:141-142 | the exception record is the penalty record plus the caught exception and a traceback |
| `Results.QuickPass` | src/evaluator.py:106 | stage 1's pass record is quick score 1.0, correctness 1, combined score 1.0 |
| `Results.QuickFail` | src/evaluator.py:103-104 | stage 1's fail record is all zeros with no error |
| `Results.QuickException` | src/evaluator.py:108-109 | stage 1's exception record is the all-zero record plus the error |
| `Results.ScoreAtBaseline` | src/evaluator.py:132-135 | a worst case equal to BASELINE gives speedup 1 and combined score exactly 10 |
| `Results.ScoreStrictlyDecreasing` | src/evaluator.py:132-135 | fewer worst-case cycles give a strictly higher speedup and combined score |
| `Results.PenaltyAgainstFormula` | src/evaluator.py:79-85 | the penalty's speedup 0.5 is what the formula gives at 2 × BASELINE, while the formula's score there would be 5.0 and the penalty's is 0.0 |
| `Results.PenaltyBelowEveryScore` | src/evaluator.py:79-85 | every penalty record (plain, incorrect output or exception) has a lower combined score than any correct record |
| `KernelTest.SliceBound` | src/evaluator.py:73-74 | a slice bound is normalised as Python does: negative bounds count from the end, and the result is clamped to [0, len] |
| `KernelTest.PySlice` | src/evaluator.py:73-74 | Python slicing is never longer than the list it slices |
| `KernelTest.PySliceNonNegative` | src/evaluator.py:73-74 | with non-negative bounds, a slice is the ordinary subsequence for in-range bounds, the tail when only the end overshoots, and empty when it starts at or past the end or ends before it starts |
| `KernelTest.ListEqIsEquality` | src/evaluator.py:76 | `ListEq`, Python's word-by-word `==` on two lists, holds exactly when the lists are equal |
| `KernelTest.WindowsEqual` | src/evaluator.py:73-76 | two windows at the same position and width are equal exactly when they agree at every position |
| `KernelTest.Outcome` | src/evaluator.py:53-76 | a trial's verdict: an exception from a collaborator escapes unchanged, an empty reference gives (0, False), the only exception the trial raises itself is the index error, and a trial with a reference that finishes reports the machine's cycle counter. When the index error is raised is `ReferenceTooShortRaises`; the comparison is `WindowVerdict`, `WindowComparison`, `ShortMachineMemoryFails` and `EmptyWindowPasses`; the empty-reference case is `NoReferenceStateFails` |
| `KernelTest.DrainReference` | src/evaluator.py:65-67 | draining the reference generator gives nothing exactly when it yielded nothing, and otherwise its last yielded state |
| `KernelTest.RunKernelTest` | src/evaluator.py:42-76 | the trial method (drain the reference generator, read the output pointer, slice both memories, compare with `==`) returns exactly the verdict `Outcome` |
| `KernelTest.ReferenceTooShortRaises` | src/evaluator.py:69-72 | with a reference state, the trial raises exactly when the last reference memory has at most 6 words (so `ref_mem[6]` does not exist), and what it raises is the index error |
| `KernelTest.WindowVerdict` | src/evaluator.py:72-76 | for every last reference memory with a word at index 6, the trial reports the machine's cycle counter and whether the clamped windows `mem[p:p + n]` and `ref[p:p + n]` are equal, for any pointer and any memory sizes |
| `KernelTest.NoReferenceStateFails` | src/evaluator.py:69-70 | with no reference state the trial is (0, False), whatever the machine's memory and cycle counter hold |
| `KernelTest.WindowComparison` | src/evaluator.py:72-76 | when the window `[ref[6], ref[6] + len(values))` lies inside both memories, the trial reports the machine's cycles and is correct exactly when every word in the window is equal |
| `KernelTest.ShortMachineMemoryFails` | src/evaluator.py:73-76 | a candidate memory too short for a non-empty window that fits the reference memory makes the trial incorrect |
| `KernelTest.EmptyWindowPasses` | src/evaluator.py:73-76 | a zero-length window, or one starting past the end of both memories, compares two empty lists and always counts as correct |
| `Stages.Outcomes` | src/evaluator.py:119-126 | the trials produce one verdict each |
| `Stages.FirstFailure` | src/evaluator.py:119-129 | the index of the first trial that is not correct: every earlier trial passed and this one did not |
| `Stages.CycleCounts` | src/evaluator.py:118-129 | `cycles_list` holds each trial's cycle count, in trial order |
| `Stages.SeqMax` | src/evaluator.py:131 | `max` returns an element of the list that is at least every element |
| `Stages.Score` | src/evaluator.py:131-142 | an empty cycle list raises in `max` and an all-zero list raises in the division (both caught as exception records). With a positive count present, the record has correctness 1, its cycles are at least every count and equal to one of them, its speedup is the formula's, its combined score is 10 × the speedup, and it has no error |
| `Stages.StageOf` | src/evaluator.py:114-142 | the result of stage 2 or 3: a load failure gives its exception record, correctness is 0 or 1, every correctness-0 record carries the penalty's score 0, cycles 2 × BASELINE and speedup 0.5 plus an error, and every correctness-1 record has positive cycles and no error. Its first-failure, maximum and if-and-only-if properties are `StopsAtFirstFailure`, `AllCorrectReportsMaximum` and `CorrectnessIffAllPass` |
| `Stages.OutcomesPrefix` | src/evaluator.py:119-126 | running a prefix of the trials gives the same prefix of the verdicts |
| `Stages.OutcomesExtend` | src/evaluator.py:119-126 | running one more trial appends its verdict |
| `Stages.OutcomesAt` | src/evaluator.py:119-126 | the verdict at position k is the verdict of trial k |
| `Stages.DecidedByPrefix` | src/evaluator.py:119-128 | once the verdicts seen so far end in the first one that does not pass, that one is the first failure among all the trials' verdicts |
| `Stages.RunTrials` | src/evaluator.py:118-129 | the trial loop stops at the first trial that raises or is incorrect and returns its verdict; when every trial passes it returns no failure and `cycles_list` holds each trial's cycle count in order |
| `Stages.EvaluateTrials` | src/evaluator.py:112-142 | stages 2 and 3 after loading compute `StageOf` of the trials' verdicts: a load failure, the first raising trial or the first incorrect trial decides the result, and otherwise the maximum is scored |
| `Stages.EvaluateStage2` | src/evaluator.py:112-142 | stage 2 is the shared loop over 3 trials and never returns correctness 1 with zero cycles |
| `Stages.EvaluateStage3` | src/evaluator.py:145-179 | stage 3 is the shared loop over 8 trials and never returns correctness 1 with zero cycles |
| `Stages.EvaluateStage1` | src/evaluator.py:88-109 | stage 1 returns the pass record exactly when loading succeeded and its single trial is correct, the fail record on an incorrect trial, and the exception record on a load failure or a raised exception |
| `Stages.StopsAtFirstFailure` | src/evaluator.py:127-128 | the first trial that does not pass decides the stage, however many passed before it: a raised exception gives its exception record and an incorrect output the "Incorrect output values" record, both with score 0, correctness 0 and cycles 2 × BASELINE |
| `Stages.FailFast` | src/evaluator.py:127-128 | once verdict k is the first that does not pass, replacing every verdict after k leaves the stage result unchanged |
| `Stages.LaterTrialsIgnored` | src/evaluator.py:119-128 | once trial k is the first that does not pass, replacing, adding or removing trials after k leaves the stage result unchanged |
| `Stages.AllPassScoresCycles` | src/evaluator.py:118-139 | when every trial passes, the stage scores the full list of cycle counts |
| `Stages.AllCorrectReportsMaximum` | src/evaluator.py:118-139 | when all trials pass and one took cycles, the record has correctness 1, and its cycles are the maximum trial count (at least each count and equal to one of them). Its speedup and score follow the formula |
| `Stages.CorrectnessIffAllPass` | src/evaluator.py:112-142 | a stage reports correctness 1 if and only if loading succeeded, every trial passed and some trial took a positive number of cycles |
| `Stages.NeverCorrectWithZeroCycles` | src/evaluator.py:131-142 | a correct stage record always has positive cycles; all-correct trials with zero cycles give the division-by-zero exception record |
| `Stages.StageResultShape` | src/evaluator.py:112-142 | every stage result is the incorrect record, an exception record or a score record with positive cycles; correctness is 0 or 1, and the combined score is positive exactly when correctness is 1 |
| `Stages.FewerCyclesScoreHigher` | src/evaluator.py:132-135 | of two correct stage results, the one with fewer worst-case cycles has the strictly higher combined score |

## Left out

- Module loading (`_load_module_from_path`, `_get_frozen_problem_module`, src/evaluator.py:23-39) is Python interpreter plumbing. It is reduced to its outcome, `Loading`: loaded, or raised with a message.
- The reference module's generators (`Tree.generate`, `Input.generate`, `build_mem_image`), `Machine.run`, `reference_kernel2` and `N_CORES` are external. A trial is described by their results: the machine's memory and cycle counter, the reference kernel's yielded states and the number of input values. The problem sizes (height 5/10, rounds 4/16, batch 64/256) only feed these external generators and do not appear in the model.
- `random.seed(42)` and per-trial randomness are not modelled. The trials are a given sequence.
- The text of `str(e)` and of `traceback.format_exc()` is not modelled. An exception carries the message its raiser supplied, or a named kind (`IndexOutOfRange`, `DivisionByZero`, `EmptyMaximum`). The traceback is only present or absent.
- IEEE floating-point rounding of `speedup` and `combined_score` is not modelled. The model uses exact reals.
- A `machine.run()` or `reference_kernel2` that never finishes cannot be expressed: a trial is either finished (`Ran`) or raised (`Failed`). The evaluator has no timeout, so such a candidate would hang the stage (src/evaluator.py:63, 66).
- The model does not cover exceptions that are not subclasses of `Exception` (for example `KeyboardInterrupt`). It also does not cover a reference generator whose last yielded value is itself `None`.
- The cascade from stage 1 to stages 2 and 3 is driven by the external search library, not by this file, so it is not modelled. Each stage is an independent entry point here.
- The drivers `main.py`, `src/evolve.py` and `src/runner.py`, and the path and clock helpers in `src/paths.py` and `src/utils.py`, are not part of this model.
