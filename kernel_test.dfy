/** One trial: the candidate's kernel has run on the machine, the reference
    kernel's lazy sequence of memory states is drained for its last state,
    and the output window of both memories is compared word for word.

    The machine simulator, the problem generators and the reference kernel
    are external: a trial is described by what they produced. */
module KernelTest {
  import opened Results

  datatype Option<T> = None | Some(value: T)

  /** The reference memory word that holds the output pointer. */
  const OUTPUT_POINTER_SLOT: nat := 6

  /** What the external collaborators produced in one trial that ran to the end:
      the machine's memory and cycle counter after `run()`, every memory state
      the reference kernel yielded (in order), and `len(inp.values)`. */
  datatype Run = Run(
    machineMem: seq<int>,
    machineCycle: nat,
    referenceStates: seq<seq<int>>,
    valueCount: nat)

  /** A trial either ran, or raised inside the generators, the candidate's
      builder, the machine or the reference kernel. */
  datatype TrialEnv = Ran(run: Run) | Failed(text: string)

  /** The pair `(cycles, correct)` returned by a trial, or the exception
      that escaped it. */
  datatype TrialResult = Finished(cycles: nat, correct: bool) | Threw(exc: Exception)

  /** Python's normalisation of a slice bound against a sequence length:
      a negative bound counts from the end, and the result is clamped. */
  function SliceBound(i: int, len: nat): (b: nat)
    ensures b <= len
    ensures 0 <= i <= len ==> b == i
    ensures i > len ==> b == len
    ensures i < 0 && 0 <= i + len ==> b == i + len
    ensures i + len < 0 ==> b == 0
  {
    if i < 0 then (if i + len < 0 then 0 else i + len)
    else if i > len then len
    else i
  }

  /** Python's `s[i:j]` on a list (step 1). */
  function PySlice(s: seq<int>, i: int, j: int): (r: seq<int>)
    ensures |r| <= |s|
  {
    var lo, hi := SliceBound(i, |s|), SliceBound(j, |s|);
    if lo < hi then s[lo..hi] else []
  }

  /** Slicing with non-negative bounds: the ordinary subsequence when both
      bounds are in range, the tail when only the end overshoots, and the
      empty list when the start is at or past the end. */
  lemma PySliceNonNegative(s: seq<int>, i: int, j: int)
    requires 0 <= i && 0 <= j
    ensures i <= j <= |s| ==> PySlice(s, i, j) == s[i..j]
    ensures i <= |s| <= j ==> PySlice(s, i, j) == s[i..]
    ensures |s| <= i ==> PySlice(s, i, j) == []
    ensures j <= i ==> PySlice(s, i, j) == []
  {
  }

  /** The verdict of one trial: a collaborator's exception escapes, a
      reference kernel that yielded nothing gives `(0, False)`, a reference
      memory too short to hold the output pointer raises, and otherwise the
      machine's cycle counter is reported with the result of comparing the
      output windows `mem[p:p + n]` and `ref[p:p + n]`. */
  function Outcome(t: TrialEnv): (r: TrialResult)
    ensures t.Failed? ==> r == Threw(KernelFailure(t.text))
    ensures t.Ran? && t.run.referenceStates == [] ==> r == Finished(0, false)
    ensures t.Ran? && r.Threw? ==> r.exc == IndexOutOfRange && t.run.referenceStates != []
    ensures t.Ran? && t.run.referenceStates != [] && r.Finished? ==> r.cycles == t.run.machineCycle
  {
    match t
    case Failed(text) => Threw(KernelFailure(text))
    case Ran(run) =>
      if |run.referenceStates| == 0 then Finished(0, false)
      else
        var ref := run.referenceStates[|run.referenceStates| - 1];
        if |ref| <= OUTPUT_POINTER_SLOT then Threw(IndexOutOfRange)
        else
          var p := ref[OUTPUT_POINTER_SLOT];
          var n := run.valueCount;
          Finished(run.machineCycle, ListEq(PySlice(run.machineMem, p, p + n), PySlice(ref, p, p + n)))
  }

  /** Python's `==` on two lists of ints: equal lengths, then word by word. */
  predicate ListEq(a: seq<int>, b: seq<int>)
    decreases |a|
  {
    |a| == |b| && (|a| == 0 || (a[0] == b[0] && ListEq(a[1..], b[1..])))
  }

  /** Word-by-word list comparison is sequence equality. */
  lemma {:induction false} ListEqIsEquality(a: seq<int>, b: seq<int>)
    decreases |a|
    ensures ListEq(a, b) <==> a == b
  {
    if |a| == |b| && |a| > 0 {
      ListEqIsEquality(a[1..], b[1..]);
      if a[0] == b[0] && a[1..] == b[1..] {
        assert a == [a[0]] + a[1..] && b == [b[0]] + b[1..];
      }
    }
  }

  /** Drains the reference kernel's states, keeping only the last one
      (`None` when nothing was yielded). */
  method DrainReference(states: seq<seq<int>>) returns (last: Option<seq<int>>)
    ensures last.None? <==> |states| == 0
    ensures last.Some? ==> last.value == states[|states| - 1]
  {
    last := None;
    for i := 0 to |states|
      invariant last.None? <==> i == 0
      invariant last.Some? ==> last.value == states[i - 1]
    {
      last := Some(states[i]);
    }
  }

  /** Runs one trial and returns `(cycles, correct)`. */
  method RunKernelTest(t: TrialEnv) returns (r: TrialResult)
    ensures r == Outcome(t)
  {
    if t.Failed? {
      return Threw(KernelFailure(t.text));
    }
    var run := t.run;
    var refMem := DrainReference(run.referenceStates);
    if refMem.None? {
      return Finished(0, false);
    }
    var ref := refMem.value;
    if |ref| <= OUTPUT_POINTER_SLOT {
      return Threw(IndexOutOfRange);
    }
    var p := ref[OUTPUT_POINTER_SLOT];
    var actual := PySlice(run.machineMem, p, p + run.valueCount);
    var expected := PySlice(ref, p, p + run.valueCount);
    ListEqIsEquality(actual, expected);
    r := Finished(run.machineCycle, actual == expected);
  }

  /** The last state the reference kernel yielded (for a run that yielded one). */
  function LastReference(run: Run): (ref: seq<int>)
    requires run.referenceStates != []
  {
    run.referenceStates[|run.referenceStates| - 1]
  }

  /** Reading the output pointer raises exactly when the last reference
      memory has no word at index 6. */
  lemma ReferenceTooShortRaises(run: Run)
    requires run.referenceStates != []
    ensures Outcome(Ran(run)).Threw? <==> |LastReference(run)| <= OUTPUT_POINTER_SLOT
    ensures Outcome(Ran(run)).Threw? ==> Outcome(Ran(run)).exc == IndexOutOfRange
  {
  }

  /** For every reference memory long enough to hold the output pointer, the
      trial reports the machine's cycles and whether the two clamped windows
      are equal as sequences, whatever the pointer and the memory sizes. */
  lemma {:induction false} WindowVerdict(run: Run)
    requires run.referenceStates != []
    requires |LastReference(run)| > OUTPUT_POINTER_SLOT
    ensures Outcome(Ran(run)).Finished?
    ensures Outcome(Ran(run)).cycles == run.machineCycle
    ensures var ref := LastReference(run);
      var p, n := ref[OUTPUT_POINTER_SLOT], run.valueCount;
      Outcome(Ran(run)).correct <==> PySlice(run.machineMem, p, p + n) == PySlice(ref, p, p + n)
  {
    var ref := LastReference(run);
    var p, n := ref[OUTPUT_POINTER_SLOT], run.valueCount;
    ListEqIsEquality(PySlice(run.machineMem, p, p + n), PySlice(ref, p, p + n));
  }

  /** With nothing yielded by the reference kernel the trial is incorrect,
      whatever the machine's memory and cycle counter hold. */
  lemma NoReferenceStateFails(run: Run, mem: seq<int>, cycle: nat)
    requires run.referenceStates == []
    ensures Outcome(Ran(run)) == Finished(0, false)
    ensures Outcome(Ran(run)) == Outcome(Ran(run.(machineMem := mem, machineCycle := cycle)))
  {
  }

  /** When the output window lies inside both memories, the trial reports the
      machine's cycle counter, and it is correct exactly when every word of
      the window agrees. */
  lemma {:induction false} WindowComparison(run: Run)
    requires run.referenceStates != []
    requires |LastReference(run)| > OUTPUT_POINTER_SLOT
    requires 0 <= LastReference(run)[OUTPUT_POINTER_SLOT]
    requires LastReference(run)[OUTPUT_POINTER_SLOT] + run.valueCount <= |run.machineMem|
    requires LastReference(run)[OUTPUT_POINTER_SLOT] + run.valueCount <= |LastReference(run)|
    ensures Outcome(Ran(run)).Finished?
    ensures Outcome(Ran(run)).cycles == run.machineCycle
    ensures var p := LastReference(run)[OUTPUT_POINTER_SLOT];
      Outcome(Ran(run)).correct <==>
      forall k :: p <= k < p + run.valueCount ==> run.machineMem[k] == LastReference(run)[k]
  {
    var ref := LastReference(run);
    var p, n := ref[OUTPUT_POINTER_SLOT], run.valueCount;
    PySliceNonNegative(run.machineMem, p, p + n);
    PySliceNonNegative(ref, p, p + n);
    ListEqIsEquality(PySlice(run.machineMem, p, p + n), PySlice(ref, p, p + n));
    WindowsEqual(run.machineMem, ref, p, n);
  }

  /** Two windows of the same position and width are equal exactly when
      they agree at every position. */
  lemma {:induction false} WindowsEqual(a: seq<int>, b: seq<int>, p: nat, n: nat)
    requires p + n <= |a| && p + n <= |b|
    ensures a[p..p + n] == b[p..p + n] <==> forall k :: p <= k < p + n ==> a[k] == b[k]
  {
    var x, y := a[p..p + n], b[p..p + n];
    if forall k :: p <= k < p + n ==> a[k] == b[k] {
      forall i | 0 <= i < n ensures x[i] == y[i] {
        assert x[i] == a[p + i];
      }
    } else {
      var k :| p <= k < p + n && a[k] != b[k];
      assert x[k - p] != y[k - p];
    }
  }

  /** A candidate memory too short to hold the window fails the comparison,
      even though Python's slicing silently clamps it instead of raising. */
  lemma {:induction false} ShortMachineMemoryFails(run: Run)
    requires run.referenceStates != []
    requires |LastReference(run)| > OUTPUT_POINTER_SLOT
    requires 0 <= LastReference(run)[OUTPUT_POINTER_SLOT]
    requires LastReference(run)[OUTPUT_POINTER_SLOT] + run.valueCount <= |LastReference(run)|
    requires |run.machineMem| < LastReference(run)[OUTPUT_POINTER_SLOT] + run.valueCount
    requires run.valueCount > 0
    ensures Outcome(Ran(run)) == Finished(run.machineCycle, false)
  {
    var ref := LastReference(run);
    var p, n := ref[OUTPUT_POINTER_SLOT], run.valueCount;
    var actual, expected := PySlice(run.machineMem, p, p + n), PySlice(ref, p, p + n);
    PySliceNonNegative(run.machineMem, p, p + n);
    PySliceNonNegative(ref, p, p + n);
    assert |expected| == n;
    assert |actual| < n;
  }

  /** A window of zero words, or one that starts past the end of both
      memories, is compared as two empty lists: such a trial is always correct. */
  lemma {:induction false} EmptyWindowPasses(run: Run)
    requires run.referenceStates != []
    requires |LastReference(run)| > OUTPUT_POINTER_SLOT
    requires var p := LastReference(run)[OUTPUT_POINTER_SLOT];
      run.valueCount == 0 || (p >= |LastReference(run)| && p >= |run.machineMem|)
    ensures Outcome(Ran(run)) == Finished(run.machineCycle, true)
  {
    var ref := LastReference(run);
    var p, n := ref[OUTPUT_POINTER_SLOT], run.valueCount;
    if p >= 0 {
      PySliceNonNegative(run.machineMem, p, p + n);
      PySliceNonNegative(ref, p, p + n);
    }
    assert PySlice(run.machineMem, p, p + n) == [];
    assert PySlice(ref, p, p + n) == [];
  }
}
