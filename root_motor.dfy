/** The stepper driver of the original single-binary scanner
    (src/motor.rs): every step plays the whole four-row STEP_SEQUENCE. */
module RootMotor {
  import opened Gpio

  const StepSequence: seq<Pattern> := [
    Pattern(High, Low, Low, High),
    Pattern(High, High, Low, Low),
    Pattern(Low, High, High, Low),
    Pattern(Low, Low, High, High)
  ]

  /** The patterns `step(n)` writes: the four rows, in order, n times. */
  function FullTrace(n: nat): seq<Pattern> {
    if n == 0 then [] else FullTrace(n - 1) + StepSequence
  }

  class StepperMotor {
    /** Every pattern written to the four pins so far, oldest first. */
    var trace: seq<Pattern>

    constructor ()
      ensures trace == []
    {
      trace := [];
    }

    method Step(steps: nat)
      modifies this
      ensures trace == old(trace) + FullTrace(steps)
    {
      var i := 0;
      while i < steps
        invariant 0 <= i <= steps
        invariant trace == old(trace) + FullTrace(i)
      {
        var j := 0;
        while j < |StepSequence|
          invariant 0 <= j <= |StepSequence|
          invariant trace == old(trace) + FullTrace(i) + StepSequence[..j]
        {
          trace := trace + [StepSequence[j]];
          j := j + 1;
        }
        i := i + 1;
      }
    }
  }

  /** `step(n)` writes 4n patterns, the i-th being row i mod 4. */
  lemma {:induction false} FullTraceRows(n: nat)
    ensures |FullTrace(n)| == 4 * n
    ensures forall i :: 0 <= i < 4 * n ==> FullTrace(n)[i] == StepSequence[i % 4]
  {
    if n > 0 {
      FullTraceRows(n - 1);
      var t := FullTrace(n);
      forall i | 0 <= i < 4 * n
        ensures t[i] == StepSequence[i % 4]
      {
        if i >= 4 * (n - 1) {
          assert i % 4 == i - 4 * (n - 1);
        }
      }
    }
  }

  /** For n > 0 the trace ends on the last row. */
  lemma EndsOnLastRow(n: nat)
    requires n > 0
    ensures FullTrace(n)[|FullTrace(n)| - 1] == StepSequence[3]
  {
  }

  /** `step(0)` writes nothing. */
  lemma StepZero()
    ensures FullTrace(0) == []
  {
  }

  /** Every row energises exactly two coils. */
  lemma StepSequenceTwoHigh(k: nat)
    requires k < 4
    ensures HighCount(StepSequence[k]) == 2
  {
  }

  /** Cyclically consecutive rows differ in exactly two pins. */
  lemma StepSequenceNeighbours(k: nat)
    requires k < 4
    ensures PinsChanged(StepSequence[k], StepSequence[(k + 1) % 4]) == 2
  {
  }
}
