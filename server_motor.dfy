/** The server's stepper motor (server/src/motor.rs): the `StepperMotor`
    trait with its two implementations, the Nema 17 driver and the mock,
    as one class tagged with the implementation it stands for. */
module ServerMotor {
  import opened Gpio

  /** DOUBLE_PHASE_STEPPING: two coils energised in every phase. */
  const DoublePhaseStepping: seq<Pattern> := [
    Pattern(High, Low, High, Low),
    Pattern(Low, High, High, Low),
    Pattern(Low, High, Low, High),
    Pattern(High, Low, Low, High)
  ]

  /** The patterns one `step(n)` call writes on the Nema driver, defined one
      write at a time: the write numbered k uses row k mod 4. */
  function StepTrace(n: nat): (t: seq<Pattern>)
    ensures |t| == n
    ensures forall k :: 0 <= k < n ==> t[k] == DoublePhaseStepping[k % 4]
  {
    if n == 0 then [] else StepTrace(n - 1) + [DoublePhaseStepping[(n - 1) % 4]]
  }

  datatype MotorKind = Nema | Mock

  class StepperMotor {
    const kind: MotorKind
    /** Every pattern written to the four pins so far, oldest first. */
    var trace: seq<Pattern>

    /** `NemaStepperMotor::new` (once the pins are acquired) or
        `MockStepperMotor {}`: nothing written yet. */
    constructor (kind: MotorKind)
      ensures this.kind == kind && trace == []
    {
      this.kind := kind;
      trace := [];
    }

    /** `step(steps)`: the Nema driver writes rows 0, 1, 2, 3, 0, ... of
        DOUBLE_PHASE_STEPPING, one per step, starting again at row 0 on
        every call; the mock writes nothing. */
    method Step(steps: nat)
      modifies this
      ensures kind == Nema ==> trace == old(trace) + StepTrace(steps)
      ensures kind == Mock ==> trace == old(trace)
    {
      if kind == Mock {
        return;
      }
      var step := 0;
      while step < steps
        invariant 0 <= step <= steps
        invariant trace == old(trace) + StepTrace(step)
      {
        var m := step % 4;
        trace := trace + [DoublePhaseStepping[m]];
        step := step + 1;
      }
    }

    /** `steps_per_rev`: 200 for the Nema 17, 0 for the mock. */
    function StepsPerRev(): (r: real)
      reads this
      ensures kind.Nema? ==> r == 200.0
      ensures kind.Mock? ==> r == 0.0
    {
      if kind == Nema then 200.0 else 0.0
    }

    function Name(): (s: string)
      reads this
      ensures kind == Nema ==> s == "Nema 17"
      ensures kind == Mock ==> s == "Mock Motor"
    {
      if kind == Nema then "Nema 17" else "Mock Motor"
    }
  }

  /** Every row energises exactly two coils. */
  lemma DoublePhaseTwoHigh(k: nat)
    requires k < 4
    ensures HighCount(DoublePhaseStepping[k]) == 2
  {
  }

  /** Cyclically consecutive rows differ in exactly two pins. */
  lemma DoublePhaseNeighbours(k: nat)
    requires k < 4
    ensures PinsChanged(DoublePhaseStepping[k], DoublePhaseStepping[(k + 1) % 4]) == 2
  {
  }

  /** `step(0)` writes nothing. */
  lemma StepZero()
    ensures StepTrace(0) == []
  {
  }

  /** No phase is carried from one call to the next: a run of n calls of
      `step(1)` writes row 0 n times, where one `step(n)` call cycles
      through the four rows. */
  lemma {:induction false} RepeatedSingleSteps(n: nat)
    ensures forall k :: 0 <= k < n ==> Repeat(StepTrace(1), n)[k] == DoublePhaseStepping[0]
  {
    assert StepTrace(1) == [DoublePhaseStepping[0]];
    RepeatAll(DoublePhaseStepping[0], n);
  }

  /** Two single steps and one double step write different traces. */
  lemma SingleStepsDiffer()
    ensures StepTrace(1) + StepTrace(1) != StepTrace(2)
  {
    assert (StepTrace(1) + StepTrace(1))[1] == DoublePhaseStepping[0];
    assert StepTrace(2)[1] == DoublePhaseStepping[1];
  }

  /** The concatenation of n copies of t. */
  function Repeat<T>(t: seq<T>, n: nat): (r: seq<T>)
    ensures |r| == n * |t|
  {
    if n == 0 then [] else Repeat(t, n - 1) + t
  }

  lemma {:induction false} RepeatAll<T>(x: T, n: nat)
    ensures forall k :: 0 <= k < n ==> Repeat([x], n)[k] == x
  {
    if n > 0 {
      RepeatAll(x, n - 1);
    }
  }
}
