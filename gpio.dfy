/** The output side of a GPIO header as the stepper drivers use it: four
    pins, each driven Low or High. Pin writes are not performed; a motor
    records the patterns it writes, in order, in an append-only trace. */
module Gpio {

  datatype Level = Low | High

  /** The levels written to pin1..pin4 in one step of a phase sequence. */
  datatype Pattern = Pattern(pin1: Level, pin2: Level, pin3: Level, pin4: Level)

  function HighOf(l: Level): nat {
    if l == High then 1 else 0
  }

  /** How many of the four pins a pattern drives High. */
  function HighCount(p: Pattern): (n: nat)
    ensures n <= 4
  {
    HighOf(p.pin1) + HighOf(p.pin2) + HighOf(p.pin3) + HighOf(p.pin4)
  }

  function DiffOf(a: Level, b: Level): nat {
    if a == b then 0 else 1
  }

  /** How many pins change level between two patterns. */
  function PinsChanged(p: Pattern, q: Pattern): (n: nat)
    ensures n <= 4
    ensures n == 0 <==> p == q
  {
    DiffOf(p.pin1, q.pin1) + DiffOf(p.pin2, q.pin2) + DiffOf(p.pin3, q.pin3) + DiffOf(p.pin4, q.pin4)
  }
}
