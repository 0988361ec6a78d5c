/** The rotary knob widget: a value kept between `start` and `max`, mirrored
    into an optional bound variable, and moved by the mouse wheel one step
    at a time, a finer step while Ctrl is held. The drawing base class is
    not modelled; its `set` is taken to store the value. */
module Knob {

  /** Python's `max(start, min(hi, v))`. */
  function Clamp(v: real, start: real, hi: real): (r: real)
    ensures start <= hi ==> start <= r <= hi
    ensures start <= v <= hi ==> r == v
    ensures v >= hi && start <= hi ==> r == hi
    ensures v <= start ==> r == start
  {
    var m := if hi < v then hi else v;
    if start < m then m else start
  }

  /** Clamping twice is clamping once, and clamping keeps the order. */
  lemma ClampLaws(a: real, b: real, start: real, hi: real)
    ensures Clamp(Clamp(a, start, hi), start, hi) == Clamp(a, start, hi)
    ensures a <= b ==> Clamp(a, start, hi) <= Clamp(b, start, hi)
  {
  }

  /** What `scroll_command` receives: a bare integer delta, or a wheel event
      with its delta and its modifier-state bits. */
  datatype ScrollEvent = IntEvent(delta: int) | WheelEvent(delta: int, state: int)

  /** `state & 0x4` is non-zero: bit 2 of the two's-complement state, which
      is the floored quotient by 4 taken modulo 2 (Dafny's `/` and `%` with
      a positive divisor floor, as Python's do). */
  predicate CtrlBit(state: int) { (state / 4) % 2 == 1 }

  lemma CtrlBitSamples()
    ensures CtrlBit(4) && CtrlBit(5) && CtrlBit(12) && CtrlBit(-1)
    ensures !CtrlBit(0) && !CtrlBit(1) && !CtrlBit(8) && !CtrlBit(-5)
  {
  }

  /** Ctrl counts only for a wheel event; a bare integer never has it. */
  predicate CtrlPressed(e: ScrollEvent) {
    e.WheelEvent? && CtrlBit(e.state)
  }

  /** The step a scroll moves by: the precise step under Ctrl, the plain
      step otherwise. */
  function CurrentStep(e: ScrollEvent, steps: real, precise: real): (step: real)
    ensures CtrlPressed(e) ==> step == precise
    ensures !CtrlPressed(e) ==> step == steps
    ensures e.IntEvent? ==> step == steps
  {
    if CtrlPressed(e) then precise else steps
  }

  /** The value `scroll_command` asks `set` for: one step up for a positive
      delta, one step down otherwise. */
  function ScrollRequest(value: real, e: ScrollEvent, steps: real, precise: real): (v: real)
    ensures e.delta > 0 ==> v == value + CurrentStep(e, steps, precise)
    ensures e.delta <= 0 ==> v == value - CurrentStep(e, steps, precise)
  {
    var step := CurrentStep(e, steps, precise);
    value + (if e.delta > 0 then step else -step)
  }

  /** Whatever the sign of the steps, a scroll lands in [start, max]. */
  lemma ScrollLandsInRange(value: real, e: ScrollEvent, steps: real, precise: real, start: real, hi: real)
    requires start <= hi
    ensures start <= Clamp(ScrollRequest(value, e, steps, precise), start, hi) <= hi
  {
  }

  /** With non-negative steps: a scroll lands in range; at `max` scrolling
      up stays at `max`, at `start` scrolling down stays at `start`; and a
      scroll up never lowers an in-range value and a scroll down never
      raises it. */
  lemma ScrollStaysInRange(value: real, e: ScrollEvent, steps: real, precise: real, start: real, hi: real)
    requires start <= hi
    requires 0.0 <= steps && 0.0 <= precise
    ensures var r := Clamp(ScrollRequest(value, e, steps, precise), start, hi);
      start <= r <= hi &&
      (value == hi && e.delta > 0 ==> r == hi) &&
      (value == start && e.delta <= 0 ==> r == start) &&
      (start <= value <= hi && e.delta > 0 ==> r >= value) &&
      (start <= value <= hi && e.delta <= 0 ==> r <= value)
  {
  }

  /** With non-positive steps, as the threshold knob is configured, the
      wheel works the other way round: at `max` scrolling down stays at
      `max`, at `start` scrolling up stays at `start`, a scroll up never
      raises an in-range value and a scroll down never lowers it. */
  lemma ScrollReversedByNegativeSteps(value: real, e: ScrollEvent, steps: real, precise: real, start: real, hi: real)
    requires start <= hi
    requires steps <= 0.0 && precise <= 0.0
    ensures var r := Clamp(ScrollRequest(value, e, steps, precise), start, hi);
      (value == hi && e.delta <= 0 ==> r == hi) &&
      (value == start && e.delta > 0 ==> r == start) &&
      (start <= value <= hi && e.delta > 0 ==> r <= value) &&
      (start <= value <= hi && e.delta <= 0 ==> r >= value)
  {
  }

  /** With the threshold knob's steps (-0.010 and, under Ctrl, -0.001), a
      scroll up from `max` moves the value down by one plain step. */
  lemma ThresholdScrollUpFromMax(start: real, hi: real)
    requires start <= hi - 0.010
    ensures Clamp(ScrollRequest(hi, IntEvent(1), -0.010, -0.001), start, hi) == hi - 0.010
  {
  }

  /** The Tk variable a knob may be bound to. */
  class KnobVariable {
    var value: real

    constructor(v: real)
      ensures value == v
    {
      value := v;
    }
  }

  class ImageKnobEx {
    var value: real
    const start: real
    const max: real
    const scrollSteps: real
    const scrollStepsPrecise: real
    const variable: KnobVariable?

    /** The base constructor stores `initial`; a bound variable then pulls
        the knob to its own value, clamped, and receives that clamped
        value back. */
    constructor(initial: real, start: real, max: real, scrollSteps: real, scrollStepsPrecise: real, variable: KnobVariable?)
      modifies variable
      ensures this.start == start && this.max == max && this.variable == variable
      ensures this.scrollSteps == scrollSteps && this.scrollStepsPrecise == scrollStepsPrecise
      ensures variable == null ==> value == initial
      ensures variable != null ==> value == Clamp(old(variable.value), start, max) && variable.value == value
    {
      this.start := start;
      this.max := max;
      this.scrollSteps := scrollSteps;
      this.scrollStepsPrecise := scrollStepsPrecise;
      this.variable := variable;
      value := initial;
      new;
      if variable != null {
        Set(variable.value);
      }
    }

    /** `set`: the clamped value is stored and written to the bound
        variable. */
    method Set(v: real)
      modifies this, variable
      ensures value == Clamp(v, start, max)
      ensures variable != null ==> variable.value == value
    {
      var c := Clamp(v, start, max);
      if variable != null {
        variable.value := c;
      }
      value := c;
    }

    /** `scroll_command`: one step in the delta's direction, then `set`. */
    method ScrollCommand(e: ScrollEvent)
      modifies this, variable
      ensures value == Clamp(ScrollRequest(old(value), e, scrollSteps, scrollStepsPrecise), start, max)
      ensures variable != null ==> variable.value == value
    {
      var ctrl := CtrlPressed(e);
      var step := if ctrl then scrollStepsPrecise else scrollSteps;
      var delta := if e.delta > 0 then step else -step;
      Set(value + delta);
    }
  }
}
