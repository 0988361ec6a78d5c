/** The older knob, which has no clamping `set` of its own: its
    `scroll_command` picks the next value by comparing the current one with
    the bounds and hands it to the base `set`, taken here to store it. */
module LegacyKnob {
  import opened Knob

  /** The value the older `scroll_command` passes to `set`. */
  function LegacyScrollRequest(value: real, e: ScrollEvent, steps: real, precise: real, start: real, hi: real): (v: real)
    ensures var step := CurrentStep(e, steps, precise);
      (e.delta > 0 && value < hi ==> v == value + step) &&
      (e.delta > 0 && value == hi ==> v == hi) &&
      (e.delta > 0 && value > hi ==> v == value - step) &&
      (e.delta <= 0 && value > start ==> v == value - step) &&
      (e.delta <= 0 && value == start ==> v == start) &&
      (e.delta <= 0 && value < start ==> v == value + step)
  {
    var step := CurrentStep(e, steps, precise);
    if e.delta > 0 then
      if value < hi then value + step
      else if value == hi then hi
      else value - step
    else
      if value > start then value - step
      else if value == start then start
      else value + step
  }

  /** Away from the bounds the older rule and the clamped rule agree: a step
      that stays within [start, max] lands in the same place. */
  lemma LegacyAgreesInRange(value: real, e: ScrollEvent, steps: real, precise: real, start: real, hi: real)
    requires start <= value <= hi
    requires var r := ScrollRequest(value, e, steps, precise); start <= r <= hi
    requires e.delta > 0 ==> value < hi
    requires e.delta <= 0 ==> value > start
    ensures LegacyScrollRequest(value, e, steps, precise, start, hi) ==
            Clamp(ScrollRequest(value, e, steps, precise), start, hi)
  {
  }

  /** The older rule overshoots: just below `max`, a scroll up by a step
      larger than the gap lands above `max`. */
  lemma LegacyOvershootsMax(e: ScrollEvent, start: real, hi: real)
    requires e.IntEvent? && e.delta > 0 && start <= hi
    ensures LegacyScrollRequest(hi - 0.0005, e, 0.001, 0.001, start, hi) > hi
    ensures Clamp(ScrollRequest(hi - 0.0005, e, 0.001, 0.001), start, hi) == hi
  {
  }

  class LegacyImageKnobEx {
    var value: real
    const start: real
    const max: real
    const scrollSteps: real
    const scrollStepsPrecise: real

    constructor(initial: real, start: real, max: real, scrollSteps: real, scrollStepsPrecise: real)
      ensures value == initial && this.start == start && this.max == max
      ensures this.scrollSteps == scrollSteps && this.scrollStepsPrecise == scrollStepsPrecise
    {
      value := initial;
      this.start := start;
      this.max := max;
      this.scrollSteps := scrollSteps;
      this.scrollStepsPrecise := scrollStepsPrecise;
    }

    /** The base `set`, taken to store the value as given. */
    method Set(v: real)
      modifies this
      ensures value == v
    {
      value := v;
    }

    /** `scroll_command` with its boundary branches. */
    method ScrollCommand(e: ScrollEvent)
      modifies this
      ensures value == LegacyScrollRequest(old(value), e, scrollSteps, scrollStepsPrecise, start, max)
    {
      var ctrl := CtrlPressed(e);
      var step := if ctrl then scrollStepsPrecise else scrollSteps;
      if e.delta > 0 {
        if value < max {
          Set(value + step);
        } else if value == max {
          Set(max);
        } else {
          Set(value - step);
        }
      } else {
        if value > start {
          Set(value - step);
        } else if value == start {
          Set(start);
        } else {
          Set(value + step);
        }
      }
    }
  }
}
