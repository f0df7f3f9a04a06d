/**
 * The progress indicator shown while a prompt is being enhanced: a step
 * counter that an interval timer advances every 800 ms while enhancing,
 * stopping at the last of four steps, and that resets when enhancing ends.
 */
module EnhancementProgress {
  import opened Wrappers

  /** The labels of `STEPS`, in order. */
  const StepLabels: seq<string> := [
    "Parsing Prompt Input...",
    "Analyzing Project Context...",
    "Applying Best Practices...",
    "Final Polish & Formatting..."
  ]

  const LastStep: nat := |StepLabels| - 1

  /** The step shown after `ticks` interval callbacks: one per tick, then held at the last. */
  function StepAfter(ticks: nat): (step: nat)
    ensures step <= LastStep
    ensures step == LastStep <==> ticks >= LastStep
    ensures step < LastStep ==> step == ticks
  {
    if ticks < LastStep then ticks else LastStep
  }

  /** The progress-bar width in percent for a step. */
  function ProgressPercent(step: nat): (pct: nat)
    requires step <= LastStep
    ensures pct == 25 || pct == 50 || pct == 75 || pct == 100
    ensures pct == 100 <==> step == LastStep
  {
    (step + 1) * 100 / |StepLabels|
  }

  /** The bar never shrinks while the step count grows. */
  lemma ProgressMonotone(t1: nat, t2: nat)
    requires t1 <= t2
    ensures ProgressPercent(StepAfter(t1)) <= ProgressPercent(StepAfter(t2))
  {
  }

  class Progress {
    var isEnhancing: bool
    var currentStep: nat
    /** Interval callbacks since enhancing began. */
    ghost var ticks: nat

    /** The step is the one `ticks` callbacks lead to; when idle it is 0. */
    ghost predicate Valid()
      reads this
    {
      && currentStep == StepAfter(ticks)
      && (!isEnhancing ==> ticks == 0)
    }

    constructor ()
      ensures Valid() && !isEnhancing && currentStep == 0
    {
      isEnhancing, currentStep, ticks := false, 0, 0;
    }

    /** The prop changes and the effect runs: turning off resets the step, turning on starts the interval. */
    method SetEnhancing(b: bool)
      requires Valid()
      modifies this
      ensures Valid()
      ensures isEnhancing == b
      ensures !b ==> currentStep == 0
      ensures b ==> currentStep == old(currentStep) && ticks == old(ticks)
    {
      isEnhancing := b;
      if !b {
        currentStep, ticks := 0, 0;
      }
    }

    /** One interval callback; none fire while idle, since the cleanup cleared the interval. */
    method Tick()
      requires Valid() && isEnhancing
      modifies this`currentStep, this`ticks
      ensures Valid()
      ensures ticks == old(ticks) + 1
      ensures currentStep == if old(currentStep) < LastStep then old(currentStep) + 1 else old(currentStep)
    {
      if currentStep < LastStep {
        currentStep := currentStep + 1;
      }
      ticks := ticks + 1;
    }

    /** Nothing is rendered while idle; otherwise the current step's label. */
    function Label(): (r: Option<string>)
      requires Valid()
      reads this
      ensures r.None? <==> !isEnhancing
      ensures r.Some? ==> r.value == StepLabels[currentStep]
    {
      if isEnhancing then Some(StepLabels[currentStep]) else None
    }
  }
}
