/** The first-run tour: five steps walked with Next and Previous, left with
    Skip or with Next on the last step. */
module Onboarding {
  /** The ids of the tour's steps, in order. */
  const Steps: seq<string> := ["welcome", "upload", "configure", "generate", "export"]

  /** The index of the last step. */
  const Last: nat := |Steps| - 1

  /** Where Next leads from `step`, and whether it asks to close the tour
      instead (on the last step, which it does not leave). */
  function NextStep(step: nat): (r: (nat, bool))
    ensures step < Last ==> r == (step + 1, false)
    ensures step >= Last ==> r == (step, true)
  {
    if step < Last then (step + 1, false) else (step, true)
  }

  /** Where Previous leads from `step`: one back, never below the first. */
  function PreviousStep(step: nat): (r: nat)
    ensures step > 0 ==> r + 1 == step
    ensures step == 0 ==> r == 0
  {
    if step > 0 then step - 1 else step
  }

  /** Previous undoes a Next that moved, and Next undoes a Previous that
      moved. */
  lemma NextPreviousRoundTrip(step: nat)
    ensures step < Last ==> PreviousStep(NextStep(step).0) == step
    ensures 0 < step <= Last ==> NextStep(PreviousStep(step)).0 == step
  {
  }

  /** Pressing Next `n` times from `step`: where it ends and how many of the
      presses asked to close the tour. */
  function PressNext(step: nat, n: nat): (nat, nat)
    decreases n
  {
    if n == 0 then (step, 0)
    else
      var (s, close) := NextStep(step);
      var (t, closes) := PressNext(s, n - 1);
      (t, closes + if close then 1 else 0)
  }

  /** From any step up to the last, `n` presses of Next end on step
      `min(step + n, 4)`, and the tour is asked to close once for every press
      beyond the last step. */
  lemma {:induction false} PressNextSteps(step: nat, n: nat)
    requires step <= Last
    ensures PressNext(step, n).0 == (if step + n <= Last then step + n else Last)
    ensures PressNext(step, n).1 == (if step + n <= Last then 0 else step + n - Last)
    decreases n
  {
    if n > 0 {
      PressNextSteps(NextStep(step).0, n - 1);
    }
  }

  /** The tour's state: the step on show. It is kept while the tour is
      closed, so reopening it resumes where it was left. */
  class Tour {
    var step: nat

    predicate Valid()
      reads this
    {
      step <= Last
    }

    constructor()
      ensures Valid() && step == 0
    {
      step := 0;
    }

    /** The id of the step on show. */
    function Current(): (id: string)
      reads this
      requires Valid()
      ensures id in Steps && id == Steps[step]
    {
      Steps[step]
    }

    /** `handleNext`: advances, or on the last step asks to close. */
    method Next() returns (close: bool)
      requires Valid()
      modifies this
      ensures Valid()
      ensures (step, close) == NextStep(old(step))
    {
      if step < Last {
        step := step + 1;
        close := false;
      } else {
        close := true;
      }
    }

    /** `handlePrevious`: goes back one step unless on the first. */
    method Previous()
      requires Valid()
      modifies this
      ensures Valid()
      ensures step == PreviousStep(old(step))
    {
      if step > 0 {
        step := step - 1;
      }
    }

    /** `handleSkip`: asks to close and leaves the step alone. */
    method Skip() returns (close: bool)
      ensures close
    {
      close := true;
    }

    /** The Previous button is enabled exactly off the first step. */
    function PreviousEnabled(): (enabled: bool)
      reads this
      ensures enabled <==> step != 0
      ensures enabled ==> PreviousStep(step) < step
    {
      step != 0
    }

    /** The main button's caption: "Get Started" exactly on the last step,
        where it closes the tour. */
    function NextCaption(): (caption: string)
      reads this
      ensures caption == "Get Started" <==> step == Last
      ensures caption == "Get Started" ==> NextStep(step).1
      ensures caption == "Next" <==> step != Last
    {
      if step == Last then "Get Started" else "Next"
    }
  }
}
