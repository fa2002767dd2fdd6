/** The step wizard shared by the three questionnaires: a step index moved by
    the Next ("Continuer"/"Soumettre") and Back ("Retour") buttons. */
module Wizard {

  /** The step `handleNext` moves to: one further, or (on the last step, where
      it submits instead) the same one. */
  function AfterNext(step: int, totalSteps: int): (next: int)
    ensures next == step <==> SubmitsOnNext(step, totalSteps)
    ensures next == step || next == step + 1
    ensures 0 <= step < totalSteps ==> 0 <= next < totalSteps
  {
    if step < totalSteps - 1 then step + 1 else step
  }

  /** True when `handleNext` submits rather than advances. */
  predicate SubmitsOnNext(step: int, totalSteps: int) {
    !(step < totalSteps - 1)
  }

  /** The step `handlePrev` moves to, with a floor at 0. */
  function AfterPrev(step: int): (prev: int)
    ensures prev == step <==> step <= 0
    ensures prev == step || prev == step - 1
    ensures 0 <= step ==> 0 <= prev
  {
    if step > 0 then step - 1 else step
  }

  datatype Press = NextPress | BackPress

  /** The step reached from `step` after pressing the buttons `presses` in order. */
  function Run(step: int, totalSteps: int, presses: seq<Press>): int
    decreases |presses|
  {
    if presses == [] then step
    else
      var s := if presses[0] == NextPress then AfterNext(step, totalSteps) else AfterPrev(step);
      Run(s, totalSteps, presses[1..])
  }

  /** Starting in range, any sequence of Next and Back presses stays in range. */
  lemma {:induction false} RunStaysInRange(step: int, totalSteps: int, presses: seq<Press>)
    requires 0 <= step < totalSteps
    ensures 0 <= Run(step, totalSteps, presses) < totalSteps
    decreases |presses|
  {
    if presses != [] {
      var s := if presses[0] == NextPress then AfterNext(step, totalSteps) else AfterPrev(step);
      RunStaysInRange(s, totalSteps, presses[1..]);
    }
  }

  /** Back then Next, from any step but the first, returns to the same step. */
  lemma BackThenNext(step: int, totalSteps: int)
    requires 0 < step < totalSteps
    ensures AfterNext(AfterPrev(step), totalSteps) == step
    ensures !SubmitsOnNext(AfterPrev(step), totalSteps)
  {
  }

  /** The wizard dialog. Its `currentStep` is the host form's state, which the
      wizard moves through `setCurrentStep`; `totalSteps` is its number of children. */
  class FormWizard {
    const totalSteps: nat
    var currentStep: nat

    ghost predicate Valid()
      reads this
    {
      currentStep < totalSteps
    }

    constructor (totalSteps: nat)
      requires totalSteps > 0
      ensures Valid()
      ensures this.totalSteps == totalSteps && currentStep == 0
    {
      this.totalSteps := totalSteps;
      currentStep := 0;
    }

    /** The "Étape k/n" header: the 1-based step number and the step count. */
    function StepLabel(): (header: (nat, nat))
      requires Valid()
      reads this
      ensures 1 <= header.0 <= header.1 && header.1 == totalSteps
      ensures header.0 - 1 == currentStep
    {
      (currentStep + 1, totalSteps)
    }

    /** The primary button's caption; it reads "Soumettre" exactly when pressing
        it submits. */
    function PrimaryLabel(): (caption: string)
      requires Valid()
      reads this
      ensures caption == "Soumettre" <==> SubmitsOnNext(currentStep, totalSteps)
      ensures caption != "Soumettre" ==> caption == "Continuer"
    {
      if currentStep == totalSteps - 1 then "Soumettre" else "Continuer"
    }

    /** The Back button is disabled on the first step, where it would do nothing. */
    function BackDisabled(): (disabled: bool)
      reads this
      ensures disabled <==> AfterPrev(currentStep) == currentStep
    {
      currentStep == 0
    }

    /** `handleNext`: advance, or report that the host must submit. It does not
        itself look at `canProceed`. */
    method HandleNext() returns (submit: bool)
      requires Valid()
      modifies this
      ensures Valid()
      ensures submit == SubmitsOnNext(old(currentStep), totalSteps)
      ensures currentStep == AfterNext(old(currentStep), totalSteps)
    {
      if currentStep < totalSteps - 1 {
        currentStep := currentStep + 1;
        submit := false;
      } else {
        submit := true;
      }
    }

    /** A click on Next: the button is disabled when `canProceed` is false, so
        the click then does nothing. */
    method ClickNext(canProceed: bool) returns (submit: bool)
      requires Valid()
      modifies this
      ensures Valid()
      ensures !canProceed ==> !submit && currentStep == old(currentStep)
      ensures canProceed ==> submit == SubmitsOnNext(old(currentStep), totalSteps)
      ensures canProceed ==> currentStep == AfterNext(old(currentStep), totalSteps)
    {
      submit := false;
      if canProceed {
        submit := HandleNext();
      }
    }

    /** `handlePrev`: one step back, never below 0. */
    method HandlePrev()
      requires Valid()
      modifies this
      ensures Valid()
      ensures currentStep == AfterPrev(old(currentStep))
    {
      if currentStep > 0 {
        currentStep := currentStep - 1;
      }
    }

    /** The host's `setCurrentStep`. */
    method SetCurrentStep(step: nat)
      requires step < totalSteps
      modifies this
      ensures Valid() && currentStep == step
    {
      currentStep := step;
    }
  }
}
