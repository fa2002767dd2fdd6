/** The engine the energy, solar and telecom forms share: a field store and a
    wizard, configured by the fields each step shows, the fields each step
    requires, the record a submission writes and how it is written. */
module Questionnaires {
  import opened Leads
  import opened Wizard

  /** One questionnaire type: the initial `formData`, for each step the fields
      its inputs edit and the fields `validateStep` requires, the write policy,
      and the mapping from `formData` and the current time to the row. */
  datatype Config = Config(
    initial: FieldStore,
    inputs: seq<set<string>>,
    required: seq<set<string>>,
    policy: WritePolicy,
    buildRow: (FieldStore, string) -> QuoteRow)

  ghost predicate WellFormed(c: Config) {
    && |c.inputs| > 0
    && |c.required| == |c.inputs|
    && (forall i :: 0 <= i < |c.inputs| ==> c.required[i] <= c.inputs[i] <= c.initial.Keys)
    && (forall i, j :: 0 <= i < j < |c.inputs| ==> c.inputs[i] !! c.inputs[j])
    && (forall f :: f in c.initial ==> !Filled(c.initial[f]))
  }

  /** `d` has the fields of `e`, each holding the same kind of value. */
  ghost predicate SameShape(d: FieldStore, e: FieldStore) {
    d.Keys == e.Keys && forall f :: f in d ==> d[f].Text? == e[f].Text?
  }

  /** Step `step` is complete: every field it requires is filled. Any index
      outside the steps is incomplete. */
  predicate StepComplete(required: seq<set<string>>, d: FieldStore, step: int) {
    0 <= step < |required| && forall f :: f in required[step] ==> Answered(d, f)
  }

  /** Every step before `step` is complete. */
  ghost predicate CompleteBefore(required: seq<set<string>>, d: FieldStore, step: int) {
    forall i :: 0 <= i < step ==> StepComplete(required, d, i)
  }

  /** Editing a field that step `step` does not show leaves that step's
      completeness as it was. */
  lemma EditElsewhereKeepsStep(c: Config, d: FieldStore, f: string, v: Value, step: int)
    requires WellFormed(c)
    requires 0 <= step < |c.inputs| && f !in c.inputs[step]
    ensures StepComplete(c.required, d[f := v], step) == StepComplete(c.required, d, step)
  {
    assert forall g :: g in c.required[step] ==> g != f;
  }

  /** What a press on Next did. */
  datatype NextResult = Blocked | Advanced | Submitted | SubmitFailed

  /** A mounted questionnaire form: its `formData` and the wizard holding its
      `currentStep`. */
  class Questionnaire {
    const config: Config
    const wizard: FormWizard
    var formData: FieldStore

    /** The state invariant. The last conjunct holds because a step's fields can
        only be edited while that step is shown, and Next leaves a step only
        when it is complete. */
    ghost predicate Valid()
      reads this, wizard
    {
      && WellFormed(config)
      && wizard.Valid()
      && wizard.totalSteps == |config.inputs|
      && SameShape(formData, config.initial)
      && CompleteBefore(config.required, formData, wizard.currentStep)
    }

    constructor (config: Config)
      requires WellFormed(config)
      ensures Valid() && fresh(wizard)
      ensures this.config == config
      ensures wizard.currentStep == 0 && formData == config.initial
    {
      this.config := config;
      wizard := new FormWizard(|config.inputs|);
      formData := config.initial;
    }

    /** The `canProceed` flag handed to the wizard: every field the current step
        requires is filled. Proceeding then leaves every step up to the current
        one complete, and proceeding from the last step means the whole
        questionnaire is complete. */
    function CanProceed(): (can: bool)
      requires Valid()
      reads this, wizard
      ensures can <==> forall f :: f in config.required[wizard.currentStep] ==> Answered(formData, f)
      ensures can ==> CompleteBefore(config.required, formData, wizard.currentStep + 1)
      ensures can && SubmitsOnNext(wizard.currentStep, wizard.totalSteps) ==>
        forall i :: 0 <= i < |config.required| ==> StepComplete(config.required, formData, i)
    {
      StepComplete(config.required, formData, wizard.currentStep)
    }

    /** `updateField(f, v)`, fired by an input of the step on screen. */
    method UpdateField(f: string, v: Value)
      requires Valid()
      requires f in config.inputs[wizard.currentStep]
      requires v.Text? == config.initial[f].Text?
      modifies this
      ensures Valid()
      ensures formData == old(formData)[f := v]
    {
      forall i {:trigger StepComplete(config.required, formData[f := v], i)} | 0 <= i < wizard.currentStep
        ensures StepComplete(config.required, formData[f := v], i)
      {
        EditElsewhereKeepsStep(config, formData, f, v, i);
      }
      formData := formData[f := v];
    }

    /** `handleSubmit`: write the row built from `formData`; the store's reply is
        `outcome`. On success the host's `onSuccess` and `onClose` run (see the
        App) and the form goes back to step 0 with every field empty; on error
        only an alert is raised. */
    method HandleSubmit(outcome: WriteOutcome, now: string, table: seq<QuoteRow>)
      returns (ok: bool, table': seq<QuoteRow>)
      requires Valid()
      modifies this, wizard
      ensures Valid()
      ensures ok <==> outcome.Ok?
      ensures ok ==> table' == Write(table, config.policy, config.buildRow(old(formData), now))
      ensures ok ==> wizard.currentStep == 0 && formData == config.initial
      ensures !ok ==> table' == table
      ensures !ok ==> wizard.currentStep == old(wizard.currentStep) && formData == old(formData)
    {
      var row := config.buildRow(formData, now);
      if outcome.Ok? {
        table' := Write(table, config.policy, row);
        wizard.SetCurrentStep(0);
        formData := config.initial;
        ok := true;
      } else {
        table' := table;
        ok := false;
      }
    }

    /** A click on Next: nothing while the current step is incomplete, a step
        forward before the last step, a submission on the last one. A submitted
        row always comes from a `formData` in which every step is complete. */
    method ClickNext(outcome: WriteOutcome, now: string, table: seq<QuoteRow>)
      returns (result: NextResult, table': seq<QuoteRow>)
      requires Valid()
      modifies this, wizard
      ensures Valid()
      ensures result == Blocked <==> !old(CanProceed())
      ensures result == Advanced <==>
        old(CanProceed()) && !SubmitsOnNext(old(wizard.currentStep), wizard.totalSteps)
      ensures result == Submitted <==>
        old(CanProceed()) && SubmitsOnNext(old(wizard.currentStep), wizard.totalSteps) && outcome.Ok?
      ensures result != Submitted ==> table' == table && formData == old(formData)
      ensures result == Advanced ==> wizard.currentStep == old(wizard.currentStep) + 1
      ensures result == Blocked || result == SubmitFailed ==> wizard.currentStep == old(wizard.currentStep)
      ensures result == Submitted ==>
        && (forall i :: 0 <= i < |config.required| ==> StepComplete(config.required, old(formData), i))
        && table' == Write(table, config.policy, config.buildRow(old(formData), now))
        && wizard.currentStep == 0 && formData == config.initial
    {
      var canProceed := CanProceed();
      ghost var step := wizard.currentStep;
      var submit := wizard.ClickNext(canProceed);
      if !canProceed {
        result, table' := Blocked, table;
      } else if !submit {
        result, table' := Advanced, table;
      } else {
        assert step == |config.required| - 1;
        assert forall i :: 0 <= i < |config.required| ==> StepComplete(config.required, formData, i);
        var ok;
        ok, table' := HandleSubmit(outcome, now, table);
        result := if ok then Submitted else SubmitFailed;
      }
    }

    /** A click on Back (disabled on step 0, where `handlePrev` does nothing anyway). */
    method ClickBack()
      requires Valid()
      modifies wizard
      ensures Valid()
      ensures wizard.currentStep == AfterPrev(old(wizard.currentStep))
    {
      wizard.HandlePrev();
    }
  }

  /** Back then Next, from any step but the first, comes back to the same step
      with the answers untouched: the step left by Back is complete, since the
      form only moves past complete steps. */
  method BackThenNextReturns(form: Questionnaire, outcome: WriteOutcome, now: string, table: seq<QuoteRow>)
    returns (result: NextResult, table': seq<QuoteRow>)
    requires form.Valid() && form.wizard.currentStep > 0
    modifies form, form.wizard
    ensures form.Valid()
    ensures result == Advanced && table' == table
    ensures form.wizard.currentStep == old(form.wizard.currentStep) && form.formData == old(form.formData)
  {
    form.ClickBack();
    result, table' := form.ClickNext(outcome, now, table);
  }
}
