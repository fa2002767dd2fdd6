/** The home page's dialog state: which questionnaire is open and whether the
    success screen shows. All three questionnaires stay mounted; `isOpen` only
    decides which one is drawn. */
module Site {
  import opened Leads
  import opened Questionnaires
  import Energie
  import Solaire
  import Telecom

  /** The values `activeForm` takes besides null. */
  datatype Service = EnergieService | SolaireService | TelecomService

  class App {
    const energie: Questionnaire
    const solaire: Questionnaire
    const telecom: Questionnaire
    var activeForm: Option<Service>
    var showSuccess: bool

    /** The questionnaire mounted for service `s`. */
    function Form(s: Service): Questionnaire {
      match s
      case EnergieService => energie
      case SolaireService => solaire
      case TelecomService => telecom
    }

    /** Every object the page's state lives in. */
    function Repr(): set<object> {
      {energie, solaire, telecom, energie.wizard, solaire.wizard, telecom.wizard}
    }

    ghost predicate Valid()
      reads this, Repr()
    {
      && energie != solaire && solaire != telecom && energie != telecom
      && energie.wizard != solaire.wizard && solaire.wizard != telecom.wizard
      && energie.wizard != telecom.wizard
      && energie.Valid() && solaire.Valid() && telecom.Valid()
    }

    /** A form's step and answers, which close and reopen leave alone. */
    ghost function Snapshot(s: Service): (nat, FieldStore)
      reads Repr()
    {
      (Form(s).wizard.currentStep, Form(s).formData)
    }

    /** The page's state around three mounted questionnaires: no dialog open,
        no success screen. */
    constructor (e: Questionnaire, so: Questionnaire, t: Questionnaire)
      requires e != so && so != t && e != t
      requires e.wizard != so.wizard && so.wizard != t.wizard && e.wizard != t.wizard
      requires e.Valid() && so.Valid() && t.Valid()
      ensures Valid()
      ensures energie == e && solaire == so && telecom == t
      ensures activeForm == None && !showSuccess
    {
      energie, solaire, telecom := e, so, t;
      activeForm := None;
      showSuccess := false;
    }

    /** The form for `s` is drawn exactly when it is the active one, so at most
        one is drawn at a time. */
    predicate IsOpen(s: Service)
      reads this
    {
      activeForm == Some(s)
    }

    /** `handleServiceClick`. */
    method HandleServiceClick(s: Service)
      modifies this
      ensures activeForm == Some(s) && showSuccess == old(showSuccess)
    {
      activeForm := Some(s);
    }

    /** `handleFormClose`, the forms' `onClose` (the wizard's X button and the
        second callback after a successful submission). Nothing in the forms changes. */
    method HandleFormClose()
      modifies this
      ensures activeForm == None && showSuccess == old(showSuccess)
    {
      activeForm := None;
    }

    /** `handleFormSuccess`, the forms' `onSuccess`. */
    method HandleFormSuccess()
      modifies this
      ensures showSuccess && activeForm == old(activeForm)
    {
      showSuccess := true;
    }

    /** The success screen's `onClose`. */
    method CloseSuccessScreen()
      modifies this
      ensures !showSuccess && activeForm == old(activeForm)
    {
      showSuccess := false;
    }

    /** A press on Next in the open questionnaire; after a successful submission
        `onSuccess` then `onClose` run. The other forms do not change. */
    method PressNext(outcome: WriteOutcome, now: string, table: seq<QuoteRow>)
      returns (result: NextResult, table': seq<QuoteRow>)
      requires Valid()
      modifies this, Repr()
      ensures Valid()
      ensures old(activeForm).None? ==>
        result == Blocked && table' == table && activeForm == None && showSuccess == old(showSuccess)
      ensures forall s :: old(activeForm) != Some(s) ==> Snapshot(s) == old(Snapshot(s))
      ensures result == Submitted ==> activeForm == None && showSuccess
      ensures result == Submitted ==> var f := Form(old(activeForm).value);
        && table' == Write(table, f.config.policy, f.config.buildRow(old(f.formData), now))
        && Snapshot(old(activeForm).value) == (0, f.config.initial)
      ensures result != Submitted ==> activeForm == old(activeForm) && showSuccess == old(showSuccess)
      ensures result != Submitted ==> table' == table
      ensures old(activeForm).Some? && result == Advanced ==> var s := old(activeForm).value;
        Snapshot(s) == (old(Snapshot(s)).0 + 1, old(Snapshot(s)).1)
      ensures old(activeForm).Some? && (result == Blocked || result == SubmitFailed) ==>
        var s := old(activeForm).value; Snapshot(s) == old(Snapshot(s))
      ensures old(activeForm).Some? ==> var s := old(activeForm).value;
        && (result == Blocked <==> !old(Form(s).CanProceed()))
        && (result == Advanced <==>
              old(Form(s).CanProceed()) && !Wizard.SubmitsOnNext(old(Snapshot(s).0), Form(s).wizard.totalSteps))
        && (result == Submitted <==>
              old(Form(s).CanProceed()) && Wizard.SubmitsOnNext(old(Snapshot(s).0), Form(s).wizard.totalSteps)
              && outcome.Ok?)
        && (result == Submitted ==>
              forall i :: 0 <= i < |Form(s).config.required| ==>
                StepComplete(Form(s).config.required, old(Form(s).formData), i))
    {
      if activeForm.None? {
        result, table' := Blocked, table;
        return;
      }
      var form := Form(activeForm.value);
      result, table' := form.ClickNext(outcome, now, table);
      if result == Submitted {
        HandleFormSuccess();
        HandleFormClose();
      }
    }

    /** A press on Back in the open questionnaire. */
    method PressBack()
      requires Valid()
      modifies Repr()
      ensures Valid()
      ensures forall s :: old(activeForm) != Some(s) ==> Snapshot(s) == old(Snapshot(s))
      ensures forall s :: old(activeForm) == Some(s) ==>
        Snapshot(s).0 == Wizard.AfterPrev(old(Snapshot(s).0)) && Snapshot(s).1 == old(Snapshot(s).1)
    {
      if activeForm.Some? {
        Form(activeForm.value).ClickBack();
      }
    }
  }

  /** Loading the home page: the three questionnaires are mounted, each with its
      own configuration, on its first step with every field empty, and no
      dialog is open. */
  method Launch() returns (app: App)
    ensures app.Valid() && fresh(app)
    ensures fresh(app.energie) && fresh(app.solaire) && fresh(app.telecom)
    ensures fresh(app.energie.wizard) && fresh(app.solaire.wizard) && fresh(app.telecom.wizard)
    ensures app.activeForm == None && !app.showSuccess
    ensures app.energie.wizard.currentStep == 0 && app.energie.formData == Energie.InitialData()
    ensures app.solaire.wizard.currentStep == 0 && app.solaire.formData == Solaire.InitialData()
    ensures app.telecom.wizard.currentStep == 0 && app.telecom.formData == Telecom.InitialData()
    ensures app.energie.config == Energie.Config() && app.solaire.config == Solaire.Config()
    ensures app.telecom.config == Telecom.Config()
  {
    var e := Energie.Mount();
    var so := Solaire.Mount();
    var t := Telecom.Mount();
    app := new App(e, so, t);
  }

  /** At most one questionnaire is drawn at a time. */
  lemma AtMostOneOpen(app: App, s: Service, s': Service)
    requires app.IsOpen(s) && app.IsOpen(s')
    ensures s == s'
  {
  }

  /** Closing a questionnaire and opening it again finds its step and answers as
      they were. */
  method CloseThenReopenKeepsAnswers(app: App, s: Service)
    requires app.Valid() && app.IsOpen(s)
    modifies app
    ensures app.Valid() && app.IsOpen(s)
    ensures app.Snapshot(s) == old(app.Snapshot(s))
  {
    app.HandleFormClose();
    app.HandleServiceClick(s);
  }
}
