/** The six-step energy questionnaire. */
module Energie {
  import opened Leads
  import opened Questionnaires

  /** The initial `formData`: the 17 string fields, all empty. */
  function InitialData(): (d: FieldStore)
    ensures d.Keys == {"address", "status", "energie", "meterType", "meterBrand", "hasSolar",
                       "consumption", "housingType", "buildingType", "heating", "persons",
                       "hasCar", "hasHeatPump", "name", "phone", "email", "postalCode"}
    ensures forall f :: f in d ==> d[f] == Text("")
  {
    map[
      "address" := Text(""), "status" := Text(""), "energie" := Text(""),
      "meterType" := Text(""), "meterBrand" := Text(""), "hasSolar" := Text(""),
      "consumption" := Text(""), "housingType" := Text(""), "buildingType" := Text(""),
      "heating" := Text(""), "persons" := Text(""), "hasCar" := Text(""),
      "hasHeatPump" := Text(""), "name" := Text(""), "phone" := Text(""),
      "email" := Text(""), "postalCode" := Text("")]
  }

  /** The fields each step's inputs edit. */
  const Inputs: seq<set<string>> := [
    {"address", "status"},
    {"energie", "meterType", "meterBrand"},
    {"hasSolar", "consumption"},
    {"housingType", "buildingType", "heating", "persons"},
    {"hasCar", "hasHeatPump"},
    {"name", "phone", "email", "postalCode"}]

  /** The fields each step requires; email and postal code are optional. */
  const Required: seq<set<string>> := [
    {"address", "status"},
    {"energie", "meterType", "meterBrand"},
    {"hasSolar", "consumption"},
    {"housingType", "buildingType", "heating", "persons"},
    {"hasCar", "hasHeatPump"},
    {"name", "phone"}]

  /** `validateStep`, switch by switch: a step passes exactly when every field
      it requires is filled, and any other index fails. */
  function ValidateStep(d: FieldStore, step: int): (ok: bool)
    ensures ok <==> StepComplete(Required, d, step)
  {
    match step
    case 0 => Answered(d, "address") && Answered(d, "status")
    case 1 => Answered(d, "energie") && Answered(d, "meterType") && Answered(d, "meterBrand")
    case 2 => Answered(d, "hasSolar") && Answered(d, "consumption")
    case 3 => Answered(d, "housingType") && Answered(d, "buildingType") && Answered(d, "heating")
              && Answered(d, "persons")
    case 4 => Answered(d, "hasCar") && Answered(d, "hasHeatPump")
    case 5 => Answered(d, "name") && Answered(d, "phone")
    case _ => false
  }

  /** Email and postal code never decide whether a step can be left. */
  lemma OptionalFieldsNeverGate(d: FieldStore, step: int, email: Value, postalCode: Value)
    ensures ValidateStep(d["email" := email]["postalCode" := postalCode], step) == ValidateStep(d, step)
  {
  }

  /** The row `handleSubmit` inserts. */
  function BuildRow(d: FieldStore, now: string): (r: QuoteRow)
    ensures r.serviceType == "energie" && r.formData == d
    ensures r.contactName == Str(d, "name") && r.contactPhone == Str(d, "phone")
    ensures r.contactEmail.None? <==> Str(d, "email") == ""
    ensures r.contactEmail.Some? ==> r.contactEmail.value == Str(d, "email")
    ensures r.contactPostalCode.None? <==> Str(d, "postalCode") == ""
    ensures r.contactPostalCode.Some? ==> r.contactPostalCode.value == Str(d, "postalCode")
    ensures r.status.None? && r.updatedAt.None?
  {
    QuoteRow("energie", d, Str(d, "name"), OrNull(Str(d, "email")), Str(d, "phone"),
             OrNull(Str(d, "postalCode")), None, None)
  }

  function Config(): Questionnaires.Config {
    Questionnaires.Config(InitialData(), Inputs, Required, Insert, BuildRow)
  }

  /** `canProceed={validateStep()}` (a string or `false`, which the wizard only
      tests for truthiness with `!canProceed`): on a mounted energy form, the flag the
      wizard receives is this form's switch on the current step. */
  lemma CanProceedIsValidateStep(form: Questionnaire)
    requires form.Valid() && form.config == Config()
    ensures form.CanProceed() == ValidateStep(form.formData, form.wizard.currentStep)
  {
  }

  /** Mounting the form: step 0, every field empty. */
  method Mount() returns (form: Questionnaire)
    ensures fresh(form) && fresh(form.wizard) && form.Valid()
    ensures form.wizard.currentStep == 0 && form.formData == InitialData()
    ensures form.config == Config()
  {
    ConfigWellFormed();
    form := new Questionnaire(Config());
  }

  lemma ConfigWellFormed()
    ensures WellFormed(Config())
  {
    var c := Config();
    forall i | 0 <= i < |Inputs|
      ensures forall j :: i < j < |Inputs| ==> Inputs[i] !! Inputs[j]
    {
      InputsDisjointAfter(i);
    }
    InputsWithinInitial();
    assert forall i :: 0 <= i < |Inputs| ==> Required[i] <= Inputs[i];
  }

  /** Every field a step edits is a field of the initial `formData`. */
  lemma InputsWithinInitial()
    ensures forall i :: 0 <= i < |Inputs| ==> Inputs[i] <= InitialData().Keys
  {
    var d := InitialData();
    assert "address" in d && "status" in d;
    assert "energie" in d && "meterType" in d && "meterBrand" in d;
    assert "hasSolar" in d && "consumption" in d;
    assert "housingType" in d && "buildingType" in d && "heating" in d && "persons" in d;
    assert "hasCar" in d && "hasHeatPump" in d;
    assert "name" in d && "phone" in d && "email" in d && "postalCode" in d;
  }

  /** Step `i`'s fields are edited by no later step. */
  lemma InputsDisjointAfter(i: int)
    requires 0 <= i < |Inputs|
    ensures forall j :: i < j < |Inputs| ==> Inputs[i] !! Inputs[j]
  {
    if i == 0 {
      assert forall j :: 0 < j < |Inputs| ==> Inputs[0] !! Inputs[j];
    } else if i == 1 {
      assert forall j :: 1 < j < |Inputs| ==> Inputs[1] !! Inputs[j];
    } else if i == 2 {
      assert forall j :: 2 < j < |Inputs| ==> Inputs[2] !! Inputs[j];
    } else if i == 3 {
      assert forall j :: 3 < j < |Inputs| ==> Inputs[3] !! Inputs[j];
    } else if i == 4 {
      assert Inputs[4] !! Inputs[5];
    }
  }

  /** A row built from a store in which every step is complete names the contact. */
  lemma CompleteRowNamesContact(d: FieldStore, now: string)
    requires SameShape(d, InitialData())
    requires forall i :: 0 <= i < |Required| ==> StepComplete(Required, d, i)
    ensures BuildRow(d, now).contactName != "" && BuildRow(d, now).contactPhone != ""
  {
    assert StepComplete(Required, d, 5);
    assert "name" in Required[5] && "phone" in Required[5];
  }

  /** Submitting the same answers twice stores two rows. */
  lemma ResubmitAppends(t: seq<QuoteRow>, d: FieldStore, now: string)
    ensures var r := BuildRow(d, now);
      Write(Write(t, Config().policy, r), Config().policy, r) == t + [r, r]
  {
  }
}
