/** The three-step solar questionnaire, which upserts on (service type, phone). */
module Solaire {
  import opened Leads
  import opened Questionnaires

  /** The initial `formData`: the 11 string fields, all empty. */
  function InitialData(): (d: FieldStore)
    ensures d.Keys == {"kwh", "phase", "tva", "buildingAge", "roofType", "orientation",
                       "inclination", "name", "phone", "email", "postalCode"}
    ensures forall f :: f in d ==> d[f] == Text("")
  {
    map[
      "kwh" := Text(""), "phase" := Text(""), "tva" := Text(""),
      "buildingAge" := Text(""), "roofType" := Text(""), "orientation" := Text(""),
      "inclination" := Text(""), "name" := Text(""), "phone" := Text(""),
      "email" := Text(""), "postalCode" := Text("")]
  }

  /** The fields each step's inputs edit. */
  const Inputs: seq<set<string>> := [
    {"kwh", "phase", "tva"},
    {"buildingAge", "roofType", "orientation", "inclination"},
    {"name", "phone", "email", "postalCode"}]

  /** The fields each step requires. */
  const Required: seq<set<string>> := [
    {"kwh", "phase", "tva"},
    {"buildingAge", "roofType", "orientation", "inclination"},
    {"name", "phone"}]

  /** The `onConflict` key, 'service_type,contact_phone'. */
  const ConflictKey: seq<Column> := [ServiceTypeColumn, ContactPhoneColumn]

  /** `validateStep`, switch by switch: a step passes exactly when every field
      it requires is filled, and any other index fails. */
  function ValidateStep(d: FieldStore, step: int): (ok: bool)
    ensures ok <==> StepComplete(Required, d, step)
  {
    match step
    case 0 => Answered(d, "kwh") && Answered(d, "phase") && Answered(d, "tva")
    case 1 => Answered(d, "buildingAge") && Answered(d, "roofType") && Answered(d, "orientation")
              && Answered(d, "inclination")
    case 2 => Answered(d, "name") && Answered(d, "phone")
    case _ => false
  }

  /** The row `handleSubmit` upserts, stamped with `now`. */
  function BuildRow(d: FieldStore, now: string): (r: QuoteRow)
    ensures r.serviceType == "solaire" && r.formData == d
    ensures r.contactName == Str(d, "name") && r.contactPhone == Str(d, "phone")
    ensures r.contactEmail.None? <==> Str(d, "email") == ""
    ensures r.contactEmail.Some? ==> r.contactEmail.value == Str(d, "email")
    ensures r.contactPostalCode.None? <==> Str(d, "postalCode") == ""
    ensures r.contactPostalCode.Some? ==> r.contactPostalCode.value == Str(d, "postalCode")
    ensures r.status == Some("pending") && r.updatedAt == Some(now)
  {
    QuoteRow("solaire", d, Str(d, "name"), OrNull(Str(d, "email")), Str(d, "phone"),
             OrNull(Str(d, "postalCode")), Some("pending"), Some(now))
  }

  function Config(): Questionnaires.Config {
    Questionnaires.Config(InitialData(), Inputs, Required, Upsert(ConflictKey), BuildRow)
  }

  /** `canProceed={!!validateStep()}`: on a mounted solar form, the flag the
      wizard receives is this form's switch on the current step. */
  lemma CanProceedIsValidateStep(form: Questionnaire)
    requires form.Valid() && form.config == Config()
    ensures form.CanProceed() == ValidateStep(form.formData, form.wizard.currentStep)
  {
  }

  /** Mounting the form: step 0, every field empty. */
  method Mount() returns (form: Questionnaire)
    ensures fresh(form) && fresh(form.wizard) && form.Valid()
    ensures form.wizard.currentStep == 0 && form.formData == InitialData()
    ensures form.config == Config()
  {
    ConfigWellFormed();
    form := new Questionnaire(Config());
  }

  lemma ConfigWellFormed()
    ensures WellFormed(Config())
  {
    var c := Config();
    assert forall i, j :: 0 <= i < j < |Inputs| ==> Inputs[i] !! Inputs[j];
    assert forall i :: 0 <= i < |Inputs| ==> Required[i] <= Inputs[i];
    assert forall i :: 0 <= i < |Inputs| ==> Inputs[i] <= c.initial.Keys;
  }

  /** A second solar submission with the same phone replaces the first: the
      table ends as if only the second had been sent. */
  lemma ResubmitSamePhoneReplaces(t: seq<QuoteRow>, d1: FieldStore, d2: FieldStore, now1: string, now2: string)
    requires Str(d1, "phone") == Str(d2, "phone")
    ensures var p := Config().policy;
      Write(Write(t, p, BuildRow(d1, now1)), p, BuildRow(d2, now2)) == Write(t, p, BuildRow(d2, now2))
  {
    var r1, r2 := BuildRow(d1, now1), BuildRow(d2, now2);
    assert Key(r1, ConflictKey) == Key(r2, ConflictKey);
    UpsertTwiceKeepsSecond(t, ConflictKey, r1, r2);
  }

  /** After a solar submission the table holds exactly one solar row for that
      phone, the one just sent, and every row of another service is kept. */
  lemma SubmissionIsOnlyRowForPhone(t: seq<QuoteRow>, d: FieldStore, now: string)
    ensures var w := Write(t, Config().policy, BuildRow(d, now));
      && BuildRow(d, now) in w
      && (forall x :: x in w && x.serviceType == "solaire" && x.contactPhone == Str(d, "phone")
            ==> x == BuildRow(d, now))
      && (forall x :: x in t && x.serviceType != "solaire" ==> x in w)
  {
    var r := BuildRow(d, now);
    var w := Write(t, Config().policy, r);
    UpsertLeavesOneRowPerKey(t, ConflictKey, r);
    forall x | x in w && x.serviceType == "solaire" && x.contactPhone == Str(d, "phone")
      ensures x == r
    {
      assert Key(x, ConflictKey) == Key(r, ConflictKey);
      var i :| 0 <= i < |w| && w[i] == x;
    }
    forall x | x in t && x.serviceType != "solaire"
      ensures x in w
    {
      UpsertKeepsOtherServices(t, ConflictKey, r, x);
    }
  }

  /** A row built from a store in which every step is complete names the contact. */
  lemma CompleteRowNamesContact(d: FieldStore, now: string)
    requires SameShape(d, InitialData())
    requires forall i :: 0 <= i < |Required| ==> StepComplete(Required, d, i)
    ensures BuildRow(d, now).contactName != "" && BuildRow(d, now).contactPhone != ""
  {
    assert StepComplete(Required, d, 2);
    assert "name" in Required[2] && "phone" in Required[2];
  }
}
