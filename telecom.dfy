/** The two-step telecom questionnaire, with its list of chosen services. */
module Telecom {
  import opened Leads
  import opened Questionnaires

  /** The initial `formData`: five empty strings and an empty service list. */
  function InitialData(): (d: FieldStore)
    ensures d.Keys == {"name", "phone", "email", "postalCode", "services", "currentProvider"}
    ensures d["services"] == Items([])
    ensures forall f :: f in d && f != "services" ==> d[f] == Text("")
  {
    map[
      "name" := Text(""), "phone" := Text(""), "email" := Text(""),
      "postalCode" := Text(""), "services" := Items([]), "currentProvider" := Text("")]
  }

  /** The fields each step's inputs edit (the service buttons edit `services`). */
  const Inputs: seq<set<string>> := [
    {"services", "currentProvider"},
    {"name", "phone", "postalCode", "email"}]

  /** The fields each step requires; `services` must hold at least one entry. */
  const Required: seq<set<string>> := [
    {"services", "currentProvider"},
    {"name", "phone", "postalCode"}]

  /** `validateStep`, switch by switch: on stores of the telecom shape a step
      passes exactly when every field it requires is filled (the service list
      non-empty), and any other index fails. */
  function ValidateStep(d: FieldStore, step: int): (ok: bool)
    ensures SameShape(d, InitialData()) ==> (ok <==> StepComplete(Required, d, step))
  {
    assert "services" in Required[0];
    match step
    case 0 => "services" in d && d["services"].Items? && |d["services"].items| > 0
              && Answered(d, "currentProvider")
    case 1 => Answered(d, "name") && Answered(d, "phone") && Answered(d, "postalCode")
    case _ => false
  }

  /** `services` with every occurrence of `s` removed (`filter((x) => x !== s)`). */
  function Without(services: seq<string>, s: string): (r: seq<string>)
    ensures s !in r
    ensures multiset(r) == multiset(services)[s := 0]
  {
    if services == [] then []
    else
      assert services == [services[0]] + services[1..];
      (if services[0] == s then [] else [services[0]]) + Without(services[1..], s)
  }

  /** The list `toggleService(s)` writes back: without `s` if present, else `s` appended. */
  function Toggled(services: seq<string>, s: string): (r: seq<string>)
    ensures s in r <==> s !in services
    ensures s in services ==> multiset(r) == multiset(services)[s := 0]
    ensures s !in services ==> multiset(r) == multiset(services) + multiset{s}
  {
    if s in services then Without(services, s) else services + [s]
  }

  /** Removing keeps the remaining entries in their order: it distributes over
      concatenation. */
  lemma {:induction false} WithoutAppend(a: seq<string>, b: seq<string>, s: string)
    ensures Without(a + b, s) == Without(a, s) + Without(b, s)
  {
    if a == [] {
      assert a + b == b;
    } else {
      assert (a + b)[0] == a[0] && (a + b)[1..] == a[1..] + b;
      assert Without(a + b, s) == (if a[0] == s then [] else [a[0]]) + Without(a[1..] + b, s);
      WithoutAppend(a[1..], b, s);
    }
  }

  lemma {:induction false} WithoutAbsent(services: seq<string>, s: string)
    requires s !in services
    ensures Without(services, s) == services
  {
    if services != [] {
      WithoutAbsent(services[1..], s);
    }
  }

  lemma {:induction false} WithoutKeepsDistinct(services: seq<string>, s: string)
    requires Distinct(services)
    ensures Distinct(Without(services, s))
  {
    if services != [] {
      var rest := services[1..];
      WithoutKeepsDistinct(rest, s);
      var w := Without(rest, s);
      assert services[0] !in rest;
      assert multiset(w)[services[0]] == 0 by {
        assert multiset(rest)[services[0]] == 0;
      }
      assert services[0] !in w;
    }
  }

  predicate Distinct(xs: seq<string>) {
    forall i, j :: 0 <= i < j < |xs| ==> xs[i] != xs[j]
  }

  /** With `s` absent, the toggle keeps the list and appends `s` at the end. */
  lemma ToggleAbsentAppends(services: seq<string>, s: string)
    requires s !in services
    ensures |Toggled(services, s)| == |services| + 1
    ensures Toggled(services, s)[..|services|] == services
    ensures Toggled(services, s)[|services|] == s
  {
  }

  /** A toggle flips the membership of `s` and of nothing else. */
  lemma ToggleFlipsOnlyS(services: seq<string>, s: string, x: string)
    ensures x in Toggled(services, s) <==> (if x == s then s !in services else x in services)
  {
    if s in services {
      var w := Without(services, s);
      assert x in w <==> multiset(w)[x] > 0;
    }
  }

  /** With `s` present, the toggle removes all its occurrences and keeps the
      other entries with their multiplicities, in their order. */
  lemma TogglePresentRemoves(services: seq<string>, s: string)
    requires s in services
    ensures s !in Toggled(services, s)
    ensures multiset(Toggled(services, s)) == multiset(services)[s := 0]
    ensures forall a, b :: services == a + b ==> Toggled(services, s) == Without(a, s) + Without(b, s)
  {
    forall a, b | services == a + b
      ensures Toggled(services, s) == Without(a, s) + Without(b, s)
    {
      WithoutAppend(a, b, s);
    }
  }

  /** Toggling an absent service twice gives back the original list. */
  lemma ToggleTwiceRestores(services: seq<string>, s: string)
    requires s !in services
    ensures Toggled(Toggled(services, s), s) == services
  {
    WithoutAppend(services, [s], s);
    WithoutAbsent(services, s);
    assert Without([s], s) == [] + Without([], s);
  }

  /** A toggle keeps a duplicate-free list duplicate-free. */
  lemma ToggleKeepsDistinct(services: seq<string>, s: string)
    requires Distinct(services)
    ensures Distinct(Toggled(services, s))
  {
    if s in services {
      WithoutKeepsDistinct(services, s);
    }
  }

  /** The row `handleSubmit` inserts; the postal code goes in verbatim. */
  function BuildRow(d: FieldStore, now: string): (r: QuoteRow)
    ensures r.serviceType == "telecom" && r.formData == d
    ensures r.contactName == Str(d, "name") && r.contactPhone == Str(d, "phone")
    ensures r.contactEmail.None? <==> Str(d, "email") == ""
    ensures r.contactEmail.Some? ==> r.contactEmail.value == Str(d, "email")
    ensures r.contactPostalCode == Some(Str(d, "postalCode"))
    ensures r.status.None? && r.updatedAt.None?
  {
    QuoteRow("telecom", d, Str(d, "name"), OrNull(Str(d, "email")), Str(d, "phone"),
             Some(Str(d, "postalCode")), None, None)
  }

  function Config(): Questionnaires.Config {
    Questionnaires.Config(InitialData(), Inputs, Required, Insert, BuildRow)
  }

  /** `canProceed={!!validateStep()}`: on a mounted telecom form, the flag the
      wizard receives is this form's switch on the current step. */
  lemma CanProceedIsValidateStep(form: Questionnaire)
    requires form.Valid() && form.config == Config()
    ensures form.CanProceed() == ValidateStep(form.formData, form.wizard.currentStep)
  {
  }

  /** Mounting the form: step 0, every field empty. */
  method Mount() returns (form: Questionnaire)
    ensures fresh(form) && fresh(form.wizard) && form.Valid()
    ensures form.wizard.currentStep == 0 && form.formData == InitialData()
    ensures form.config == Config()
  {
    ConfigWellFormed();
    form := new Questionnaire(Config());
  }

  lemma ConfigWellFormed()
    ensures WellFormed(Config())
  {
    var c := Config();
    assert Inputs[0] !! Inputs[1];
    assert forall i :: 0 <= i < |Inputs| ==> Inputs[i] <= c.initial.Keys;
  }

  /** Since step 1 requires it, a submitted telecom row never carries an empty
      postal code, although the mapping would pass one through. */
  lemma CompleteRowHasPostalCode(d: FieldStore, now: string)
    requires SameShape(d, InitialData())
    requires forall i :: 0 <= i < |Required| ==> StepComplete(Required, d, i)
    ensures BuildRow(d, now).contactPostalCode.Some?
    ensures BuildRow(d, now).contactPostalCode.value != ""
    ensures BuildRow(d, now).contactName != "" && BuildRow(d, now).contactPhone != ""
  {
    assert StepComplete(Required, d, 1);
    assert "postalCode" in Required[1] && "name" in Required[1] && "phone" in Required[1];
  }

  /** `toggleService(service)` on a mounted telecom form, shown on step 0. */
  method ToggleService(form: Questionnaire, service: string)
    requires form.Valid() && form.config == Config()
    requires form.wizard.currentStep == 0
    modifies form
    ensures form.Valid()
    ensures form.formData ==
      old(form.formData)["services" := Items(Toggled(old(form.formData["services"].items), service))]
  {
    var services := Toggled(form.formData["services"].items, service);
    form.UpdateField("services", Items(services));
  }
}
