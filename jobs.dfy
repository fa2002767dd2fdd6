/** The job application page: five inputs, `loading`/`success` flags, and an
    insert into `quote_requests` with the admin summary as `form_data`. */
module Jobs {
  import opened Leads

  /** The page's `formData`, keyed by the inputs' `name` attributes. */
  type JobData = map<string, string>

  const FieldNames: set<string> := {"nom", "prenom", "phone", "age", "cvText"}

  const Blank: JobData := map["nom" := "", "prenom" := "", "phone" := "", "age" := "", "cvText" := ""]

  /** The value of input `f`, "" if absent. */
  function Get(d: JobData, f: string): string {
    if f in d then d[f] else ""
  }

  /** The inputs marked `required`: every input but the CV text must be filled. */
  function Complete(d: JobData): (ok: bool)
    ensures ok <==> forall f :: f in FieldNames - {"cvText"} ==> Get(d, f) != ""
  {
    Get(d, "prenom") != "" && Get(d, "nom") != "" && Get(d, "phone") != "" && Get(d, "age") != ""
  }

  /** `${prenom} ${nom}`: first name, one space, last name, each recoverable. */
  function ContactName(prenom: string, nom: string): (n: string)
    ensures |n| == |prenom| + 1 + |nom|
    ensures n[..|prenom|] == prenom && n[|prenom|] == ' ' && n[|prenom| + 1..] == nom
  {
    prenom + " " + nom
  }

  /** The admin summary stored as `form_data`: name, first name and age copied,
      and the CV text or 'Non renseigné' when it is empty, so never empty. */
  function AdminData(d: JobData): (a: FieldStore)
    ensures a.Keys == {"Nom", "Prénom", "Âge", "Info CV"}
    ensures a["Nom"] == Text(Get(d, "nom")) && a["Prénom"] == Text(Get(d, "prenom"))
    ensures a["Âge"] == Text(Get(d, "age"))
    ensures Filled(a["Info CV"]) && a["Info CV"].Text?
    ensures Get(d, "cvText") != "" ==> a["Info CV"] == Text(Get(d, "cvText"))
    ensures Get(d, "cvText") == "" ==> a["Info CV"] == Text("Non renseigné")
  {
    map[
      "Nom" := Text(Get(d, "nom")),
      "Prénom" := Text(Get(d, "prenom")),
      "Âge" := Text(Get(d, "age")),
      "Info CV" := Text(if Get(d, "cvText") != "" then Get(d, "cvText") else "Non renseigné")]
  }

  /** The row `handleSubmit` inserts, stamped with `now`. */
  function BuildRow(d: JobData, now: string): (r: QuoteRow)
    ensures r.serviceType == "job" && r.formData == AdminData(d)
    ensures r.contactName == ContactName(Get(d, "prenom"), Get(d, "nom"))
    ensures r.contactPhone == Get(d, "phone")
    ensures r.contactEmail.None? && r.contactPostalCode.None?
    ensures r.status == Some("pending") && r.updatedAt == Some(now)
  {
    QuoteRow("job", AdminData(d), ContactName(Get(d, "prenom"), Get(d, "nom")), None,
             Get(d, "phone"), None, Some("pending"), Some(now))
  }

  /** The name column of a job row splits back into the first and last name. */
  lemma RowNameSplits(d: JobData, now: string)
    ensures var r := BuildRow(d, now); var p := Get(d, "prenom");
      r.contactName[..|p|] == p && r.contactName[|p| + 1..] == Get(d, "nom")
  {
  }

  class JobPage {
    var formData: JobData
    var loading: bool
    var success: bool
    /** The row of the pending write, held by the awaiting `handleSubmit`. */
    var inFlight: Option<QuoteRow>

    ghost predicate Valid()
      reads this
    {
      formData.Keys == FieldNames && (loading ==> !success) && (loading <==> inFlight.Some?)
    }

    constructor ()
      ensures Valid()
      ensures formData == Blank && !loading && !success
    {
      formData := Blank;
      loading, success := false, false;
      inFlight := None;
    }

    /** `handleChange`: the input named `name` takes `value`. */
    method HandleChange(name: string, value: string)
      requires Valid() && name in FieldNames
      modifies this
      ensures Valid()
      ensures formData == old(formData)[name := value]
      ensures loading == old(loading) && success == old(success) && inFlight == old(inFlight)
    {
      formData := formData[name := value];
    }

    /** A submit: ignored once the page shows its success screen (the form is
        gone), while `loading` (the button is disabled), or when a required
        input is empty; otherwise `loading` is set and the row is sent. */
    method Submit(now: string) returns (request: Option<QuoteRow>)
      requires Valid()
      modifies this
      ensures Valid()
      ensures formData == old(formData) && success == old(success)
      ensures request.Some? <==> !old(success) && !old(loading) && Complete(old(formData))
      ensures request.Some? ==> request.value == BuildRow(old(formData), now) && loading
      ensures inFlight == if request.Some? then request else old(inFlight)
      ensures request.None? ==> loading == old(loading)
    {
      if success || loading || !Complete(formData) {
        request := None;
      } else {
        loading := true;
        request := Some(BuildRow(formData, now));
        inFlight := request;
      }
    }

    /** The store's reply to the pending insert into `quote_requests`: on no
        error the row is in the table and `success` is set, on error the table
        is as it was; `loading` is cleared either way and `formData` is never
        cleared. */
    method WriteReturned(outcome: WriteOutcome, table: seq<QuoteRow>) returns (table': seq<QuoteRow>)
      requires Valid() && loading
      modifies this
      ensures Valid()
      ensures !loading && inFlight.None?
      ensures success <==> outcome.Ok?
      ensures outcome.Ok? ==> table' == Write(table, Insert, old(inFlight).value)
      ensures outcome.Err? ==> table' == table
      ensures formData == old(formData)
    {
      table' := table;
      if outcome.Ok? {
        table' := Write(table, Insert, inFlight.value);
        success := true;
      }
      loading := false;
      inFlight := None;
    }
  }
}
