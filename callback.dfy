/** The single-page "un expert vous rappelle" form: three fields and a status
    machine idle -> loading -> success | error. */
module Callback {
  import opened Leads

  datatype Status = Idle | Loading | Success | Error

  datatype Field = NameField | EmailField | PhoneField

  datatype Contact = Contact(name: string, email: string, phone: string)

  const Blank: Contact := Contact("", "", "")

  function Get(c: Contact, f: Field): string {
    match f
    case NameField => c.name
    case EmailField => c.email
    case PhoneField => c.phone
  }

  /** One input's `onChange`: `{ ...formData, [f]: v }`. */
  function With(c: Contact, f: Field, v: string): (r: Contact)
    ensures Get(r, f) == v
    ensures forall g :: g != f ==> Get(r, g) == Get(c, g)
  {
    match f
    case NameField => c.(name := v)
    case EmailField => c.(email := v)
    case PhoneField => c.(phone := v)
  }

  /** All three inputs carry `required`, so the browser submits only when each is non-empty. */
  function Complete(c: Contact): (ok: bool)
    ensures ok <==> c.name != "" && c.email != "" && c.phone != ""
  {
    assert Get(c, NameField) == c.name && Get(c, EmailField) == c.email && Get(c, PhoneField) == c.phone;
    forall f :: Get(c, f) != ""
  }

  /** The submit button is disabled while a write is pending and after a success;
      it is enabled exactly before the first submission and after an error. */
  function Disabled(s: Status): (disabled: bool)
    ensures !disabled <==> s == Idle || s == Error
  {
    s == Loading || s == Success
  }

  /** What can happen to the form's status: a submit press, or the store's reply. */
  datatype Event = SubmitPressed | Replied(outcome: WriteOutcome)

  /** The status after `e` (with every field filled). A press changes the status,
      to `loading`, exactly when the button is enabled; a reply is consumed only
      while loading and then settles on `success` or `error`; `success` is final. */
  function Next(s: Status, e: Event): (t: Status)
    ensures e == SubmitPressed ==> (t == s <==> Disabled(s)) && (t != s ==> t == Loading)
    ensures e.Replied? ==> (t != s <==> s == Loading)
    ensures e.Replied? && s == Loading ==> t == (if e.outcome.Ok? then Success else Error)
    ensures s == Success ==> t == Success
  {
    match e
    case SubmitPressed => if Disabled(s) then s else Loading
    case Replied(outcome) => if s != Loading then s else if outcome.Ok? then Success else Error
  }

  /** True when `e` in status `s` sends a write to the store. */
  predicate IssuesWrite(s: Status, e: Event) {
    e == SubmitPressed && !Disabled(s)
  }

  /** The number of writes a sequence of events sends, from status `s`. */
  function Writes(s: Status, events: seq<Event>): nat
    decreases |events|
  {
    if events == [] then 0
    else (if IssuesWrite(s, events[0]) then 1 else 0) + Writes(Next(s, events[0]), events[1..])
  }

  /** The status after a sequence of events. */
  function After(s: Status, events: seq<Event>): Status
    decreases |events|
  {
    if events == [] then s else After(Next(s, events[0]), events[1..])
  }

  /** The number of replies a sequence of events delivers to a pending write,
      from status `s` (a reply in any other status is ignored). */
  function Replies(s: Status, events: seq<Event>): nat
    decreases |events|
  {
    if events == [] then 0
    else (if events[0].Replied? && s == Loading then 1 else 0) + Replies(Next(s, events[0]), events[1..])
  }

  /** Once a write has succeeded, no event sends another one. */
  lemma {:induction false} SuccessIsFinal(events: seq<Event>)
    ensures After(Success, events) == Success
    ensures Writes(Success, events) == 0
    decreases |events|
  {
    if events != [] {
      SuccessIsFinal(events[1..]);
    }
  }

  /** At most one write is in flight: every write sent is answered by a reply
      the form consumes, except the one still pending while the status is
      `loading`. */
  lemma {:induction false} AtMostOneInFlight(s: Status, events: seq<Event>)
    ensures Writes(s, events) + (if s == Loading then 1 else 0)
            == Replies(s, events) + (if After(s, events) == Loading then 1 else 0)
    decreases |events|
  {
    if events != [] {
      AtMostOneInFlight(Next(s, events[0]), events[1..]);
    }
  }

  /** A row of `callback_requests`. */
  datatype CallbackRow = CallbackRow(name: string, email: string, phone: string, status: string, createdAt: string)

  /** The row `handleSubmit` upserts, stamped with `now`. */
  function BuildRow(c: Contact, now: string): (r: CallbackRow)
    ensures r.name == c.name && r.email == c.email && r.phone == c.phone
    ensures r.status == "pending" && r.createdAt == now
  {
    CallbackRow(c.name, c.email, c.phone, "pending", now)
  }

  class CallbackForm {
    var formData: Contact
    var status: Status

    constructor ()
      ensures formData == Blank && status == Idle
    {
      formData := Blank;
      status := Idle;
    }

    /** An input's `onChange`; it changes only its own field. */
    method Edit(f: Field, v: string)
      modifies this
      ensures formData == With(old(formData), f, v) && status == old(status)
    {
      formData := With(formData, f, v);
    }

    /** A submit: ignored while the button is disabled or a required field is
        empty; otherwise the status goes to `loading` and the row built from
        `formData` is sent. */
    method Submit(now: string) returns (request: Option<CallbackRow>)
      modifies this
      ensures formData == old(formData)
      ensures request.Some? <==> !Disabled(old(status)) && Complete(old(formData))
      ensures request.Some? ==> request.value == BuildRow(old(formData), now) && status == Loading
      ensures request.None? ==> status == old(status)
    {
      if Disabled(status) || !Complete(formData) {
        request := None;
      } else {
        status := Next(status, SubmitPressed);
        request := Some(BuildRow(formData, now));
      }
    }

    /** The store's reply to the pending write: on success the fields are
        cleared, on error they are kept. */
    method WriteReturned(outcome: WriteOutcome)
      requires status == Loading
      modifies this
      ensures status == Next(old(status), Replied(outcome))
      ensures outcome.Ok? ==> status == Success && formData == Blank
      ensures outcome.Err? ==> status == Error && formData == old(formData)
    {
      status := Next(status, Replied(outcome));
      if outcome.Ok? {
        formData := Blank;
      }
    }
  }
}
