/** Shapes shared by the lead forms: field values, the `quote_requests` row they
    persist, and a model of how the external table reacts to `insert` and `upsert`. */
module Leads {

  datatype Option<+T> = None | Some(value: T)

  /** A form field: the questionnaires keep strings, and the telecom form one list of strings. */
  datatype Value = Text(text: string) | Items(items: seq<string>)

  /** How the forms test a field: a string is truthy when non-empty, and the
      telecom service list is tested with `.length > 0`. */
  predicate Filled(v: Value) {
    match v
    case Text(s) => s != ""
    case Items(xs) => |xs| > 0
  }

  /** A form's `formData` object: field name to current value. */
  type FieldStore = map<string, Value>

  predicate Answered(d: FieldStore, f: string) {
    f in d && Filled(d[f])
  }

  /** The string held by field `f`; "" when `f` holds no string. */
  function Str(d: FieldStore, f: string): (s: string)
    ensures f in d && d[f].Text? ==> s == d[f].text
    ensures s != "" ==> Answered(d, f)
  {
    if f in d && d[f].Text? then d[f].text else ""
  }

  /** JavaScript's `s || null` on a string. */
  function OrNull(s: string): (r: Option<string>)
    ensures r.None? <==> s == ""
    ensures r.Some? ==> r.value == s
  {
    if s == "" then None else Some(s)
  }

  /** One row of the `quote_requests` table. `None` in `status` or `updatedAt`
      means the column was not sent, so the store's default applies. */
  datatype QuoteRow = QuoteRow(
    serviceType: string,
    formData: FieldStore,
    contactName: string,
    contactEmail: Option<string>,
    contactPhone: string,
    contactPostalCode: Option<string>,
    status: Option<string>,
    updatedAt: Option<string>)

  /** The columns a conflict key may name. */
  datatype Column = ServiceTypeColumn | ContactPhoneColumn

  function ColumnValue(r: QuoteRow, c: Column): string {
    match c
    case ServiceTypeColumn => r.serviceType
    case ContactPhoneColumn => r.contactPhone
  }

  /** The values a row holds in the conflict columns `cols`, in order. */
  function Key(r: QuoteRow, cols: seq<Column>): (k: seq<string>)
    ensures |k| == |cols|
    ensures forall i :: 0 <= i < |cols| ==> k[i] == ColumnValue(r, cols[i])
  {
    seq(|cols|, i requires 0 <= i < |cols| => ColumnValue(r, cols[i]))
  }

  /** How a form writes its row: `insert`, or `upsert` with an `onConflict` key. */
  datatype WritePolicy = Insert | Upsert(onConflict: seq<Column>)

  /** The backend's reply to one write: no error, or an error. */
  datatype WriteOutcome = Ok | Err

  /** The rows of `t` whose key on `cols` is not `k`, in their order. */
  function Unmatched(t: seq<QuoteRow>, cols: seq<Column>, k: seq<string>): (u: seq<QuoteRow>)
    ensures |u| <= |t|
    ensures forall r :: r in u <==> r in t && Key(r, cols) != k
  {
    if t == [] then []
    else (if Key(t[0], cols) == k then [] else [t[0]]) + Unmatched(t[1..], cols, k)
  }

  /** ASSUMPTION about the external store: the table after a successful write of
      `r`. `insert` appends; `upsert` drops every row with the same conflict key
      and adds `r` (row order carries no meaning in the table). The written row
      is stored, no other row appears, an insert keeps every row, and an upsert
      keeps every row whose key differs. */
  function Write(t: seq<QuoteRow>, policy: WritePolicy, r: QuoteRow): (w: seq<QuoteRow>)
    ensures |w| > 0 && w[|w| - 1] == r
    ensures forall x :: x in w ==> x == r || x in t
    ensures policy.Insert? ==> w[..|w| - 1] == t
    ensures policy.Upsert? ==>
      forall x :: x in t && Key(x, policy.onConflict) != Key(r, policy.onConflict) ==> x in w
  {
    match policy
    case Insert => t + [r]
    case Upsert(cols) => Unmatched(t, cols, Key(r, cols)) + [r]
  }

  lemma {:induction false} UnmatchedAppend(a: seq<QuoteRow>, b: seq<QuoteRow>, cols: seq<Column>, k: seq<string>)
    ensures Unmatched(a + b, cols, k) == Unmatched(a, cols, k) + Unmatched(b, cols, k)
  {
    if a == [] {
      assert a + b == b;
    } else {
      assert (a + b)[0] == a[0] && (a + b)[1..] == a[1..] + b;
      assert Unmatched(a + b, cols, k)
          == (if Key(a[0], cols) == k then [] else [a[0]]) + Unmatched(a[1..] + b, cols, k);
      UnmatchedAppend(a[1..], b, cols, k);
    }
  }

  lemma {:induction false} UnmatchedIdempotent(t: seq<QuoteRow>, cols: seq<Column>, k: seq<string>)
    ensures Unmatched(Unmatched(t, cols, k), cols, k) == Unmatched(t, cols, k)
  {
    if t != [] {
      var head := if Key(t[0], cols) == k then [] else [t[0]];
      UnmatchedAppend(head, Unmatched(t[1..], cols, k), cols, k);
      UnmatchedIdempotent(t[1..], cols, k);
      if head != [] {
        assert Unmatched(head, cols, k) == head + Unmatched(head[1..], cols, k);
      }
    }
  }

  /** After an upsert the table holds exactly one row with the written row's key:
      the written row itself; rows with other keys are those there before. */
  lemma UpsertLeavesOneRowPerKey(t: seq<QuoteRow>, cols: seq<Column>, r: QuoteRow)
    ensures var w := Write(t, Upsert(cols), r);
      && w[|w| - 1] == r
      && (forall i :: 0 <= i < |w| - 1 ==> Key(w[i], cols) != Key(r, cols))
      && (forall x :: Key(x, cols) != Key(r, cols) ==> (x in w <==> x in t))
  {
    var w := Write(t, Upsert(cols), r);
    var u := Unmatched(t, cols, Key(r, cols));
    forall i | 0 <= i < |w| - 1
      ensures Key(w[i], cols) != Key(r, cols)
    {
      assert w[i] == u[i] && u[i] in u;
    }
  }

  /** Two upserts of rows with the same conflict key leave what the second one
      alone would have left: the second replaces the first. */
  lemma UpsertTwiceKeepsSecond(t: seq<QuoteRow>, cols: seq<Column>, r1: QuoteRow, r2: QuoteRow)
    requires Key(r1, cols) == Key(r2, cols)
    ensures Write(Write(t, Upsert(cols), r1), Upsert(cols), r2) == Write(t, Upsert(cols), r2)
  {
    var k := Key(r1, cols);
    var once := Unmatched(t, cols, k);
    UnmatchedAppend(once, [r1], cols, k);
    UnmatchedIdempotent(t, cols, k);
    assert Unmatched([r1], cols, k) == [] + Unmatched([], cols, k);
  }

  /** Two inserts of the same row store it twice. */
  lemma InsertTwiceStoresTwo(t: seq<QuoteRow>, r: QuoteRow)
    ensures var w := Write(Write(t, Insert, r), Insert, r);
      |w| == |t| + 2 && multiset(w)[r] == multiset(t)[r] + 2
  {
    assert Write(Write(t, Insert, r), Insert, r) == t + [r] + [r];
  }

  /** An upsert never touches a row of another service: only rows that agree
      with the written row on every conflict column can go. */
  lemma UpsertKeepsOtherServices(t: seq<QuoteRow>, cols: seq<Column>, r: QuoteRow, x: QuoteRow)
    requires ServiceTypeColumn in cols
    requires x in t && x.serviceType != r.serviceType
    ensures x in Write(t, Upsert(cols), r)
  {
    var i :| 0 <= i < |cols| && cols[i] == ServiceTypeColumn;
    assert Key(x, cols)[i] != Key(r, cols)[i];
  }
}
