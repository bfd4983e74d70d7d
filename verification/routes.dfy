/** The four handlers of backend/routes/forms.js, each a pure function from
    the store and the request to the new store and the response envelope
    `{ success, message, data, error }` with its HTTP status code.

    A failure of the document store inside a handler's `try` block is the
    parameter `fault`: the store cannot be seen from here, so whether it
    fails is an input. */
module FormRoutes {
  import opened Wrappers
  import opened FormModel
  import opened FormStore
  import opened Ordering

  /** A JSON request body, keys to string values. */
  type Body = map<string, string>

  /** The value under `key`, or `None` where JavaScript reads `undefined`. */
  function Field(body: Body, key: string): Option<string> {
    if key in body then Some(body[key]) else None
  }

  /** What a response carries under `data`. */
  datatype Payload = NoData | One(form: Form) | Many(forms: seq<Form>)

  /** What a response carries under `error`. */
  datatype ErrorDetail = NoError | Invalid(violations: seq<Violation>) | StoreFailure

  /** The response envelope together with its HTTP status code. */
  datatype Response = Response(success: bool, code: nat, message: string, data: Payload, error: ErrorDetail)

  /** The store after a request, and the response to it. */
  datatype Step = Step(store: Store, response: Response)

  /** A status-code-`code` failure envelope. */
  function Refusal(code: nat, message: string, error: ErrorDetail): Response {
    Response(false, code, message, NoData, error)
  }

  // ---------------------------------------------------------------- submit

  /** The document `POST /submit` constructs: only the five named body
      fields; status, date and comments are never taken from the body. */
  function SubmissionOf(body: Body): (input: FormInput)
    ensures input.status.None? && input.submissionDate.None? && input.adminComments.None?
    ensures input.name == Field(body, "name") && input.email == Field(body, "email")
    ensures input.phone == Field(body, "phone") && input.purpose == Field(body, "purpose")
    ensures input.description == Field(body, "description")
  {
    FormInput(
      Field(body, "name"), Field(body, "email"), Field(body, "phone"),
      Field(body, "purpose"), Field(body, "description"), None, None, None)
  }

  /** `POST /submit` at time `now`. The record is built from the five named
      fields, validated, and saved under a fresh identifier (201). A schema
      violation, or a failing save, answers 400 and stores nothing. */
  function Submit(st: Store, body: Body, now: nat, fault: bool): (r: Step)
    requires Valid(st)
    ensures Valid(r.store)
    ensures r.response.success <==> !fault && forall p :: Present(InputOf(SubmissionOf(body), p))
    ensures !r.response.success ==>
      && r.store == st
      && r.response == Refusal(400, "Error submitting form", r.response.error)
      && (fault ==> r.response.error.StoreFailure? || r.response.error.Invalid?)
      && (!fault ==> r.response.error.Invalid?)
    ensures r.response.error.Invalid? ==>
      && |r.response.error.violations| > 0
      && forall p :: Required(p) in r.response.error.violations <==> !Present(InputOf(SubmissionOf(body), p))
    ensures r.response.success ==>
      && r.response.code == 201
      && r.response.message == "Form submitted successfully!"
      && r.response.data.One?
      && var f := r.response.data.form;
      && f.id == st.nextId
      && f.id !in st.forms
      && r.store.forms == st.forms[f.id := f]
      && r.store.forms.Keys == st.forms.Keys + {f.id}
      && |r.store.forms| == |st.forms| + 1
      && f.status == Pending
      && f.adminComments == ""
      && f.submissionDate == now
      && Field(body, "name") == Some(f.name) && Field(body, "email") == Some(f.email)
      && Field(body, "phone") == Some(f.phone) && Field(body, "purpose") == Some(f.purpose)
      && Field(body, "description") == Some(f.description)
  {
    match Create(SubmissionOf(body), st.nextId, now)
    case Failure(violations) => Step(st, Refusal(400, "Error submitting form", Invalid(violations)))
    case Success(f) =>
      if fault then Step(st, Refusal(400, "Error submitting form", StoreFailure))
      else
        SubmittedFields(body, st.nextId, now);
        FileFresh(st, f);
        Step(Store(st.forms[f.id := f], st.nextId + 1),
             Response(true, 201, "Form submitted successfully!", One(f), NoError))
  }

  /** Filing a well-formed record under the next identifier adds one fresh
      key and keeps the store valid. */
  lemma FileFresh(st: Store, f: Form)
    requires Valid(st) && WellFormed(f) && f.id == st.nextId
    ensures f.id !in st.forms
    ensures Valid(Store(st.forms[f.id := f], st.nextId + 1))
    ensures st.forms[f.id := f].Keys == st.forms.Keys + {f.id}
    ensures |st.forms[f.id := f]| == |st.forms| + 1
  {
  }

  /** A submission the schema accepts copies the five body fields. */
  lemma SubmittedFields(body: Body, id: Id, now: nat)
    requires Create(SubmissionOf(body), id, now).Success?
    ensures var f := Create(SubmissionOf(body), id, now).value;
      && Field(body, "name") == Some(f.name) && Field(body, "email") == Some(f.email)
      && Field(body, "phone") == Some(f.phone) && Field(body, "purpose") == Some(f.purpose)
      && Field(body, "description") == Some(f.description)
  {
    var f := Create(SubmissionOf(body), id, now).value;
    assert Some(f.name) == InputOf(SubmissionOf(body), NamePath);
    assert Some(f.email) == InputOf(SubmissionOf(body), EmailPath);
    assert Some(f.phone) == InputOf(SubmissionOf(body), PhonePath);
    assert Some(f.purpose) == InputOf(SubmissionOf(body), PurposePath);
    assert Some(f.description) == InputOf(SubmissionOf(body), DescriptionPath);
  }

  // ---------------------------------------------------------------- listing

  /** `GET /all`: every stored record, each once, newest first; the store is
      only read. A failing query answers 500. */
  function ListAll(st: Store, fault: bool): (r: Step)
    requires Valid(st)
    ensures r.store == st
    ensures fault ==> r.response == Refusal(500, "Error fetching forms", StoreFailure)
    ensures !fault ==>
      && r.response.success && r.response.code == 200
      && r.response.data.Many?
      && NewestFirst(r.response.data.forms)
      && ListsExactly(r.response.data.forms, st.forms)
  {
    if fault then Step(st, Refusal(500, "Error fetching forms", StoreFailure))
    else
      var all := Records(st);
      SortKeepsRecords(all);
      Step(st, Response(true, 200, "", Many(SortNewestFirst(all)), NoError))
  }

  /** `GET /status/:email`: exactly the records whose `email` equals the
      parameter, each once, newest first; no match is still a success. The
      store is only read. A failing query answers 500. */
  function ListByEmail(st: Store, email: string, fault: bool): (r: Step)
    requires Valid(st)
    ensures r.store == st
    ensures fault ==> r.response == Refusal(500, "Error fetching form status", StoreFailure)
    ensures !fault ==>
      && r.response.success && r.response.code == 200
      && r.response.data.Many?
      && NewestFirst(r.response.data.forms)
      && (forall f :: f in r.response.data.forms <==> f in st.forms.Values && f.email == email)
      && |r.response.data.forms| == |Matching(st, email).forms|
  {
    if fault then Step(st, Refusal(500, "Error fetching form status", StoreFailure))
    else
      var found := Records(Matching(st, email));
      SortKeepsRecords(found);
      var sorted := SortNewestFirst(found);
      assert forall f :: f in sorted <==> f in st.forms.Values && f.email == email by {
        MatchingValues(st, email);
      }
      Step(st, Response(true, 200, "", Many(sorted), NoError))
  }

  /** The records of `Matching(st, e)` are the stored records with e-mail `e`. */
  lemma MatchingValues(st: Store, e: string)
    requires Valid(st)
    ensures forall f :: f in Matching(st, e).forms.Values <==> f in st.forms.Values && f.email == e
  {
  }

  // ---------------------------------------------------------------- update

  /** The status whitelist of `PUT /:id/status`: only "approved" and
      "rejected" are accepted, so "pending" is refused like any other value. */
  function Decision(status: Option<string>): (r: Option<Status>)
    ensures r.Some? <==> status == Some("approved") || status == Some("rejected")
    ensures r.Some? ==> r.value != Pending && r.value.Name() == status.value
  {
    if status == Some("approved") then Some(Approved)
    else if status == Some("rejected") then Some(Rejected)
    else None
  }

  /** `adminComments || ""`: a missing or empty comment becomes "". */
  function CommentOrEmpty(c: Option<string>): (r: string)
    ensures c.Some? && c.value != "" ==> r == c.value
    ensures c.None? || c.value == "" ==> r == ""
  {
    if c.Some? && c.value != "" then c.value else ""
  }

  /** `b` is `a` with at most its review fields (status, comments) changed. */
  predicate ReviewOnly(a: Form, b: Form) {
    b == a.(status := b.status, adminComments := b.adminComments)
  }

  /** Changing only the review fields keeps a record within the schema. */
  lemma ReviewKeepsSchema(a: Form, b: Form)
    requires WellFormed(a) && ReviewOnly(a, b)
    ensures WellFormed(b) && b.id == a.id
  {
    forall p ensures FieldOf(b, p) == FieldOf(a, p) {
    }
  }

  /** `PUT /:id/status`. First the status whitelist (400 "Invalid status",
      whatever the identifier), then the lookup (404 "Form not found"), then
      the write of exactly `status` and `adminComments`, answering the
      updated record. The current status is not consulted, so a decided
      record can be decided again. A failing store call answers 500. */
  function UpdateStatus(st: Store, id: Id, body: Body, fault: bool): (r: Step)
    requires Valid(st)
    ensures Valid(r.store)
    ensures Decision(Field(body, "status")).None? ==>
      r == Step(st, Refusal(400, "Invalid status", NoError))
    ensures Decision(Field(body, "status")).Some? && fault ==>
      r == Step(st, Refusal(500, "Error updating form status", StoreFailure))
    ensures Decision(Field(body, "status")).Some? && !fault && id !in st.forms ==>
      r == Step(st, Refusal(404, "Form not found", NoError))
    ensures r.response.success <==> Decision(Field(body, "status")).Some? && !fault && id in st.forms
    ensures r.response.success ==>
      && r.response.code == 200
      && r.response.message == "Form " + body["status"] + " successfully!"
      && r.response.data.One?
      && var g := r.response.data.form;
      && r.store == Store(st.forms[id := g], st.nextId)
      && ReviewOnly(st.forms[id], g)
      && g.status.Name() == body["status"]
      && g.adminComments == CommentOrEmpty(Field(body, "adminComments"))
  {
    match Decision(Field(body, "status"))
    case None => Step(st, Refusal(400, "Invalid status", NoError))
    case Some(status) =>
      if fault then Step(st, Refusal(500, "Error updating form status", StoreFailure))
      else if id !in st.forms then Step(st, Refusal(404, "Form not found", NoError))
      else
        var g := st.forms[id].(status := status, adminComments := CommentOrEmpty(Field(body, "adminComments")));
        ReviewKeepsSchema(st.forms[id], g);
        Step(Store(st.forms[id := g], st.nextId),
             Response(true, 200, "Form " + status.Name() + " successfully!", One(g), NoError))
  }
}
