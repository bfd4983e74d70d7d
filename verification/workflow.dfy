/** Properties of the whole approval workflow: what the handlers keep true of
    the store between requests, and how the client's decisions meet the
    server's checks. */
module Workflow {
  import opened Wrappers
  import opened FormModel
  import opened FormStore
  import opened Ordering
  import opened FormRoutes
  import opened ClientUi

  /** No pending record carries an admin comment: comments are only ever
      written together with a decision. */
  predicate PendingUncommented(st: Store) {
    forall k :: k in st.forms && st.forms[k].status == Pending ==> st.forms[k].adminComments == ""
  }

  /** A submission keeps pending records free of comments: the new record
      is pending and has none. */
  lemma SubmitKeepsPendingUncommented(st: Store, body: Body, now: nat, fault: bool)
    requires Valid(st) && PendingUncommented(st)
    ensures PendingUncommented(Submit(st, body, now, fault).store)
  {
  }

  /** A status update keeps pending records free of comments: it only ever
      writes a comment together with a decided status. */
  lemma UpdateKeepsPendingUncommented(st: Store, id: Id, body: Body, fault: bool)
    requires Valid(st) && PendingUncommented(st)
    ensures PendingUncommented(UpdateStatus(st, id, body, fault).store)
  {
  }

  /** Hence the admin table shows "No comments" for every pending record,
      next to its Approve/Reject buttons. */
  lemma PendingRowShowsNoComments(st: Store, k: Id)
    requires PendingUncommented(st) && k in st.forms && st.forms[k].status == Pending
    ensures CommentsCell(st.forms[k]) == "No comments"
    ensures ActionFor(st.forms[k]).Choices?
  {
  }

  /** Hence a requester's pending submission always shows the under-review
      notice, never an admin response. */
  lemma PendingCardShowsUnderReview(st: Store, k: Id)
    requires PendingUncommented(st) && k in st.forms && st.forms[k].status == Pending
    ensures NoteFor(st.forms[k]) == UnderReview
  {
  }

  /** A button the dashboard offers, once confirmed, always passes the
      server's whitelist and decides the record it was shown for: the status
      becomes the button's, the comment the operator's answer or "". */
  lemma OfferedDecisionApplies(st: Store, k: Id, choice: Status, answer: Option<string>)
    requires Valid(st) && k in st.forms
    requires ActionFor(st.forms[k]).Choices? && choice in ActionFor(st.forms[k]).options
    ensures DecisionBody(true, answer, choice).Some?
    ensures var r := UpdateStatus(st, k, DecisionBody(true, answer, choice).value, false);
      && r.response.success
      && r.store.forms[k].status == choice
      && r.store.forms[k].adminComments == CommentOrEmpty(answer)
      && ReviewOnly(st.forms[k], r.store.forms[k])
  {
  }

  /** The server does not look at the current status: a decided record
      accepts a new decision, which overwrites the previous one. */
  lemma DecidedRecordCanBeDecidedAgain(st: Store, k: Id, body: Body)
    requires Valid(st) && k in st.forms && st.forms[k].status != Pending
    requires Field(body, "status") == Some("approved") || Field(body, "status") == Some("rejected")
    ensures UpdateStatus(st, k, body, false).response.success
    ensures UpdateStatus(st, k, body, false).store.forms[k].status.Name() == body["status"]
  {
  }

  /** Keys of the body other than the five named fields have no effect on
      a submission. */
  lemma SubmitIgnoresOtherKeys(st: Store, body: Body, now: nat, fault: bool)
    requires Valid(st)
    ensures var named := map k | k in body && k in {"name", "email", "phone", "purpose", "description"} :: body[k];
      Submit(st, body, now, fault) == Submit(st, named, now, fault)
  {
  }

  /** A successful decision is visible to the next lookup by e-mail: the
      updated record is listed, and no other version of it is. */
  lemma UpdateVisibleToLookup(st: Store, id: Id, body: Body)
    requires Valid(st)
    requires UpdateStatus(st, id, body, false).response.success
    ensures var r := UpdateStatus(st, id, body, false);
      var g := r.response.data.form;
      var listed := ListByEmail(r.store, g.email, false).response.data.forms;
      && g in listed
      && forall f :: f in listed && f.id == id ==> f == g
  {
    var r := UpdateStatus(st, id, body, false);
    var g := r.response.data.form;
    assert r.store.forms[id] == g;
    assert g in r.store.forms.Values;
    var listed := ListByEmail(r.store, g.email, false).response.data.forms;
    forall f | f in listed && f.id == id ensures f == g {
      assert f in r.store.forms.Values;
      var k :| k in r.store.forms && r.store.forms[k] == f;
    }
  }

  /** A successful submission is visible to the next lookup by its e-mail. */
  lemma SubmitVisibleToLookup(st: Store, body: Body, now: nat)
    requires Valid(st)
    requires Submit(st, body, now, false).response.success
    ensures var r := Submit(st, body, now, false);
      var f := r.response.data.form;
      f in ListByEmail(r.store, f.email, false).response.data.forms
  {
  }

  /** An example submission. */
  const ExampleBody: Body :=
    map["name" := "A", "email" := "a@x.com", "phone" := "1", "purpose" := "P", "description" := "D"]

  /** An example decision. */
  const ExampleDecision: Body := map["status" := "approved", "adminComments" := "ok"]

  /** Submitting the example to an empty collection files it, pending, under identifier 0. */
  lemma ExampleSubmit()
    ensures Submit(EmptyStore, ExampleBody, 0, false).response.code == 201
    ensures Submit(EmptyStore, ExampleBody, 0, false).response.data.form.status == Pending
    ensures Submit(EmptyStore, ExampleBody, 0, false).response.data.form.email == "a@x.com"
    ensures Submit(EmptyStore, ExampleBody, 0, false).store.forms
              == map[0 := Submit(EmptyStore, ExampleBody, 0, false).response.data.form]
  {
    assert Field(ExampleBody, "name") == Some("A");
    assert Field(ExampleBody, "email") == Some("a@x.com");
    assert Field(ExampleBody, "phone") == Some("1");
    assert Field(ExampleBody, "purpose") == Some("P");
    assert Field(ExampleBody, "description") == Some("D");
    assert forall p :: Present(InputOf(SubmissionOf(ExampleBody), p));
  }

  /** Approving the example record with comment "ok" answers 200 with the
      approved, commented record and leaves it as the only one. */
  lemma ExampleApprove(st: Store, f: Form)
    requires Valid(st) && st.forms == map[0 := f]
    ensures var s2 := UpdateStatus(st, 0, ExampleDecision, false);
      && s2.response.code == 200
      && s2.response.data.form.status == Approved
      && s2.response.data.form.adminComments == "ok"
      && s2.response.data.form.email == f.email
      && s2.store.forms == map[0 := s2.response.data.form]
  {
  }

  /** Looking up the e-mail of the only stored record lists just that record. */
  lemma LookupOfOnlyRecord(st: Store, g: Form)
    requires Valid(st) && st.forms == map[g.id := g]
    ensures ListByEmail(st, g.email, false).response.data.forms == [g]
  {
    var listed := ListByEmail(st, g.email, false).response.data.forms;
    assert Matching(st, g.email).forms == st.forms;
    assert g in st.forms.Values;
    assert g in listed;
    assert listed[0] in listed;
  }

  /** Submit, approve with comment "ok", then look up by e-mail: the lookup
      lists exactly the one record, approved, with the comment. */
  lemma SubmitApproveLookup()
    ensures var s1 := Submit(EmptyStore, ExampleBody, 0, false);
      var s2 := UpdateStatus(s1.store, 0, ExampleDecision, false);
      var s3 := ListByEmail(s2.store, "a@x.com", false);
      && s1.response.code == 201
      && s2.response.code == 200
      && s2.response.data.form.status == Approved
      && s2.response.data.form.adminComments == "ok"
      && s3.response.data.forms == [s2.response.data.form]
  {
    ExampleSubmit();
    var s1 := Submit(EmptyStore, ExampleBody, 0, false);
    ExampleApprove(s1.store, s1.response.data.form);
    var s2 := UpdateStatus(s1.store, 0, ExampleDecision, false);
    LookupOfOnlyRecord(s2.store, s2.response.data.form);
  }
}
