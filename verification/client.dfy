/** The decision helpers of the browser client (frontend/js/app.js): badge
    classes, the three status counters, which actions a row offers, which
    note a status card shows, the blank-email guard of the status lookup and
    the request an approve/reject click sends. Markup, timers and network
    calls are not part of this model. */
module ClientUi {
  import opened Wrappers
  import opened FormModel
  import opened Ordering
  import opened Text
  import opened FormRoutes

  // ---------------------------------------------------------------- badges

  /** `getStatusBadgeClass`: success for "approved", danger for "rejected",
      warning for any other string. */
  function BadgeClass(status: string): (r: string)
    ensures status == "approved" ==> r == "bg-success"
    ensures status == "rejected" ==> r == "bg-danger"
    ensures status != "approved" && status != "rejected" ==> r == "bg-warning"
  {
    match status
    case "approved" => "bg-success"
    case "rejected" => "bg-danger"
    case _ => "bg-warning"
  }

  /** The colour of the counter card of each status on the admin dashboard. */
  function CounterCardClass(s: Status): (r: string)
    ensures s == Pending ==> r == "bg-warning"
    ensures s == Approved ==> r == "bg-success"
    ensures s == Rejected ==> r == "bg-danger"
  {
    match s
    case Pending => "bg-warning"
    case Approved => "bg-success"
    case Rejected => "bg-danger"
  }

  /** A record's badge has the colour of its status's counter card, and the
      three statuses get three different badges. */
  lemma BadgeMatchesCounterCard(s: Status, t: Status)
    ensures BadgeClass(s.Name()) == CounterCardClass(s)
    ensures BadgeClass(s.Name()) == BadgeClass(t.Name()) <==> s == t
  {
  }

  // ---------------------------------------------------------------- counters

  /** `forms.filter((f) => f.status === s)`. */
  function WithStatus(forms: seq<Form>, s: Status): (r: seq<Form>)
    ensures |r| <= |forms|
    ensures forall f :: f in r <==> f in forms && f.status == s
  {
    if forms == [] then []
    else if forms[0].status == s then [forms[0]] + WithStatus(forms[1..], s)
    else WithStatus(forms[1..], s)
  }

  /** The statuses of the records, in order. */
  function Statuses(forms: seq<Form>): (r: seq<Status>)
    ensures |r| == |forms| && forall i :: 0 <= i < |forms| ==> r[i] == forms[i].status
  {
    seq(|forms|, i requires 0 <= i < |forms| => forms[i].status)
  }

  /** The filtered length is the number of occurrences of `s` among the statuses. */
  lemma {:induction false} WithStatusCounts(forms: seq<Form>, s: Status)
    ensures |WithStatus(forms, s)| == multiset(Statuses(forms))[s]
  {
    if forms != [] {
      WithStatusCounts(forms[1..], s);
      assert Statuses(forms) == [forms[0].status] + Statuses(forms[1..]);
    }
  }

  /** Every record is counted under exactly one of the three statuses. */
  lemma {:induction false} CountersPartition(forms: seq<Form>)
    ensures |WithStatus(forms, Pending)| + |WithStatus(forms, Approved)| + |WithStatus(forms, Rejected)| == |forms|
  {
    if forms != [] {
      CountersPartition(forms[1..]);
    }
  }

  /** The three numbers on the admin dashboard. */
  datatype Counters = Counters(pending: nat, approved: nat, rejected: nat)

  /** The counting of `displayAllForms`: each counter is the number of
      records with that status, and together they count every record. */
  function CountStatuses(forms: seq<Form>): (c: Counters)
    ensures c.pending == multiset(Statuses(forms))[Pending]
    ensures c.approved == multiset(Statuses(forms))[Approved]
    ensures c.rejected == multiset(Statuses(forms))[Rejected]
    ensures c.pending + c.approved + c.rejected == |forms|
  {
    WithStatusCounts(forms, Pending);
    WithStatusCounts(forms, Approved);
    WithStatusCounts(forms, Rejected);
    CountersPartition(forms);
    Counters(|WithStatus(forms, Pending)|, |WithStatus(forms, Approved)|, |WithStatus(forms, Rejected)|)
  }

  // ---------------------------------------------------------------- admin table

  /** What the Actions cell of a table row offers: buttons that send the
      listed statuses, or the word "Completed". */
  datatype RowAction = Choices(options: seq<Status>) | Completed

  /** Approve and Reject are offered exactly for pending records. */
  function ActionFor(f: Form): (a: RowAction)
    ensures a.Choices? <==> f.status == Pending
    ensures a.Choices? ==> a.options == [Approved, Rejected]
  {
    if f.status == Pending then Choices([Approved, Rejected]) else Completed
  }

  /** `form.adminComments || "No comments"`. */
  function CommentsCell(f: Form): (r: string)
    ensures f.adminComments == "" ==> r == "No comments"
    ensures f.adminComments != "" ==> r == f.adminComments
  {
    if f.adminComments != "" then f.adminComments else "No comments"
  }

  /** One row of the admin table. */
  datatype Row = Row(form: Form, badge: string, comments: string, action: RowAction)

  /** The admin panel: a notice when there is nothing, else the counters
      and one row per record in the order received. */
  datatype AdminView = NoFormsYet | Dashboard(counters: Counters, rows: seq<Row>)

  function AdminPanel(forms: seq<Form>): (v: AdminView)
    ensures v.NoFormsYet? <==> |forms| == 0
    ensures v.Dashboard? ==>
      && v.counters == CountStatuses(forms)
      && |v.rows| == |forms|
      && forall i :: 0 <= i < |forms| ==>
           && v.rows[i].form == forms[i]
           && v.rows[i].badge == BadgeClass(forms[i].status.Name())
           && v.rows[i].comments == CommentsCell(forms[i])
           && v.rows[i].action == ActionFor(forms[i])
  {
    if |forms| == 0 then NoFormsYet
    else
      Dashboard(
        CountStatuses(forms),
        seq(|forms|, i requires 0 <= i < |forms| =>
          Row(forms[i], BadgeClass(forms[i].status.Name()), CommentsCell(forms[i]), ActionFor(forms[i]))))
  }

  // ---------------------------------------------------------------- status lookup

  /** The outcome of pressing "Check Status". */
  datatype LookupStep = WarnBlankEmail | Fetch(email: string)

  /** The trimmed input is looked up unless it is empty, in which case the
      user is warned and nothing is requested. */
  function CheckStatus(input: string): (r: LookupStep)
    ensures r.WarnBlankEmail? <==> Blank(input)
    ensures r.Fetch? ==> r.email == Trim(input) && r.email != []
  {
    TrimEmptyIffBlank(input);
    var email := Trim(input);
    if email == [] then WarnBlankEmail else Fetch(email)
  }

  /** The note under a status card. */
  datatype Note = AdminResponse(text: string) | UnderReview | NoNote

  /** Comments win; without them a pending record shows the under-review
      notice and a decided one shows nothing. */
  function NoteFor(f: Form): (n: Note)
    ensures n.AdminResponse? <==> f.adminComments != ""
    ensures n.AdminResponse? ==> n.text == f.adminComments
    ensures n == UnderReview <==> f.adminComments == "" && f.status == Pending
  {
    if f.adminComments != "" then AdminResponse(f.adminComments)
    else if f.status == Pending then UnderReview
    else NoNote
  }

  /** One card of the status results. */
  datatype Card = Card(form: Form, badge: string, note: Note)

  /** The status results: a notice when nothing was found, else one card per
      record, newest first. */
  datatype StatusView = NoFormsFound | Cards(cards: seq<Card>)

  /** The records the cards show, in card order. */
  function CardForms(cards: seq<Card>): (r: seq<Form>)
    ensures |r| == |cards| && forall i :: 0 <= i < |cards| ==> r[i] == cards[i].form
  {
    seq(|cards|, i requires 0 <= i < |cards| => cards[i].form)
  }

  /** `displayStatusResults`: the received records re-sorted newest first,
      each on a card with its badge and note. */
  function StatusResults(forms: seq<Form>): (v: StatusView)
    ensures v.NoFormsFound? <==> |forms| == 0
    ensures v.Cards? ==>
      && multiset(CardForms(v.cards)) == multiset(forms)
      && NewestFirst(CardForms(v.cards))
      && forall i :: 0 <= i < |v.cards| ==>
           v.cards[i].badge == BadgeClass(v.cards[i].form.status.Name()) && v.cards[i].note == NoteFor(v.cards[i].form)
  {
    if |forms| == 0 then NoFormsFound
    else
      var sorted := SortNewestFirst(forms);
      var cards := seq(|sorted|, i requires 0 <= i < |sorted| =>
        Card(sorted[i], BadgeClass(sorted[i].status.Name()), NoteFor(sorted[i])));
      assert CardForms(cards) == sorted;
      Cards(cards)
  }

  /** Cards of a list the server already sorted come in the server's order. */
  lemma StatusResultsKeepServerOrder(forms: seq<Form>)
    requires |forms| > 0 && NewestFirst(forms)
    ensures StatusResults(forms).Cards?
    ensures CardForms(StatusResults(forms).cards) == forms
  {
    SortOfSortedIsIdentity(forms);
  }

  // ---------------------------------------------------------------- decisions

  /** `updateFormStatus(id, status)`: nothing is sent unless the operator
      confirms; then the body carries the status and the prompt's answer,
      a cancelled (`None`) or empty answer becoming "". */
  function DecisionBody(confirmed: bool, answer: Option<string>, status: Status): (r: Option<Body>)
    ensures r.None? <==> !confirmed
    ensures r.Some? ==>
      && Field(r.value, "status") == Some(status.Name())
      && Field(r.value, "adminComments") == Some(CommentOrEmpty(answer))
      && r.value.Keys == {"status", "adminComments"}
  {
    if !confirmed then None
    else Some(map["status" := status.Name(), "adminComments" := CommentOrEmpty(answer)])
  }
}
