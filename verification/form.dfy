/** The Form entity and its schema (backend/models/Form.js): five required
    text fields, a three-valued status defaulting to pending, a submission
    date defaulting to the creation time and admin comments defaulting to
    the empty string. */
module FormModel {
  import opened Wrappers

  /** Store-assigned identifier of a record (the document's `_id`). */
  type Id = nat

  /** The `status` enumeration of the schema. */
  datatype Status = Pending | Approved | Rejected {

    /** The string the schema stores for this status. */
    function Name(): string {
      match this
      case Pending => "pending"
      case Approved => "approved"
      case Rejected => "rejected"
    }
  }

  /** The values the schema's `enum` admits for `status`. */
  const StatusNames: set<string> := {"pending", "approved", "rejected"}

  /** Reads a status string as the schema's enum validator does: exactly one
      of the three names, compared case-sensitively. */
  function ParseStatus(s: string): (r: Option<Status>)
    ensures r.Some? <==> s in StatusNames
    ensures r.Some? ==> r.value.Name() == s
  {
    if s == "pending" then Some(Pending)
    else if s == "approved" then Some(Approved)
    else if s == "rejected" then Some(Rejected)
    else None
  }

  /** Reading back the name of a status gives that status. */
  lemma ParseName(st: Status)
    ensures ParseStatus(st.Name()) == Some(st)
  {
  }

  /** A stored record. */
  datatype Form = Form(
    id: Id,
    name: string,
    email: string,
    phone: string,
    purpose: string,
    description: string,
    status: Status,
    submissionDate: nat,
    adminComments: string
  )

  /** The five paths the schema marks `required`, in declaration order. */
  datatype RequiredPath = NamePath | EmailPath | PhonePath | PurposePath | DescriptionPath

  const RequiredPaths: seq<RequiredPath> := [NamePath, EmailPath, PhonePath, PurposePath, DescriptionPath]

  /** The value of a required path of a stored record. */
  function FieldOf(f: Form, p: RequiredPath): string {
    match p
    case NamePath => f.name
    case EmailPath => f.email
    case PhonePath => f.phone
    case PurposePath => f.purpose
    case DescriptionPath => f.description
  }

  /** A record every required field of which is a non-empty string, as the
      schema's `required` validator demands of strings. */
  predicate WellFormed(f: Form) {
    forall p: RequiredPath :: |FieldOf(f, p)| > 0
  }

  /** The document a record is constructed from: every path may be absent. */
  datatype FormInput = FormInput(
    name: Option<string>,
    email: Option<string>,
    phone: Option<string>,
    purpose: Option<string>,
    description: Option<string>,
    status: Option<string>,
    submissionDate: Option<nat>,
    adminComments: Option<string>
  )

  /** The value given for a required path, if any. */
  function InputOf(input: FormInput, p: RequiredPath): Option<string> {
    match p
    case NamePath => input.name
    case EmailPath => input.email
    case PhonePath => input.phone
    case PurposePath => input.purpose
    case DescriptionPath => input.description
  }

  /** The `required` check on a string path: present and not empty. */
  predicate Present(v: Option<string>) {
    v.Some? && |v.value| > 0
  }

  /** One reason the schema refuses a document. */
  datatype Violation = Required(path: RequiredPath) | NotInEnum(value: string)

  /** The `required` violations among the given paths, in their order. */
  function MissingAmong(input: FormInput, paths: seq<RequiredPath>): (r: seq<Violation>)
    ensures forall v :: v in r ==> v.Required? && v.path in paths
    ensures forall p :: Required(p) in r <==> p in paths && !Present(InputOf(input, p))
    ensures r == [] <==> forall p :: p in paths ==> Present(InputOf(input, p))
  {
    if paths == [] then []
    else
      (if Present(InputOf(input, paths[0])) then [] else [Required(paths[0])])
      + MissingAmong(input, paths[1..])
  }

  /** Every violation of the schema by a document, required paths first in
      declaration order, then the status enum. */
  function Violations(input: FormInput): (r: seq<Violation>)
    ensures forall p :: Required(p) in r <==> !Present(InputOf(input, p))
    ensures forall s :: NotInEnum(s) in r <==> input.status == Some(s) && s !in StatusNames
    ensures r == [] <==> (forall p :: Present(InputOf(input, p)))
                         && (input.status.Some? ==> input.status.value in StatusNames)
  {
    AllPathsRequired();
    var missing := MissingAmong(input, RequiredPaths);
    var bad :=
      if input.status.Some? && ParseStatus(input.status.value).None?
      then [NotInEnum(input.status.value)] else [];
    missing + bad
  }

  /** Every path of the schema's required list is listed in `RequiredPaths`. */
  lemma AllPathsRequired()
    ensures forall p: RequiredPath :: p in RequiredPaths
  {
    forall p: RequiredPath ensures p in RequiredPaths {
      match p
      case NamePath => assert RequiredPaths[0] == p;
      case EmailPath => assert RequiredPaths[1] == p;
      case PhonePath => assert RequiredPaths[2] == p;
      case PurposePath => assert RequiredPaths[3] == p;
      case DescriptionPath => assert RequiredPaths[4] == p;
    }
  }

  /** Constructs and validates a record as `new Form(doc)` followed by the
      validation `save()` performs: the record gets identifier `id`, the
      absent defaulted paths take their defaults (`now` for the date) and the
      result fails with every violation when the schema refuses it. */
  function Create(input: FormInput, id: Id, now: nat): (r: Result<Form, seq<Violation>>)
    ensures r.Success? <==> (forall p :: Present(InputOf(input, p)))
                            && (input.status.Some? ==> input.status.value in StatusNames)
    ensures r.Failure? ==>
      && |r.error| > 0
      && (forall p :: Required(p) in r.error <==> !Present(InputOf(input, p)))
      && (forall s :: NotInEnum(s) in r.error <==> input.status == Some(s) && s !in StatusNames)
    ensures r.Success? ==>
      && WellFormed(r.value)
      && r.value.id == id
      && (forall p :: Some(FieldOf(r.value, p)) == InputOf(input, p))
      && (input.status.None? ==> r.value.status == Pending)
      && (input.status.Some? ==> r.value.status.Name() == input.status.value)
      && r.value.submissionDate == input.submissionDate.GetOr(now)
      && r.value.adminComments == input.adminComments.GetOr("")
  {
    var violations := Violations(input);
    if violations != [] then Failure(violations)
    else
      assert Present(InputOf(input, NamePath)) && Present(InputOf(input, EmailPath));
      assert Present(InputOf(input, PhonePath)) && Present(InputOf(input, PurposePath));
      assert Present(InputOf(input, DescriptionPath));
      var status := if input.status.Some? then ParseStatus(input.status.value).GetOr(Pending) else Pending;
      var f := Form(
        id,
        input.name.value,
        input.email.value,
        input.phone.value,
        input.purpose.value,
        input.description.value,
        status,
        input.submissionDate.GetOr(now),
        input.adminComments.GetOr(""));
      Success(f)
  }
}
