/** The client-side contact form of src/components/ContactSection.tsx: its
    state (`formData`, `errors`, `submitting`, `feedback`), the field-change
    handler, the validation, and the submit gate. The POST request is not
    modelled; how it ended is an argument. */
module ContactForm {
  import opened Wrappers
  import opened JsStrings

  const NameRequired := "Name is required"
  const EmailRequired := "Email is required"
  const EmailInvalid := "Email is invalid"
  const MessageRequired := "Message is required"
  const SentFeedback := "Message sent successfully! Thanks for reaching out."
  const FailedFeedback := "Oops, something went wrong. Try again later."
  const NetworkFeedback := "Network error. Please check your connection."

  /** The three inputs, named by their `name` attribute. */
  datatype Field = Name | Email | Message

  datatype FormData = FormData(name: string, email: string, message: string) {
    function Get(f: Field): string {
      match f
      case Name => name
      case Email => email
      case Message => message
    }

    /** `{ ...prev, [field]: value }`. */
    function With(f: Field, value: string): (d: FormData)
      ensures d.Get(f) == value
      ensures forall g :: g != f ==> d.Get(g) == Get(g)
    {
      match f
      case Name => this.(name := value)
      case Email => this.(email := value)
      case Message => this.(message := value)
    }
  }

  const EmptyForm := FormData("", "", "")

  /** `/\S+@\S+\.\S+/.test(s)`: somewhere in `s`, non-white-space characters
      around an `@`, followed by more of them around a `.`. The match is not
      anchored, so the rest of `s` may hold anything. */
  predicate LooseEmail(s: string) {
    exists at, dot | 0 < at < dot < |s| :: LooseMatchAt(s, at, dot)
  }

  /** The shortest match: `s[at - 1..dot + 2]`, with the `@` at `at` and the
      `.` at `dot`. */
  predicate LooseMatchAt(s: string, at: int, dot: int) {
    0 < at && at + 1 < dot && dot + 1 < |s| && s[at] == '@' && s[dot] == '.' && NoSpace(s[at - 1..dot + 2])
  }

  /** `validateForm`: one error per field that fails, and none for the
      others. A field is blank (`!value.trim()`) exactly when it is all white
      space (`BlankIffAllSpace`), which is the form used here. */
  function ValidateForm(data: FormData): (errors: map<Field, string>)
    ensures Name in errors <==> AllSpace(data.name)
    ensures Message in errors <==> AllSpace(data.message)
    ensures Email in errors <==> AllSpace(data.email) || !LooseEmail(data.email)
    ensures Name in errors ==> errors[Name] == NameRequired
    ensures Message in errors ==> errors[Message] == MessageRequired
    ensures Email in errors ==> errors[Email] == (if AllSpace(data.email) then EmailRequired else EmailInvalid)
  {
    var afterName: map<Field, string> := if AllSpace(data.name) then map[Name := NameRequired] else map[];
    var afterEmail :=
      if AllSpace(data.email) then afterName[Email := EmailRequired]
      else if !LooseEmail(data.email) then afterName[Email := EmailInvalid]
      else afterName;
    if AllSpace(data.message) then afterEmail[Message := MessageRequired] else afterEmail
  }

  /** The form is submitted exactly when no field is blank and the address
      has the `x@y.z` shape. */
  lemma SubmittableIff(data: FormData)
    ensures ValidateForm(data) == map[] <==>
              !AllSpace(data.name) && !AllSpace(data.email) && !AllSpace(data.message) && LooseEmail(data.email)
  {
    var e := ValidateForm(data);
    if e != map[] {
      var f :| f in e;
    }
  }

  /** A submittable form never trips the server's "All fields are required"
      check: no field is empty. */
  lemma SubmittableFieldsAreFilled(data: FormData)
    requires ValidateForm(data) == map[]
    ensures data.name != "" && data.email != "" && data.message != ""
  {
    SubmittableIff(data);
  }

  /** How the POST to `/api/contact` ended. */
  datatype SubmitReply = ReplyOk | ReplyNotOk | NetworkError

  /** The message shown once the request has ended. */
  function FeedbackFor(reply: SubmitReply): string {
    match reply
    case ReplyOk => SentFeedback
    case ReplyNotOk => FailedFeedback
    case NetworkError => NetworkFeedback
  }

  class ContactSection {
    var formData: FormData
    var errors: map<Field, string>
    var submitting: bool
    var feedback: string

    constructor ()
      ensures formData == EmptyForm && errors == map[] && !submitting && feedback == ""
    {
      formData := EmptyForm;
      errors := map[];
      submitting := false;
      feedback := "";
    }

    /** `handleChange`: stores the new value of one field, and blanks that
        field's error message if it had a non-empty one. */
    method HandleChange(field: Field, value: string)
      modifies this
      ensures formData == old(formData).With(field, value)
      ensures errors == if field in old(errors) && old(errors)[field] != ""
                        then old(errors)[field := ""] else old(errors)
      ensures submitting == old(submitting) && feedback == old(feedback)
    {
      formData := formData.With(field, value);
      if field in errors && errors[field] != "" {
        errors := errors[field := ""];
      }
    }

    /** `handleSubmit`, from the click to the end of the request. Returns
        the data posted, or `None` when validation stopped the submission. */
    method HandleSubmit(reply: SubmitReply) returns (posted: Option<FormData>)
      modifies this
      ensures |ValidateForm(old(formData))| > 0 ==>
                posted.None? && errors == ValidateForm(old(formData)) &&
                formData == old(formData) && submitting == old(submitting) && feedback == old(feedback)
      ensures |ValidateForm(old(formData))| == 0 ==> posted == Some(old(formData))
      ensures |ValidateForm(old(formData))| == 0 ==> errors == old(errors) && !submitting
      ensures |ValidateForm(old(formData))| == 0 ==> formData == (if reply.ReplyOk? then EmptyForm else old(formData))
      ensures |ValidateForm(old(formData))| == 0 ==> feedback == FeedbackFor(reply)
    {
      var validationErrors := ValidateForm(formData);
      if |validationErrors| > 0 {
        errors := validationErrors;
        return None;
      }
      submitting := true;
      feedback := "";
      posted := Some(formData);
      feedback := FeedbackFor(reply);
      if reply.ReplyOk? {
        formData := EmptyForm;
      }
      submitting := false;
    }
  }
}
