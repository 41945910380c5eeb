/** The contact form component of the client: its four text fields, the
    per-field error messages, and the submit state machine. The network
    call is not modelled; its outcome is an input of `HandleSubmit`. */
module ContactForm {
  import opened Values
  import opened JsText
  import opened Schema

  datatype Field = Name | Email | Subject | Message

  datatype FormState = FormState(name: string, email: string, subject: string, message: string) {
    function Get(f: Field): string {
      match f
      case Name => name
      case Email => email
      case Subject => subject
      case Message => message
    }

    /** `{ ...prev, [field]: value }` */
    function With(f: Field, value: string): (r: FormState)
      ensures r.Get(f) == value
      ensures forall g :: g != f ==> r.Get(g) == Get(g)
    {
      match f
      case Name => this.(name := value)
      case Email => this.(email := value)
      case Subject => this.(subject := value)
      case Message => this.(message := value)
    }
  }

  const EmptyForm := FormState("", "", "", "")

  /** The `"idle" | "success" | "error"` banner state. */
  datatype SubmitStatus = Idle | Success | Failure

  /** What the POST to `/api/contact` came back with. */
  datatype Outcome = OkResponse | ErrorResponse | Threw

  const NameRequired := "Name is required"
  const EmailRequired := "Email is required"
  const EmailInvalid := "Please enter a valid email address"
  const MessageRequired := "Message is required"

  // -----------------------------------------------------------------------
  // The email pattern /^\S+@\S+\.\S+$/

  /** What the regular expression means: the whole string is a non-empty
      run of non-white-space characters, an `@`, another such run, a `.`,
      and a third such run. `\S` is the complement of the white space
      that `trim` removes. */
  ghost predicate MatchesEmailPattern(s: string) {
    exists a: string, b: string, c: string ::
      && s == a + "@" + b + "." + c
      && |a| > 0 && |b| > 0 && |c| > 0
      && NoWhitespace(a) && NoWhitespace(b) && NoWhitespace(c)
  }

  /** First index at or after `k` holding `c`, or `|s|` when there is none. */
  function FindFrom(s: string, c: char, k: nat): (r: nat)
    requires k <= |s|
    ensures k <= r <= |s|
    ensures r < |s| ==> s[r] == c
    ensures forall m :: k <= m < r ==> s[m] != c
    decreases |s| - k
  {
    if k == |s| then |s| else if s[k] == c then k else FindFrom(s, c, k + 1)
  }

  /** Last index before `k` holding `c`, or -1 when there is none. */
  function FindLastBefore(s: string, c: char, k: nat): (r: int)
    requires k <= |s|
    ensures -1 <= r < k
    ensures r >= 0 ==> s[r] == c
    ensures forall m :: r < m < k ==> s[m] != c
  {
    if k == 0 then -1 else if s[k - 1] == c then k - 1 else FindLastBefore(s, c, k - 1)
  }

  /** A decision procedure for the pattern: no white space, and the first
      `@` after the first character comes at least two places before the
      last `.` that is not the final character. */
  predicate EmailLooksValid(s: string) {
    && NoWhitespace(s)
    && |s| >= 1
    && var at := FindFrom(s, '@', 1);
       var dot := FindLastBefore(s, '.', |s| - 1);
       at < |s| && at + 2 <= dot
  }

  /** The pattern in terms of positions: an `@` at an index i > 0 and a `.`
      at an index j with i + 1 < j < |s| - 1, and no white space at all. */
  ghost predicate EmailPositions(s: string) {
    && NoWhitespace(s)
    && exists i, j :: 0 < i && i + 1 < j < |s| - 1 && s[i] == '@' && s[j] == '.'
  }

  lemma PatternGivesPositions(s: string)
    ensures MatchesEmailPattern(s) ==> EmailPositions(s)
  {
    if !MatchesEmailPattern(s) {
      return;
    }
    var a: string, b: string, c: string :|
      && s == a + "@" + b + "." + c
      && |a| > 0 && |b| > 0 && |c| > 0
      && NoWhitespace(a) && NoWhitespace(b) && NoWhitespace(c);
    var i, j := |a|, |a| + 1 + |b|;
    assert s[i] == '@' && s[j] == '.';
    forall m | 0 <= m < |s| ensures !IsJsWhitespace(s[m]) {
      if m < i {
        assert s[m] == a[m];
      } else if i < m < j {
        assert s[m] == b[m - i - 1];
      } else if m > j {
        assert s[m] == c[m - j - 1];
      }
    }
  }

  lemma PositionsGivePattern(s: string, i: int, j: int)
    requires NoWhitespace(s)
    requires 0 < i && i + 1 < j < |s| - 1 && s[i] == '@' && s[j] == '.'
    ensures MatchesEmailPattern(s)
  {
    var a, b, c := s[..i], s[i + 1..j], s[j + 1..];
    assert s == a + "@" + b + "." + c;
    assert NoWhitespace(a) && NoWhitespace(b) && NoWhitespace(c);
  }

  /** The decision procedure accepts exactly the strings the regular
      expression matches. */
  lemma EmailCheckMatchesPattern(s: string)
    ensures EmailLooksValid(s) <==> MatchesEmailPattern(s)
  {
    if EmailLooksValid(s) {
      PositionsGivePattern(s, FindFrom(s, '@', 1), FindLastBefore(s, '.', |s| - 1));
    }
    if MatchesEmailPattern(s) {
      PatternGivesPositions(s);
      var i, j :| 0 < i && i + 1 < j < |s| - 1 && s[i] == '@' && s[j] == '.';
      var at := FindFrom(s, '@', 1);
      var dot := FindLastBefore(s, '.', |s| - 1);
      assert at <= i;
      assert j <= dot;
    }
  }

  /** A plain address passes the check. */
  lemma EmailAccepted()
    ensures EmailLooksValid("ana@x.io")
  {
    var s := "ana@x.io";
    assert FindFrom(s, '@', 1) == 3 by {
      assert s[1] != '@' && s[2] != '@' && s[3] == '@';
    }
    assert FindLastBefore(s, '.', |s| - 1) == 5 by {
      assert s[6] != '.' && s[5] == '.';
    }
  }

  /** No dot after the `@`, an empty name part, or a trailing space: each
      fails the pattern. */
  lemma EmailNoDotRejected()
    ensures !MatchesEmailPattern("ana@xio")
  {
    PatternGivesPositions("ana@xio");
    assert !EmailPositions("ana@xio");
  }

  lemma EmailEmptyNameRejected()
    ensures !MatchesEmailPattern("@x.io")
  {
    PatternGivesPositions("@x.io");
    assert !EmailPositions("@x.io");
  }

  lemma EmailSpaceRejected()
    ensures !MatchesEmailPattern("ana@x.io ")
  {
    var s := "ana@x.io ";
    PatternGivesPositions(s);
    assert !NoWhitespace(s) by {
      assert IsJsWhitespace(s[8]);
    }
  }

  // -----------------------------------------------------------------------
  // validateForm

  /** The check of a required field: its message when the trimmed value
      is empty. */
  function RequiredError(value: string, message: string): Option<string> {
    if Trim(value) == [] then Some(message) else None
  }

  /** The check of the email field: "required" before "invalid". */
  function EmailError(email: string): Option<string> {
    if Trim(email) == [] then Some(EmailRequired)
    else if !EmailLooksValid(email) then Some(EmailInvalid)
    else None
  }

  /** The error a field gets; the subject is never checked. */
  function FieldError(f: FormState, g: Field): Option<string> {
    match g
    case Name => RequiredError(f.name, NameRequired)
    case Email => EmailError(f.email)
    case Subject => None
    case Message => RequiredError(f.message, MessageRequired)
  }

  /** `if (e) newErrors[field] = e` */
  function PutError(errors: map<Field, string>, g: Field, e: Option<string>): (r: map<Field, string>)
    ensures e.Some? ==> r == errors[g := e.value]
    ensures e.None? ==> r == errors
  {
    match e
    case None => errors
    case Some(message) => errors[g := message]
  }

  /** The error map `validateForm` builds: the name, email and message
      checks in turn, each adding at most its own key. */
  function ValidationErrors(f: FormState): (errors: map<Field, string>)
    ensures forall g :: g in errors <==> FieldError(f, g).Some?
    ensures forall g :: g in errors ==> errors[g] == FieldError(f, g).value
  {
    var afterName := PutError(map[], Name, FieldError(f, Name));
    var afterEmail := PutError(afterName, Email, FieldError(f, Email));
    PutError(afterEmail, Message, FieldError(f, Message))
  }

  /** A required field has an error exactly when it is blank. */
  lemma RequiredErrorMeaning(value: string, message: string)
    ensures RequiredError(value, message) == if AllWhitespace(value) then Some(message) else None
  {
    TrimEmptyIffBlank(value);
  }

  /** A blank email is "required"; a non-blank one that does not match the
      pattern is "invalid"; there is no email error exactly when the email
      matches the pattern. */
  lemma EmailErrorMeaning(email: string)
    ensures AllWhitespace(email) ==> EmailError(email) == Some(EmailRequired)
    ensures !AllWhitespace(email) && !MatchesEmailPattern(email) ==> EmailError(email) == Some(EmailInvalid)
    ensures EmailError(email).None? <==> MatchesEmailPattern(email)
  {
    TrimEmptyIffBlank(email);
    EmailCheckMatchesPattern(email);
    if MatchesEmailPattern(email) {
      PatternGivesPositions(email);
      assert !IsJsWhitespace(email[0]);
    }
  }

  /** What each field's entry means: a name or message error exactly when
      that field is blank, the email error chosen with "required" taking
      precedence over "invalid", and never an error for the subject. */
  lemma ValidationErrorsMeaning(f: FormState)
    ensures var errors := ValidationErrors(f);
      && (Name in errors <==> AllWhitespace(f.name))
      && (Name in errors ==> errors[Name] == NameRequired)
      && (Message in errors <==> AllWhitespace(f.message))
      && (Message in errors ==> errors[Message] == MessageRequired)
      && (AllWhitespace(f.email) ==> Email in errors && errors[Email] == EmailRequired)
      && (!AllWhitespace(f.email) && !MatchesEmailPattern(f.email) ==>
            Email in errors && errors[Email] == EmailInvalid)
      && (Email in errors <==> !MatchesEmailPattern(f.email))
      && Subject !in errors
  {
    RequiredErrorMeaning(f.name, NameRequired);
    RequiredErrorMeaning(f.message, MessageRequired);
    EmailErrorMeaning(f.email);
  }

  /** `validateForm()` is true exactly when name and message are not blank
      and the email matches the pattern. */
  lemma ValidExactlyWhen(f: FormState)
    ensures ValidationErrors(f) == map[] <==>
      !AllWhitespace(f.name) && !AllWhitespace(f.message) && MatchesEmailPattern(f.email)
  {
    ValidationErrorsMeaning(f);
    var errors := ValidationErrors(f);
    if errors != map[] {
      var g :| g in errors;
    }
  }

  /** The form as reset after a successful send is rejected again with all
      three "required" messages. */
  lemma EmptyFormRejected()
    ensures ValidationErrors(EmptyForm) ==
      map[Name := NameRequired, Email := EmailRequired, Message := MessageRequired]
  {
  }

  /** The request body the form sends: all four fields as JSON strings. */
  function FormJson(f: FormState): Json {
    JObj(map["name" := JStr(f.name), "email" := JStr(f.email),
             "subject" := JStr(f.subject), "message" := JStr(f.message)])
  }

  /** The server accepts whatever the form sends, even a form the client
      would reject: its contact schema asks only for strings. The subject
      is stored as sent, the empty string included. */
  lemma ServerAcceptsEveryForm(f: FormState)
    ensures ParseInsertContact(FormJson(f)) == Ok(InsertContact(f.name, f.email, f.message, Present(f.subject)))
  {
    var ins := InsertContact(f.name, f.email, f.message, Present(f.subject));
    InsertContactRoundTrip(ins);
    assert EncodeInsertContact(ins) == FormJson(f);
  }

  // -----------------------------------------------------------------------
  // The component's state

  class ContactFormComponent {
    var formState: FormState
    var errors: map<Field, string>
    var isSubmitting: bool
    var submitStatus: SubmitStatus

    constructor ()
      ensures formState == EmptyForm && errors == map[]
      ensures !isSubmitting && submitStatus == Idle
    {
      formState := EmptyForm;
      errors := map[];
      isSubmitting := false;
      submitStatus := Idle;
    }

    /** `handleChange`: set the field, and clear its error if one is shown. */
    method HandleChange(field: Field, value: string)
      modifies this
      ensures formState == old(formState).With(field, value)
      ensures field in old(errors) && old(errors)[field] != "" ==> errors == old(errors) - {field}
      ensures !(field in old(errors) && old(errors)[field] != "") ==> errors == old(errors)
      ensures isSubmitting == old(isSubmitting) && submitStatus == old(submitStatus)
    {
      formState := formState.With(field, value);
      if field in errors && errors[field] != "" {
        errors := errors - {field};
      }
    }

    /** `validateForm`: replace the errors by those of the current fields. */
    method ValidateForm() returns (valid: bool)
      modifies this
      ensures errors == ValidationErrors(formState)
      ensures valid <==> errors == map[]
      ensures formState == old(formState)
      ensures isSubmitting == old(isSubmitting) && submitStatus == old(submitStatus)
    {
      var newErrors := ValidationErrors(formState);
      errors := newErrors;
      valid := |newErrors| == 0;
      if !valid {
        var g :| g in newErrors;
      }
    }

    /** `handleSubmit`: validate; an invalid form stops there. Otherwise the
        fields are sent (returned as `sent`) and the outcome decides the
        banner: success resets the fields, anything else keeps them. The
        submitting flag is down again at the end in every case. */
    method HandleSubmit(outcome: Outcome) returns (sent: Option<FormState>)
      modifies this
      ensures errors == ValidationErrors(old(formState))
      ensures errors != map[] ==>
        && sent == None && formState == old(formState)
        && isSubmitting == old(isSubmitting) && submitStatus == old(submitStatus)
      ensures errors == map[] ==>
        && sent == Some(old(formState)) && !isSubmitting
        && (outcome == OkResponse ==> submitStatus == Success && formState == EmptyForm)
        && (outcome != OkResponse ==> submitStatus == Failure && formState == old(formState))
    {
      var valid := ValidateForm();
      if !valid {
        return None;
      }
      isSubmitting := true;
      submitStatus := Idle;
      sent := Some(formState);
      match outcome {
        case OkResponse =>
          submitStatus := Success;
          formState := EmptyForm;
        case ErrorResponse =>
          submitStatus := Failure;
        case Threw =>
          submitStatus := Failure;
      }
      isSubmitting := false;
    }
  }
}
