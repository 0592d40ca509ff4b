/**
 * The registration page: its form state, the `validate` rules, `handleChange`
 * and the two halves of the asynchronous `handleSubmit` (before the request is
 * sent, and once the server has answered).
 */
module Register {
  import opened Options
  import opened Strings
  import opened EmailPattern
  import opened FormErrors
  import opened Validation

  datatype Field = Username | Email | Password

  /** The `name` attribute of the field's input. */
  function Key(f: Field): string {
    match f
    case Username => "username"
    case Email => "email"
    case Password => "password"
  }

  const FieldKeys: set<string> := {"username", "email", "password"}

  datatype RegisterForm = RegisterForm(username: string, email: string, password: string)

  const EmptyForm := RegisterForm("", "", "")
  const InitialErrors: Errors := map["username" := "", "email" := "", "password" := ""]

  /** The body sent to `/auth/register`. */
  datatype RegisterRequest = RegisterRequest(username: string, email: string, password: string)

  /** How the server answered: success, or a failure that may carry per-field errors. */
  datatype RegisterOutcome = Registered | Rejected(fieldErrors: Option<Errors>)

  function Value(form: RegisterForm, f: Field): string {
    match f
    case Username => form.username
    case Email => form.email
    case Password => form.password
  }

  /** The form update of `handleChange`: `{...formData, [name]: value}`. */
  function WithField(form: RegisterForm, f: Field, value: string): (r: RegisterForm)
    ensures Value(r, f) == value
    ensures forall g :: g != f ==> Value(r, g) == Value(form, g)
  {
    match f
    case Username => form.(username := value)
    case Email => form.(email := value)
    case Password => form.(password := value)
  }

  /** The message `validate` gives each field, if any. */
  datatype Checks = Checks(username: Option<string>, email: Option<string>, password: Option<string>) {
    function For(f: Field): Option<string> {
      match f
      case Username => username
      case Email => email
      case Password => password
    }

    predicate AllPass() {
      username == None && email == None && password == None
    }
  }

  function ChecksOf(form: RegisterForm): Checks {
    Checks(UsernameError(form.username), EmailError(form.email), PasswordError(form.password))
  }

  predicate IsValid(form: RegisterForm) {
    ChecksOf(form).AllPass()
  }

  /** The forms `validate` accepts, in terms of the rules themselves. */
  lemma ValidForms(form: RegisterForm)
    ensures IsValid(form) <==>
      && !IsBlank(form.username) && |form.username| >= 3
      && !IsBlank(form.email) && MatchesEmailRegex(form.email)
      && |form.password| >= 6
  {
  }

  /**
   * The error map `validate` commits: a failing field gets its message, a
   * passing field keeps whatever entry it had, and no other key changes; so
   * when every field passes the map is unchanged.
   */
  function ValidatedErrors(errors: Errors, checks: Checks): (r: Errors)
    ensures forall f :: Lookup(r, Key(f)) == if checks.For(f).Some? then checks.For(f) else Lookup(errors, Key(f))
    ensures forall k :: k !in FieldKeys ==> Lookup(r, k) == Lookup(errors, k)
    ensures checks.AllPass() ==> r == errors
  {
    var e1 := Record(errors, Key(Username), checks.username);
    var e2 := Record(e1, Key(Email), checks.email);
    Record(e2, Key(Password), checks.password)
  }

  /**
   * `validate`, given the outcome of each rule on the current form
   * (`ChecksOf(formData)`): starts from a copy of the error map and a true
   * `valid` flag, and for each failing field writes its message and clears
   * the flag.
   */
  method Validate(errors: Errors, checks: Checks) returns (valid: bool, newErrors: Errors)
    ensures valid <==> checks.AllPass()
    ensures newErrors == ValidatedErrors(errors, checks)
  {
    valid := true;
    newErrors := errors;
    if checks.username.Some? {
      newErrors := newErrors[Key(Username) := checks.username.value];
      valid := false;
    }
    if checks.email.Some? {
      newErrors := newErrors[Key(Email) := checks.email.value];
      valid := false;
    }
    if checks.password.Some? {
      newErrors := newErrors[Key(Password) := checks.password.value];
      valid := false;
    }
  }

  /** The body of the request: username and e-mail trimmed, the password as typed. */
  function RequestFor(form: RegisterForm): RegisterRequest {
    RegisterRequest(Trim(form.username), Trim(form.email), form.password)
  }

  /**
   * What the server receives for a valid form: a non-empty trimmed username,
   * the e-mail exactly as typed, and a password of at least six characters.
   */
  lemma ValidRequest(form: RegisterForm)
    requires IsValid(form)
    ensures RequestFor(form).username != ""
    ensures RequestFor(form).email == form.email
    ensures |RequestFor(form).password| >= 6
  {
    ValidForms(form);
  }

  /**
   * The length rule counts the spaces the request later trims away: "  a"
   * passes, and the server receives the one-character username "a".
   */
  lemma LengthCountedBeforeTrim()
    ensures UsernameError("  a") == None
    ensures RequestFor(RegisterForm("  a", "ann@mail.com", "secret")).username == "a"
  {
    assert !IsWhitespace("  a"[2]);
    assert TrimStart("  a") == "a";
  }

  /** The page's state cells. */
  class RegisterPage {
    var form: RegisterForm
    var errors: Errors
    var isSubmitting: bool
    var submitSuccess: bool

    constructor ()
      ensures form == EmptyForm && errors == InitialErrors
      ensures !isSubmitting && !submitSuccess
    {
      form := EmptyForm;
      errors := InitialErrors;
      isSubmitting := false;
      submitSuccess := false;
    }

    /** `handleChange`: stores the typed value and clears that field's error if it has one. */
    method HandleChange(f: Field, value: string)
      modifies this
      ensures form == WithField(old(form), f, value)
      ensures errors == ClearError(old(errors), Key(f))
      ensures isSubmitting == old(isSubmitting) && submitSuccess == old(submitSuccess)
    {
      form := WithField(form, f, value);
      errors := ClearError(errors, Key(f));
    }

    /**
     * `handleSubmit` up to the request: ignored while a request is in flight;
     * otherwise validates, and sends the request only when the form is valid.
     */
    method BeginSubmit() returns (request: Option<RegisterRequest>)
      modifies this
      ensures form == old(form)
      ensures old(isSubmitting) ==>
        request == None && errors == old(errors) && isSubmitting && submitSuccess == old(submitSuccess)
      ensures !old(isSubmitting) ==>
        && errors == ValidatedErrors(old(errors), ChecksOf(form))
        && request == (if IsValid(form) then Some(RequestFor(form)) else None)
        && isSubmitting == IsValid(form)
        && submitSuccess == (old(submitSuccess) && !IsValid(form))
    {
      if isSubmitting {
        return None;
      }
      var typed := form;
      request := SubmitChecked(ChecksOf(typed), RequestFor(typed));
    }

    /**
     * The rest of `handleSubmit` once the rules have been applied: commits
     * the validated error map and, when every rule passed, enters the
     * submitting state and hands over the request.
     */
    method SubmitChecked(checks: Checks, body: RegisterRequest) returns (request: Option<RegisterRequest>)
      modifies this`errors, this`isSubmitting, this`submitSuccess
      ensures errors == ValidatedErrors(old(errors), checks)
      ensures request == (if checks.AllPass() then Some(body) else None)
      ensures isSubmitting == (old(isSubmitting) || checks.AllPass())
      ensures submitSuccess == (old(submitSuccess) && !checks.AllPass())
    {
      var valid, newErrors := Validate(errors, checks);
      errors := newErrors;
      if !valid {
        return None;
      }
      isSubmitting := true;
      submitSuccess := false;
      request := Some(body);
    }

    /**
     * `handleSubmit` once the server has answered: on success the form is
     * cleared and the page navigates to "/"; on failure the server's field
     * errors, if any, are laid over the current ones. Either way the page
     * leaves the submitting state.
     */
    method CompleteSubmit(outcome: RegisterOutcome) returns (navigateTo: Option<string>)
      requires isSubmitting
      modifies this
      ensures !isSubmitting
      ensures outcome.Registered? ==>
        submitSuccess && form == EmptyForm && errors == old(errors) && navigateTo == Some("/")
      ensures outcome.Rejected? ==>
        && submitSuccess == old(submitSuccess) && form == old(form) && navigateTo == None
        && errors == (if outcome.fieldErrors.Some? then Overlay(old(errors), outcome.fieldErrors.value) else old(errors))
    {
      isSubmitting := false;
      match outcome
      case Registered =>
        submitSuccess := true;
        form := EmptyForm;
        navigateTo := Some("/");
      case Rejected(fieldErrors) =>
        if fieldErrors.Some? {
          errors := Overlay(errors, fieldErrors.value);
        }
        navigateTo := None;
    }
  }
}
