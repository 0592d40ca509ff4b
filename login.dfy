/**
 * The login page: its form state, the `validate` rules, `handleChange` and the
 * two halves of the asynchronous `handleSubmit`. Unlike the registration page,
 * the failure branch writes over the `errors` value the handler captured when
 * it was created, not over the current state.
 */
module Login {
  import opened Options
  import opened Strings
  import opened EmailPattern
  import opened FormErrors
  import opened Validation

  datatype Field = Email | Password

  /** The `name` attribute of the field's input. */
  function Key(f: Field): string {
    match f
    case Email => "email"
    case Password => "password"
  }

  const FieldKeys: set<string> := {"email", "password"}

  datatype LoginForm = LoginForm(email: string, password: string)

  const EmptyForm := LoginForm("", "")
  const InitialErrors: Errors := map["email" := "", "password" := ""]

  /** The local-storage key the token is saved under (spelled as the page spells it). */
  const TokenKey := "authintication"

  /** The message both fields get when the server blames the credentials. */
  const CredentialsMessage := "Incorrect password or email"

  /** The body sent to `/auth/login`. */
  datatype LoginRequest = LoginRequest(email: string, password: string)

  /**
   * How the server answered: a token, or a failure whose response may carry a
   * `message` and an `errors` record (both `None` when there was no response).
   */
  datatype LoginOutcome =
    | LoggedIn(token: string)
    | LoginFailed(message: Option<string>, fieldErrors: Option<Errors>)

  function Value(form: LoginForm, f: Field): string {
    match f
    case Email => form.email
    case Password => form.password
  }

  /** The form update of `handleChange`: `{...formData, [name]: value}`. */
  function WithField(form: LoginForm, f: Field, value: string): (r: LoginForm)
    ensures Value(r, f) == value
    ensures forall g :: g != f ==> Value(r, g) == Value(form, g)
  {
    match f
    case Email => form.(email := value)
    case Password => form.(password := value)
  }

  /** The message `validate` gives each field, if any. */
  datatype Checks = Checks(email: Option<string>, password: Option<string>) {
    function For(f: Field): Option<string> {
      match f
      case Email => email
      case Password => password
    }

    predicate AllPass() {
      email == None && password == None
    }
  }

  function ChecksOf(form: LoginForm): Checks {
    Checks(EmailError(form.email), PasswordError(form.password))
  }

  predicate IsValid(form: LoginForm) {
    ChecksOf(form).AllPass()
  }

  /** The forms `validate` accepts, in terms of the rules themselves. */
  lemma ValidForms(form: LoginForm)
    ensures IsValid(form) <==>
      && !IsBlank(form.email) && MatchesEmailRegex(form.email)
      && |form.password| >= 6
  {
  }

  /**
   * The error map `validate` commits: a failing field gets its message, a
   * passing field keeps whatever entry it had, and no other key changes.
   */
  function ValidatedErrors(errors: Errors, checks: Checks): (r: Errors)
    ensures forall f :: Lookup(r, Key(f)) == if checks.For(f).Some? then checks.For(f) else Lookup(errors, Key(f))
    ensures forall k :: k !in FieldKeys ==> Lookup(r, k) == Lookup(errors, k)
    ensures checks.AllPass() ==> r == errors
  {
    var e1 := Record(errors, Key(Email), checks.email);
    Record(e1, Key(Password), checks.password)
  }

  /**
   * `validate`, given the outcome of each rule on the current form: starts
   * from a copy of the error map and a true `valid` flag, and for each failing
   * field writes its message and clears the flag.
   */
  method Validate(errors: Errors, checks: Checks) returns (valid: bool, newErrors: Errors)
    ensures valid <==> checks.AllPass()
    ensures newErrors == ValidatedErrors(errors, checks)
  {
    valid := true;
    newErrors := errors;
    if checks.email.Some? {
      newErrors := newErrors[Key(Email) := checks.email.value];
      valid := false;
    }
    if checks.password.Some? {
      newErrors := newErrors[Key(Password) := checks.password.value];
      valid := false;
    }
  }

  /** The body of the request: the e-mail trimmed, the password as typed. */
  function RequestFor(form: LoginForm): LoginRequest {
    LoginRequest(Trim(form.email), form.password)
  }

  /** What the server receives for a valid form: the e-mail exactly as typed and a password of at least six characters. */
  lemma ValidRequest(form: LoginForm)
    requires IsValid(form)
    ensures RequestFor(form).email == form.email
    ensures MatchesEmailRegex(RequestFor(form).email)
    ensures |RequestFor(form).password| >= 6
  {
    ValidForms(form);
  }

  /** The failure message names the password or the credentials (case-sensitively). */
  predicate BlamesCredentials(message: string) {
    Includes(message, "password") || Includes(message, "credentials")
  }

  /**
   * The error map after a failed login. Without a truthy message nothing
   * changes. Otherwise the update starts from `snapshot`, the map captured when
   * the handler was created: a message blaming the credentials puts the same
   * message on both fields; any other message lays the server's `errors`
   * record (or nothing) over the snapshot.
   */
  function ErrorsAfterFailure(current: Errors, snapshot: Errors, message: Option<string>, fieldErrors: Option<Errors>): (r: Errors)
    ensures !Truthy(message) ==> r == current
    ensures Truthy(message) && BlamesCredentials(message.value) ==>
      && Lookup(r, Key(Email)) == Some(CredentialsMessage)
      && Lookup(r, Key(Password)) == Some(CredentialsMessage)
      && forall k :: k !in FieldKeys ==> Lookup(r, k) == Lookup(snapshot, k)
    ensures Truthy(message) && !BlamesCredentials(message.value) ==>
      forall k :: Lookup(r, k) ==
        if fieldErrors.Some? && k in fieldErrors.value then Some(fieldErrors.value[k]) else Lookup(snapshot, k)
  {
    if !Truthy(message) then current
    else if BlamesCredentials(message.value) then
      snapshot[Key(Password) := CredentialsMessage][Key(Email) := CredentialsMessage]
    else
      Overlay(snapshot, fieldErrors.GetOr(map[]))
  }

  /**
   * Once the server gives a reason, what the user did to `errors` while the
   * request was in flight is lost: the result depends only on the snapshot.
   */
  lemma FailureDiscardsEditsInFlight(current1: Errors, current2: Errors, snapshot: Errors, message: Option<string>, fieldErrors: Option<Errors>)
    requires Truthy(message)
    ensures ErrorsAfterFailure(current1, snapshot, message, fieldErrors) == ErrorsAfterFailure(current2, snapshot, message, fieldErrors)
  {
  }

  /**
   * The message test is case-sensitive: "Wrong password" blames the
   * credentials, "Invalid Password" does not.
   */
  lemma MessageRouting()
    ensures BlamesCredentials("Wrong password")
    ensures !Includes("Invalid Password", "password")
  {
    assert OccursAt("Wrong password", "password", 6);
    var s := "Invalid Password";
    assert 'p' !in s;
    forall i | 0 <= i && i + 8 <= |s|
      ensures !OccursAt(s, "password", i)
    {
      assert s[i] in s;
      assert s[i..i + 8][0] == s[i];
    }
  }

  /** The page's state cells, and the one local-storage entry the page writes. */
  class LoginPage {
    var form: LoginForm
    var errors: Errors
    var isSubmitting: bool
    var submitSuccess: bool
    /** The `errors` value the in-flight handler closed over. */
    var errorsAtSubmit: Errors
    /** `localStorage[TokenKey]` */
    var storedToken: Option<string>

    constructor (stored: Option<string>)
      ensures form == EmptyForm && errors == InitialErrors
      ensures !isSubmitting && !submitSuccess
      ensures storedToken == stored
    {
      form := EmptyForm;
      errors := InitialErrors;
      isSubmitting := false;
      submitSuccess := false;
      errorsAtSubmit := InitialErrors;
      storedToken := stored;
    }

    /** `handleChange`: stores the typed value and clears that field's error if it has one. */
    method HandleChange(f: Field, value: string)
      modifies this
      ensures form == WithField(old(form), f, value)
      ensures errors == ClearError(old(errors), Key(f))
      ensures isSubmitting == old(isSubmitting) && submitSuccess == old(submitSuccess)
      ensures errorsAtSubmit == old(errorsAtSubmit) && storedToken == old(storedToken)
    {
      form := WithField(form, f, value);
      errors := ClearError(errors, Key(f));
    }

    /**
     * `handleSubmit` up to the request: ignored while a request is in flight;
     * otherwise validates, and sends the request only when the form is valid.
     * A request leaves the error map as it was, which is also the map the
     * handler captured.
     */
    method BeginSubmit() returns (request: Option<LoginRequest>)
      modifies this
      ensures form == old(form) && storedToken == old(storedToken)
      ensures old(isSubmitting) ==>
        && request == None && errors == old(errors) && isSubmitting
        && submitSuccess == old(submitSuccess) && errorsAtSubmit == old(errorsAtSubmit)
      ensures !old(isSubmitting) ==>
        && errors == ValidatedErrors(old(errors), ChecksOf(form))
        && request == (if IsValid(form) then Some(RequestFor(form)) else None)
        && isSubmitting == IsValid(form)
        && submitSuccess == (old(submitSuccess) && !IsValid(form))
        && errorsAtSubmit == (if IsValid(form) then old(errors) else old(errorsAtSubmit))
    {
      if isSubmitting {
        return None;
      }
      var checks, body := ChecksOf(form), RequestFor(form);
      request := SubmitChecked(checks, body);
    }

    /**
     * The rest of `handleSubmit` once the rules have been applied: commits
     * the validated error map and, when every rule passed, captures the map
     * the handler closed over, enters the submitting state and hands over the
     * request.
     */
    method SubmitChecked(checks: Checks, body: LoginRequest) returns (request: Option<LoginRequest>)
      modifies this`errors, this`isSubmitting, this`submitSuccess, this`errorsAtSubmit
      ensures errors == ValidatedErrors(old(errors), checks)
      ensures request == (if checks.AllPass() then Some(body) else None)
      ensures isSubmitting == (old(isSubmitting) || checks.AllPass())
      ensures submitSuccess == (old(submitSuccess) && !checks.AllPass())
      ensures errorsAtSubmit == (if checks.AllPass() then old(errors) else old(errorsAtSubmit))
      ensures request.Some? ==> errorsAtSubmit == errors
    {
      var captured := errors;
      var valid, newErrors := Validate(errors, checks);
      errors := newErrors;
      if !valid {
        return None;
      }
      errorsAtSubmit := captured;
      isSubmitting := true;
      submitSuccess := false;
      request := Some(body);
    }

    /**
     * `handleSubmit` once the server has answered: on success the token is
     * stored, the form cleared and the page navigates to "/dashboard"; on
     * failure the error map is rebuilt from the captured one. Either way the
     * page leaves the submitting state.
     */
    method CompleteSubmit(outcome: LoginOutcome) returns (navigateTo: Option<string>)
      requires isSubmitting
      modifies this
      ensures !isSubmitting && errorsAtSubmit == old(errorsAtSubmit)
      ensures outcome.LoggedIn? ==>
        && storedToken == Some(outcome.token) && submitSuccess && form == EmptyForm
        && errors == old(errors) && navigateTo == Some("/dashboard")
      ensures outcome.LoginFailed? ==>
        && storedToken == old(storedToken) && submitSuccess == old(submitSuccess)
        && form == old(form) && navigateTo == None
        && errors == ErrorsAfterFailure(old(errors), errorsAtSubmit, outcome.message, outcome.fieldErrors)
    {
      isSubmitting := false;
      match outcome
      case LoggedIn(token) =>
        storedToken := Some(token);
        submitSuccess := true;
        form := EmptyForm;
        navigateTo := Some("/dashboard");
      case LoginFailed(message, fieldErrors) =>
        errors := ErrorsAfterFailure(errors, errorsAtSubmit, message, fieldErrors);
        navigateTo := None;
    }
  }
}
