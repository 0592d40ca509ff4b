/**
 * The field checks the register and login forms share, and the messages they
 * produce. A check yields the message for the first rule the value breaks, or
 * `None` when the value passes.
 */
module Validation {
  import opened Options
  import opened Strings
  import opened EmailPattern

  const UsernameRequired := "Username is required"
  const UsernameTooShort := "Username must be at least 3 characters"
  const EmailRequired := "Email is required"
  const EmailInvalid := "Please enter a valid email address"
  const PasswordRequired := "Password is required"
  const PasswordTooShort := "Password must be at least 6 characters"

  /** The username check: blank after trimming, else at least three characters counted before trimming. */
  function UsernameError(username: string): (r: Option<string>)
    ensures r == None <==> !IsBlank(username) && |username| >= 3
    ensures r != None ==> r == Some(if IsBlank(username) then UsernameRequired else UsernameTooShort)
  {
    if IsBlank(username) then Some(UsernameRequired)
    else if |username| < 3 then Some(UsernameTooShort)
    else None
  }

  /** The e-mail check: blank after trimming, else it must match the pattern untrimmed. */
  function EmailError(email: string): (r: Option<string>)
    ensures r == None <==> !IsBlank(email) && MatchesEmailRegex(email)
    ensures r == None ==> Trim(email) == email
    ensures r != None ==> r == Some(if IsBlank(email) then EmailRequired else EmailInvalid)
  {
    if IsBlank(email) then Some(EmailRequired)
    else if !EmailRegexTest(email) then Some(EmailInvalid)
    else (MatchShape(email); None)
  }

  /** The password check: untrimmed, so six spaces pass. */
  function PasswordError(password: string): (r: Option<string>)
    ensures r == None <==> |password| >= 6
    ensures r != None ==> r == Some(if password == "" then PasswordRequired else PasswordTooShort)
  {
    if password == "" then Some(PasswordRequired)
    else if |password| < 6 then Some(PasswordTooShort)
    else None
  }

  /** An address padded with a space is "invalid", not "required". */
  lemma PaddedEmailIsInvalid()
    ensures EmailError(" ann@mail.com") == Some(EmailInvalid)
  {
    assert !IsWhitespace(" ann@mail.com"[1]);
    RejectedExamples();
  }

  /** A blank address is "required". */
  lemma BlankEmailIsRequired()
    ensures EmailError("   ") == Some(EmailRequired)
  {
    assert forall i :: 0 <= i < 3 ==> "   "[i] == ' ';
  }

  /** The password is not trimmed: white space counts toward its length. */
  lemma PasswordNotTrimmed()
    ensures PasswordError("      ") == None
    ensures PasswordError("  ") == Some(PasswordTooShort)
  {
  }
}
