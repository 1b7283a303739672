/**
 * The sign-in and password-reset forms: the checks they make before
 * calling the authentication service, the messages they show for its
 * error codes, and the remembered e-mail list kept in local storage.
 * The authentication service is not modelled; its answer is a parameter.
 */
module Credentials {
  import opened Wrappers
  import opened Strings

  /** The two accepted e-mail domains. */
  const NitkDomain: string := "nitk.edu.in"
  const GmailDomain: string := "gmail.com"

  const MinPasswordLength: nat := 6
  const ShortPasswordError: string := "Password must be at least 6 characters long"
  const DomainError: string := "Please use your NITK email (@nitk.edu.in) or Gmail account"
  const DomainToast: string := "Invalid email domain"

  /** `email.split('@')[1]`: the piece after the first `@`, `undefined` when there is none. */
  function EmailDomain(email: string): Option<string> {
    var parts := Split(email, '@');
    if |parts| >= 2 then Some(parts[1]) else None
  }

  /**
   * The domain is absent exactly when the address has no `@`; otherwise it
   * is the text from just after the first `@` up to the next `@` or the end.
   */
  lemma EmailDomainSpec(email: string)
    ensures EmailDomain(email).None? <==> '@' !in email
    ensures EmailDomain(email).Some? ==>
      var d := EmailDomain(email).value;
      exists i :: 0 <= i < |email| && email[i] == '@' && '@' !in email[..i] &&
        StartsWith(email[i + 1..], d) && '@' !in d &&
        (i + 1 + |d| == |email| || email[i + 1 + |d|] == '@')
  {
    SplitSingle(email, '@');
    if '@' in email {
      var i := FirstAt(email);
      SplitAtFirst(email, '@', i);
      SplitHead(email[i + 1..], '@');
    }
  }

  /** The index of the first `@` of an address that has one. */
  function FirstAt(email: string): (i: nat)
    requires '@' in email
    ensures i < |email| && email[i] == '@' && '@' !in email[..i]
  {
    if email[0] == '@' then 0
    else
      assert email == [email[0]] + email[1..];
      1 + FirstAt(email[1..])
  }

  /** Conversely, the text between the first `@` and the next `@` (or the end) is the domain. */
  lemma EmailDomainOf(local: string, domain: string, tail: string)
    requires '@' !in local && '@' !in domain
    requires tail == "" || tail[0] == '@'
    ensures EmailDomain(local + "@" + domain + tail) == Some(domain)
  {
    var email := local + "@" + domain + tail;
    var i := |local|;
    assert email[..i] == local && email[i] == '@';
    SplitAtFirst(email, '@', i);
    var after := email[i + 1..];
    assert after == domain + tail;
    if tail == "" {
      assert after == domain;
      SplitSingle(after, '@');
      JoinSplit(after, '@');
      assert Split(after, '@') == [after];
    } else {
      assert after[..|domain|] == domain;
      SplitAtFirst(after, '@', |domain|);
    }
  }

  /** An address with no `@` has no domain, so neither form accepts it. */
  lemma NoAtNotAllowed(email: string)
    requires '@' !in email
    ensures !AllowedDomain(email)
  {
    EmailDomainSpec(email);
  }

  /** An address whose domain piece is one of the two accepted domains is accepted. */
  lemma AcceptedDomainPiece(email: string, local: string, domain: string, tail: string)
    requires '@' !in local && (domain == NitkDomain || domain == GmailDomain)
    requires tail == "" || tail[0] == '@'
    requires email == local + "@" + domain + tail
    ensures AllowedDomain(email)
  {
    EmailDomainOf(local, domain, tail);
  }

  /** Only the piece after the first `@` is checked: a later `@` and what follows it are ignored. */
  lemma DomainCheckReadsSecondPiece()
    ensures AllowedDomain("student@" + GmailDomain + "@example.org")
    ensures AllowedDomain("student@" + NitkDomain)
    ensures !AllowedDomain("student." + GmailDomain)
  {
    AcceptedDomainPiece("student@" + GmailDomain + "@example.org", "student", GmailDomain, "@example.org");
    AcceptedDomainPiece("student@" + NitkDomain, "student", NitkDomain, "");
    NoAtNotAllowed("student." + GmailDomain);
  }

  /** The domain test both forms make. */
  predicate AllowedDomain(email: string) {
    EmailDomain(email) == Some(NitkDomain) || EmailDomain(email) == Some(GmailDomain)
  }

  /** A check that stops a form: the error shown under it and the toast. */
  datatype Rejection = Rejection(error: string, toast: string)

  /** The sign-in checks, password length first, then the domain. */
  function ValidateSignIn(email: string, password: string): (r: Result<(), Rejection>)
    ensures r.Ok? <==> |password| >= MinPasswordLength && AllowedDomain(email)
    ensures |password| < MinPasswordLength ==> r == Err(Rejection(ShortPasswordError, ShortPasswordError))
    ensures |password| >= MinPasswordLength && !AllowedDomain(email) ==> r == Err(Rejection(DomainError, DomainToast))
  {
    if |password| < MinPasswordLength then Err(Rejection(ShortPasswordError, ShortPasswordError))
    else if !AllowedDomain(email) then Err(Rejection(DomainError, DomainToast))
    else Ok(())
  }

  /** The reset check: the domain alone. */
  function ValidateReset(email: string): (r: Result<(), Rejection>)
    ensures r.Ok? <==> AllowedDomain(email)
    ensures r.Err? ==> r.error == Rejection(DomainError, DomainToast)
  {
    if !AllowedDomain(email) then Err(Rejection(DomainError, DomainToast)) else Ok(())
  }

  /** The two forms agree on the domain rule: any password of six or more characters leaves the verdict to it. */
  lemma SignInAndResetAgreeOnDomain(email: string, password: string)
    requires |password| >= MinPasswordLength
    ensures ValidateSignIn(email, password).Ok? <==> ValidateReset(email).Ok?
    ensures ValidateSignIn(email, password).Err? ==> ValidateSignIn(email, password) == ValidateReset(email)
  {
  }

  /** An error raised by the authentication service. */
  datatype AuthError = AuthError(code: string, message: string)

  /** The answer of the authentication service to one request. */
  datatype AuthAnswer = Accepted | Refused(err: AuthError)

  /** The text under a form; some sign-in errors carry a button to the registration page. */
  datatype Notice = Notice(text: string, registerLink: bool)

  /** The sign-in codes with a dedicated message. */
  const SignInCodes: seq<string> := [
    "auth/invalid-credential", "auth/invalid-email", "auth/user-disabled", "auth/user-not-found",
    "auth/wrong-password", "auth/too-many-requests", "auth/network-request-failed"
  ]

  /** The sign-in form's notice and toast for a refused login from an address whose domain is `domain`. */
  function SignInFailure(err: AuthError, domain: Option<string>): (Notice, string) {
    match err.code
    case "auth/invalid-credential" =>
      if domain == Some(NitkDomain)
      then (Notice("NITK account not found. Please register here with your NITK email", true), "Invalid credentials")
      else (Notice("Invalid email or password. Please check your credentials.", false), "Invalid credentials")
    case "auth/invalid-email" => (Notice("Please enter a valid email address", false), "Invalid email format")
    case "auth/user-disabled" => (Notice("This account has been disabled. Please contact support.", false), "Account disabled")
    case "auth/user-not-found" => (Notice("No account found with this email. Register here", true), "Account not found")
    case "auth/wrong-password" =>
      (Notice("Incorrect password. Please try again or reset your password.", false), "Incorrect password")
    case "auth/too-many-requests" =>
      (Notice("Too many failed attempts. Please try again later or reset your password.", false), "Too many attempts")
    case "auth/network-request-failed" =>
      (Notice("Network error. Please check your internet connection.", false), "Network error")
    case _ => (Notice("Authentication Error: " + err.message, false), "Sign in failed")
  }

  /**
   * A refused sign-in offers registration exactly for an unknown account
   * or for bad credentials on an NITK address; any other code reports the
   * service's own message.
   */
  lemma SignInFailureSpec(err: AuthError, domain: Option<string>)
    ensures SignInFailure(err, domain).0.registerLink <==>
      err.code == "auth/user-not-found" || (err.code == "auth/invalid-credential" && domain == Some(NitkDomain))
    ensures err.code !in SignInCodes ==>
      SignInFailure(err, domain) == (Notice("Authentication Error: " + err.message, false), "Sign in failed")
    ensures err.code in SignInCodes ==> SignInFailure(err, domain).1 != "Sign in failed"
  {
  }

  /** The reset form's error and toast for a refused reset. */
  function ResetFailure(err: AuthError): (r: Rejection)
    ensures err.code == "auth/user-not-found" ==> r.error == "No account found with this email"
    ensures err.code == "auth/invalid-email" ==> r.error == "Please enter a valid email address"
    ensures err.code != "auth/user-not-found" && err.code != "auth/invalid-email" ==>
      r == Rejection("Failed to reset password", "Password reset failed")
  {
    match err.code
    case "auth/user-not-found" => Rejection("No account found with this email", "Account not found")
    case "auth/invalid-email" => Rejection("Please enter a valid email address", "Invalid email format")
    case _ => Rejection("Failed to reset password", "Password reset failed")
  }

  /** The `savedEmails` list after typing `value`: appended only when it is not already there. */
  function RememberEmail(saved: seq<string>, value: string): (r: seq<string>)
    ensures value in r
    ensures value in saved ==> r == saved
    ensures value !in saved ==> r == saved + [value]
    ensures forall x :: x in r <==> x in saved || x == value
    ensures |saved| <= |r| <= |saved| + 1 && r[..|saved|] == saved
  {
    if value in saved then saved else saved + [value]
  }

  /** A list without repeats stays without repeats, and remembering twice is remembering once. */
  lemma RememberEmailKeepsDistinct(saved: seq<string>, value: string)
    ensures Distinct(saved) ==> Distinct(RememberEmail(saved, value))
    ensures RememberEmail(RememberEmail(saved, value), value) == RememberEmail(saved, value)
  {
  }

  /** No entry appears twice. */
  predicate Distinct(s: seq<string>) {
    forall i, j :: 0 <= i < j < |s| ==> s[i] != s[j]
  }

  /** Where a form sends the browser. */
  const UploadRoute: string := "/upload"

  /** The sign-in form: its fields, its error text, its loading flag and the remembered addresses. */
  class SignInForm {
    var email: string
    var password: string
    var rememberMe: bool
    var error: Notice
    var loading: bool
    var savedEmails: seq<string>

    /** An empty form over the addresses already in local storage. */
    constructor (saved: seq<string>)
      ensures email == "" && password == "" && !rememberMe
      ensures error == Notice("", false) && !loading && savedEmails == saved
    {
      email := "";
      password := "";
      rememberMe := false;
      error := Notice("", false);
      loading := false;
      savedEmails := saved;
    }

    /** `handleEmailInput`: the new address, remembered when "Remember me" is already ticked. */
    method HandleEmailInput(value: string)
      modifies this
      ensures email == value
      ensures savedEmails == if old(rememberMe) then RememberEmail(old(savedEmails), value) else old(savedEmails)
      ensures password == old(password) && rememberMe == old(rememberMe)
      ensures error == old(error) && loading == old(loading)
    {
      email := value;
      if rememberMe {
        if value !in savedEmails {
          savedEmails := savedEmails + [value];
        }
      }
    }

    /** The password field and the "Remember me" box. */
    method SetPassword(value: string)
      modifies this`password
      ensures password == value
    {
      password := value;
    }

    method SetRememberMe(checked: bool)
      modifies this`rememberMe
      ensures rememberMe == checked
    {
      rememberMe := checked;
    }

    /**
     * `handleSignIn`: a failed check sets its error and contacts no one;
     * otherwise the service is asked, success goes to the upload page,
     * a refusal shows its notice, and loading ends false either way.
     */
    method HandleSignIn(answer: AuthAnswer) returns (asked: bool, route: Option<string>, toast: string)
      modifies this`error, this`loading
      ensures asked <==> ValidateSignIn(old(email), old(password)).Ok?
      ensures !asked ==>
        var rej := ValidateSignIn(email, password).error;
        error == Notice(rej.error, false) && toast == rej.toast && loading == old(loading) && route.None?
      ensures asked ==> !loading
      ensures asked && answer.Accepted? ==>
        route == Some(UploadRoute) && error == Notice("", false) && toast == "Successfully logged in!"
      ensures asked && answer.Refused? ==>
        route.None? && (error, toast) == SignInFailure(answer.err, EmailDomain(email))
    {
      var check := ValidateSignIn(email, password);
      if check.Err? {
        error := Notice(check.error.error, false);
        return false, None, check.error.toast;
      }
      error := Notice("", false);
      loading := true;
      match answer {
        case Accepted =>
          route := Some(UploadRoute);
          toast := "Successfully logged in!";
        case Refused(err) =>
          var failure := SignInFailure(err, EmailDomain(email));
          error := failure.0;
          toast := failure.1;
          route := None;
      }
      loading := false;
      asked := true;
    }
  }

  /** The password-reset form. */
  class ResetForm {
    var email: string
    var rememberMe: bool
    var error: string
    var message: string
    var loading: bool
    var savedEmails: seq<string>

    constructor (saved: seq<string>)
      ensures email == "" && !rememberMe && error == "" && message == "" && !loading && savedEmails == saved
    {
      email := "";
      rememberMe := false;
      error := "";
      message := "";
      loading := false;
      savedEmails := saved;
    }

    /** `handleEmailInput`, with the same remembering rule as the sign-in form. */
    method HandleEmailInput(value: string)
      modifies this
      ensures email == value
      ensures savedEmails == if old(rememberMe) then RememberEmail(old(savedEmails), value) else old(savedEmails)
      ensures rememberMe == old(rememberMe) && error == old(error) && message == old(message) && loading == old(loading)
    {
      email := value;
      if rememberMe {
        if value !in savedEmails {
          savedEmails := savedEmails + [value];
        }
      }
    }

    method SetRememberMe(checked: bool)
      modifies this`rememberMe
      ensures rememberMe == checked
    {
      rememberMe := checked;
    }

    /**
     * `handleSubmit`: a rejected domain sets the error and leaves the old
     * message; otherwise message and error are cleared before the request,
     * success sets the inbox message, a refusal its error, and loading
     * ends false.
     */
    method HandleSubmit(answer: AuthAnswer) returns (asked: bool, toast: string)
      modifies this`error, this`message, this`loading
      ensures asked <==> ValidateReset(old(email)).Ok?
      ensures !asked ==>
        error == DomainError && toast == DomainToast && message == old(message) && loading == old(loading)
      ensures asked ==> !loading
      ensures asked && answer.Accepted? ==>
        message == "Check your inbox for further instructions" && error == "" && toast == "Password reset email sent!"
      ensures asked && answer.Refused? ==>
        message == "" && Rejection(error, toast) == ResetFailure(answer.err)
    {
      var check := ValidateReset(email);
      if check.Err? {
        error := check.error.error;
        return false, check.error.toast;
      }
      message := "";
      error := "";
      loading := true;
      match answer {
        case Accepted =>
          message := "Check your inbox for further instructions";
          toast := "Password reset email sent!";
        case Refused(err) =>
          var failure := ResetFailure(err);
          error := failure.error;
          toast := failure.toast;
      }
      loading := false;
      asked := true;
    }
  }
}
