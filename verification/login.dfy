/**
 * The sign-in / sign-up form: the client-side checks run before anything is
 * sent, the endpoint the form posts to, and what a successful or refused
 * answer does to the form and to local storage.
 */
module Login {
  import opened Wrappers
  import opened Text

  datatype FormData = FormData(name: string, email: string, password: string)

  /** The user record the authentication endpoints answer with. */
  datatype UserInfo = UserInfo(id: string, email: string, name: string)

  /** The answer to the posted form: a token and user, or a refusal whose `detail` may be missing or empty. */
  datatype AuthOutcome = Authenticated(token: string, user: UserInfo) | Refused(detail: Option<string>)

  /** The request the form posts. */
  datatype Request = Request(endpoint: string, body: FormData)

  const RequiredMessage := "Email and password are required"
  const NameMessage := "Name is required for signup"
  const PasswordMessage := "Password must be at least 6 characters"
  const EmailMessage := "Please enter a valid email address"
  const FallbackMessage := "Authentication failed"

  const MinPasswordLength := 6

  /** A character the email pattern accepts outside the `@`: neither whitespace nor `@`. */
  predicate EmailChar(c: char) {
    !IsSpace(c) && c != '@'
  }

  /**
   * What the pattern `^[^\s@]+@[^\s@]+\.[^\s@]+$` accepts: a non-empty local
   * part, one `@`, a non-empty domain name, a dot, and a non-empty ending,
   * with no whitespace and no other `@` anywhere.
   */
  ghost predicate MatchesEmailPattern(s: string) {
    exists i, j | 0 < i && i + 1 < j && j + 1 < |s| ::
      && s[i] == '@' && s[j] == '.'
      && forall k | 0 <= k < |s| && k != i :: EmailChar(s[k])
  }

  /**
   * The email check as a computation: the text holds no whitespace, its first
   * `@` has a non-empty local part before it, the domain after it holds no
   * second `@`, and a dot sits inside the domain with at least one character
   * on either side.
   */
  predicate IsValidEmail(s: string) {
    && NoSpace(s)
    && match IndexOf(s, "@")
       case None => false
       case Some(i) =>
         var domain := s[i + 1..];
         && i > 0
         && !Contains(domain, "@")
         && |domain| >= 3
         && Contains(domain[1..|domain| - 1], ".")
  }

  /** The computed check accepts exactly the addresses the pattern matches. */
  lemma EmailCheckMatchesPattern(s: string)
    ensures IsValidEmail(s) <==> MatchesEmailPattern(s)
  {
    if IsValidEmail(s) {
      ValidEmailMatches(s);
    }
    if MatchesEmailPattern(s) {
      MatchedEmailIsValid(s);
    }
  }

  lemma ValidEmailMatches(s: string)
    requires IsValidEmail(s)
    ensures MatchesEmailPattern(s)
  {
    var i := IndexOf(s, "@").value;
    var domain := s[i + 1..];
    var middle := domain[1..|domain| - 1];
    ContainsChar(middle, '.');
    var m :| 0 <= m < |middle| && middle[m] == '.';
    var j := i + 2 + m;
    assert s[j] == '.';
    OccursAtChar(s, '@', i);
    forall k | 0 <= k < |s| && k != i ensures EmailChar(s[k]) {
      assert !IsSpace(s[k]);
      if k < i {
        OccursAtChar(s, '@', k);
      } else {
        ContainsChar(domain, '@');
        assert domain[k - i - 1] == s[k];
      }
    }
  }

  lemma MatchedEmailIsValid(s: string)
    requires MatchesEmailPattern(s)
    ensures IsValidEmail(s)
  {
    var i, j :| 0 < i && i + 1 < j && j + 1 < |s| && s[i] == '@' && s[j] == '.'
      && forall k | 0 <= k < |s| && k != i :: EmailChar(s[k]);
    OccursAtChar(s, '@', i);
    var first := IndexOf(s, "@").value;
    OccursAtChar(s, '@', first);
    assert first == i;
    var domain := s[i + 1..];
    forall k | 0 <= k < |domain| ensures domain[k] != '@' {
      assert domain[k] == s[i + 1 + k];
    }
    ContainsChar(domain, '@');
    var middle := domain[1..|domain| - 1];
    assert middle[j - i - 2] == '.';
    ContainsChar(middle, '.');
  }

  /** Every client-side check passes. */
  ghost predicate Acceptable(form: FormData, isSignup: bool) {
    && form.email != "" && form.password != ""
    && (isSignup ==> form.name != "")
    && |form.password| >= MinPasswordLength
    && MatchesEmailPattern(form.email)
  }

  /** The checks in the order the form runs them; the first failing one names the error. */
  function ValidateForm(form: FormData, isSignup: bool): (error: Option<string>)
    ensures error.None? <==> Acceptable(form, isSignup)
    ensures error.Some? ==> error.value in {RequiredMessage, NameMessage, PasswordMessage, EmailMessage}
  {
    EmailCheckMatchesPattern(form.email);
    if form.email == "" || form.password == "" then Some(RequiredMessage)
    else if isSignup && form.name == "" then Some(NameMessage)
    else if |form.password| < MinPasswordLength then Some(PasswordMessage)
    else if !IsValidEmail(form.email) then Some(EmailMessage)
    else None
  }

  /** A missing email or password is reported before anything else. */
  lemma MissingCredentialsFirst(form: FormData, isSignup: bool)
    ensures ValidateForm(form, isSignup) == Some(RequiredMessage) <==> form.email == "" || form.password == ""
  {
  }

  /** A too-short password is reported only once both credentials and, for sign-up, the name are given. */
  lemma ShortPasswordReported(form: FormData, isSignup: bool)
    ensures ValidateForm(form, isSignup) == Some(PasswordMessage) <==>
      form.email != "" && form.password != "" && (isSignup ==> form.name != "")
      && |form.password| < MinPasswordLength
  {
  }

  /** The missing-name message appears only in sign-up mode, once both credentials are given. */
  lemma NameReported(form: FormData, isSignup: bool)
    ensures ValidateForm(form, isSignup) == Some(NameMessage) <==>
      form.email != "" && form.password != "" && isSignup && form.name == ""
  {
  }

  /** A malformed email is reported only once every other check has passed. */
  lemma InvalidEmailReported(form: FormData, isSignup: bool)
    ensures ValidateForm(form, isSignup) == Some(EmailMessage) <==>
      && form.email != "" && form.password != "" && (isSignup ==> form.name != "")
      && |form.password| >= MinPasswordLength
      && !MatchesEmailPattern(form.email)
  {
    EmailCheckMatchesPattern(form.email);
  }

  /** Signing in never looks at the name. */
  lemma LoginIgnoresName(form: FormData, name: string)
    ensures ValidateForm(form, false) == ValidateForm(form.(name := name), false)
  {
  }

  /** A form good enough for sign-up is good enough for sign-in. */
  lemma SignupIsStricter(form: FormData)
    ensures ValidateForm(form, true).None? ==> ValidateForm(form, false).None?
  {
  }

  /** Sign-up and sign-in post to their own endpoints. */
  function Endpoint(isSignup: bool): (path: string)
    ensures StartsWith(path, "/auth/")
    ensures isSignup <==> path == "/auth/signup"
    ensures !isSignup <==> path == "/auth/login"
  {
    if isSignup then "/auth/signup" else "/auth/login"
  }

  /** The error a refusal shows: the back end's detail, or a fixed text when it is missing or empty. */
  function RefusalMessage(detail: Option<string>): (msg: string)
    ensures msg != ""
    ensures detail.Some? && detail.value != "" ==> msg == detail.value
    ensures detail.None? || detail.value == "" ==> msg == FallbackMessage
  {
    if detail.Some? && detail.value != "" then detail.value else FallbackMessage
  }

  class LoginForm {
    var isSignup: bool
    var formData: FormData
    var error: string
    var loading: bool
    /** The `token` entry of local storage. */
    var storedToken: Option<string>
    /** The `user` entry of local storage. */
    var storedUser: Option<string>

    constructor (storedToken: Option<string>, storedUser: Option<string>)
      ensures !isSignup && formData == FormData("", "", "")
      ensures error == "" && !loading
      ensures this.storedToken == storedToken && this.storedUser == storedUser
    {
      isSignup := false;
      formData := FormData("", "", "");
      error := "";
      loading := false;
      this.storedToken := storedToken;
      this.storedUser := storedUser;
    }

    /** Switches between sign-in and sign-up; the fields and the error stay. */
    method ToggleMode()
      modifies this`isSignup
      ensures isSignup == !old(isSignup)
    {
      isSignup := !isSignup;
    }

    method SetName(name: string)
      modifies this`formData
      ensures formData == old(formData).(name := name)
    {
      formData := formData.(name := name);
    }

    method SetEmail(email: string)
      modifies this`formData
      ensures formData == old(formData).(email := email)
    {
      formData := formData.(email := email);
    }

    method SetPassword(password: string)
      modifies this`formData
      ensures formData == old(formData).(password := password)
    {
      formData := formData.(password := password);
    }

    /**
     * Submits the form. A form that fails a check sends nothing and shows the
     * first failure. Otherwise the whole form is posted to the mode's
     * endpoint; on success the token and the encoded user are stored and the
     * user is handed on, on refusal the error is shown. Loading ends either way.
     */
    method HandleSubmit(outcome: AuthOutcome, encodeUser: UserInfo -> string)
      returns (request: Option<Request>, signedIn: Option<UserInfo>)
      modifies this`error, this`loading, this`storedToken, this`storedUser
      ensures !loading || (old(loading) && request.None?)
      ensures ValidateForm(formData, isSignup).Some? ==>
        && request.None? && signedIn.None?
        && error == ValidateForm(formData, isSignup).value
        && loading == old(loading)
        && storedToken == old(storedToken) && storedUser == old(storedUser)
      ensures ValidateForm(formData, isSignup).None? ==>
        && request == Some(Request(Endpoint(isSignup), formData))
        && !loading
      ensures ValidateForm(formData, isSignup).None? && outcome.Authenticated? ==>
        && signedIn == Some(outcome.user) && error == ""
        && storedToken == Some(outcome.token) && storedUser == Some(encodeUser(outcome.user))
      ensures ValidateForm(formData, isSignup).None? && outcome.Refused? ==>
        && signedIn.None? && error == RefusalMessage(outcome.detail)
        && storedToken == old(storedToken) && storedUser == old(storedUser)
    {
      error := "";
      var invalid := ValidateForm(formData, isSignup);
      if invalid.Some? {
        error := invalid.value;
        return None, None;
      }
      loading := true;
      request := Some(Request(Endpoint(isSignup), formData));
      match outcome {
        case Authenticated(token, user) =>
          storedToken := Some(token);
          storedUser := Some(encodeUser(user));
          signedIn := Some(user);
        case Refused(detail) =>
          error := RefusalMessage(detail);
          signedIn := None;
      }
      loading := false;
    }
  }
}
