/**
 * The sign-in form of src/components/auth/LoginForm.tsx: its state, the
 * field validation, and the page it sends a signed-in person to.
 */
module LoginForm {
  import opened Types
  import TextUtils
  import Middleware

  /** The error shown under each field, if any. */
  datatype FieldErrors = FieldErrors(email: Option<string>, password: Option<string>)

  const EmailRequired := "Email is required"
  const InvalidEmail := "Invalid email format"
  const PasswordRequired := "Password is required"
  const PasswordTooShort := "Password must be at least 6 characters"

  /** The email field's error: a missing address first, then a malformed one. */
  function EmailError(email: string): (e: Option<string>)
    ensures e == Some(EmailRequired) <==> email == ""
    ensures e == Some(InvalidEmail) <==> email != "" && !TextUtils.IsValidEmail(email)
    ensures e.None? <==> email != "" && TextUtils.IsValidEmail(email)
  {
    if email == "" then Some(EmailRequired)
    else if !TextUtils.IsValidEmail(email) then Some(InvalidEmail)
    else None
  }

  /** The password field's error: a missing password first, then one under six characters. */
  function PasswordError(password: string): (e: Option<string>)
    ensures e == Some(PasswordRequired) <==> password == ""
    ensures e == Some(PasswordTooShort) <==> 0 < |password| < 6
    ensures e.None? <==> |password| >= 6
  {
    if password == "" then Some(PasswordRequired)
    else if |password| < 6 then Some(PasswordTooShort)
    else None
  }

  /** Where a signed-in person goes: the admin area for an admin, the employee area otherwise. */
  function PostLoginRedirect(role: Option<Role>): (target: string)
    ensures target == "/admin" <==> IsAdmin(role)
    ensures target == "/employee" <==> !IsAdmin(role)
  {
    if IsAdmin(role) then "/admin" else "/employee"
  }

  /**
   * The form and the route guard agree: the page the form sends a person to is
   * the one the guard sends them to from the sign-in page, and the guard lets
   * them stay there.
   */
  lemma {:induction false} RedirectAgreesWithGuard(role: Option<Role>)
    ensures Middleware.Decide(true, role, "/login") == Middleware.Redirect(PostLoginRedirect(role))
    ensures Middleware.Decide(true, role, PostLoginRedirect(role)) == Middleware.PassThrough
  {
    assert Middleware.IsAuthPage("/login");
    Middleware.NoRedirectLoop(true, role, "/login");
  }

  /** What the sign-in request answered. */
  datatype SignIn = SignInError(message: string) | SignedIn(role: Option<Role>) | NoUser

  /** What a submit did: whether sign-in was attempted and where the browser was sent. */
  datatype Submission = Submission(attempted: bool, navigateTo: Option<string>)

  class Form {
    var email: string
    var password: string
    var loading: bool
    var errors: FieldErrors

    constructor ()
      ensures email == "" && password == "" && !loading && errors == FieldErrors(None, None)
    {
      email, password, loading, errors := "", "", false, FieldErrors(None, None);
    }

    /** `validate`: records each field's error and reports whether there is none. */
    method Validate() returns (ok: bool)
      modifies this`errors
      ensures errors == FieldErrors(EmailError(email), PasswordError(password))
      ensures ok <==> errors.email.None? && errors.password.None?
      ensures ok <==> email != "" && TextUtils.IsValidEmail(email) && |password| >= 6
    {
      var newErrors := FieldErrors(None, None);
      if email == "" {
        newErrors := newErrors.(email := Some(EmailRequired));
      } else if !TextUtils.IsValidEmail(email) {
        newErrors := newErrors.(email := Some(InvalidEmail));
      }
      if password == "" {
        newErrors := newErrors.(password := Some(PasswordRequired));
      } else if |password| < 6 {
        newErrors := newErrors.(password := Some(PasswordTooShort));
      }
      errors := newErrors;
      ok := newErrors.email.None? && newErrors.password.None?;
    }

    /**
     * `handleSubmit`. `signIn` is the authentication service's answer and is
     * only consulted when validation passes; a signed-in person is sent to the
     * page of their role.
     */
    method HandleSubmit(signIn: SignIn) returns (s: Submission)
      modifies this`errors, this`loading
      ensures errors == FieldErrors(EmailError(email), PasswordError(password))
      ensures s.attempted <==> errors.email.None? && errors.password.None?
      ensures s.navigateTo.Some? <==> s.attempted && signIn.SignedIn?
      ensures s.navigateTo.Some? ==> s.navigateTo.value == PostLoginRedirect(signIn.role)
      ensures s.attempted ==> !loading
      ensures !s.attempted ==> loading == old(loading)
    {
      var ok := Validate();
      if !ok {
        return Submission(false, None);
      }
      loading := true;
      if signIn.SignedIn? {
        s := Submission(true, Some(PostLoginRedirect(signIn.role)));
      } else {
        s := Submission(true, None);
      }
      loading := false;
    }
  }
}
