/**
 * The `login` and `signup` server actions. Each reads the email and
 * password from the submitted form, asks the auth service to sign in or
 * sign up, and ends in exactly one redirect. The auth service's answer is a
 * parameter: `None` when it reported no error, `Some(message)` otherwise.
 */
module LoginActions {
  import opened Wrappers
  import Uri

  datatype AuthKind = SignInWithPassword | SignUp

  /** What an action does, in order. `redirect` throws, so nothing follows a `Redirect`. */
  datatype Effect =
    | Authenticate(kind: AuthKind, email: string, password: string)
    | RevalidateLayout(path: string)
    | Redirect(url: string)

  const MissingCredentialsUrl: string := "/error?message=Email and password are required"
  const ErrorPrefix: string := "/error?message="
  const AccountPath: string := "/account"

  /** A form field the action accepts: present and not the empty string (a falsy value fails `!email`). */
  predicate IsFilled(field: Option<string>) {
    field.Some? && field.value != ""
  }

  /** The error page URL carrying an auth error message. */
  function ErrorUrl(message: string): string {
    ErrorPrefix + Uri.EncodeURIComponent(message)
  }

  /** A trace that ends in its one and only redirect. */
  predicate EndsInOneRedirect(trace: seq<Effect>) {
    |trace| >= 1 && trace[|trace| - 1].Redirect?
    && forall i :: 0 <= i < |trace| - 1 ==> !trace[i].Redirect?
  }

  /**
   * The body shared by `login` and `signup`. Missing credentials redirect to
   * the error page without calling the auth service; an auth error redirects
   * to the error page with the encoded message; success revalidates the root
   * layout and redirects to `/account`.
   */
  function Submit(kind: AuthKind, email: Option<string>, password: Option<string>, authError: Option<string>): (trace: seq<Effect>)
    ensures EndsInOneRedirect(trace)
    ensures !IsFilled(email) || !IsFilled(password) ==> trace == [Redirect(MissingCredentialsUrl)]
    ensures IsFilled(email) && IsFilled(password) ==>
      trace[0] == Authenticate(kind, email.value, password.value)
      && (authError.Some? ==> trace[1..] == [Redirect(ErrorUrl(authError.value))])
      && (authError.None? ==> trace[1..] == [RevalidateLayout("/"), Redirect(AccountPath)])
  {
    if !IsFilled(email) || !IsFilled(password) then
      [Redirect(MissingCredentialsUrl)]
    else
      var attempt := Authenticate(kind, email.value, password.value);
      match authError
      case Some(message) => [attempt, Redirect(ErrorUrl(message))]
      case None => [attempt, RevalidateLayout("/"), Redirect(AccountPath)]
  }

  /** Only a successful call reaches `/account`, and the auth service is asked exactly when both fields are filled. */
  lemma SubmitOutcomes(kind: AuthKind, email: Option<string>, password: Option<string>, authError: Option<string>)
    ensures var trace := Submit(kind, email, password, authError);
      && (trace[|trace| - 1] == Redirect(AccountPath) <==> IsFilled(email) && IsFilled(password) && authError.None?)
      && ((exists i :: 0 <= i < |trace| && trace[i].Authenticate?) <==> IsFilled(email) && IsFilled(password))
  {
    var trace := Submit(kind, email, password, authError);
    assert AccountPath[1] == 'a';
    if IsFilled(email) && IsFilled(password) {
      assert trace[0].Authenticate?;
      if authError.Some? {
        assert ErrorUrl(authError.value)[1] == 'e';
      }
    }
  }

  /** `login(formData)`: `Submit` with a password sign-in. */
  function Login(email: Option<string>, password: Option<string>, authError: Option<string>): (trace: seq<Effect>)
    ensures EndsInOneRedirect(trace)
    ensures trace[|trace| - 1] == Redirect(AccountPath) <==> IsFilled(email) && IsFilled(password) && authError.None?
    ensures (exists i :: 0 <= i < |trace| && trace[i].Authenticate?) <==> IsFilled(email) && IsFilled(password)
  {
    SubmitOutcomes(SignInWithPassword, email, password, authError);
    Submit(SignInWithPassword, email, password, authError)
  }

  /** `signup(formData)`: `Submit` with a sign-up. */
  function Signup(email: Option<string>, password: Option<string>, authError: Option<string>): (trace: seq<Effect>)
    ensures EndsInOneRedirect(trace)
    ensures trace[|trace| - 1] == Redirect(AccountPath) <==> IsFilled(email) && IsFilled(password) && authError.None?
    ensures (exists i :: 0 <= i < |trace| && trace[i].Authenticate?) <==> IsFilled(email) && IsFilled(password)
  {
    SubmitOutcomes(SignUp, email, password, authError);
    Submit(SignUp, email, password, authError)
  }

  /**
   * The error page receives the auth error message intact: the query value
   * after `message=` holds only URI-safe characters, so it is one parameter,
   * and it decodes to exactly the message.
   */
  lemma ErrorUrlCarriesMessage(message: string)
    ensures ErrorUrl(message)[..|ErrorPrefix|] == ErrorPrefix
    ensures forall i :: |ErrorPrefix| <= i < |ErrorUrl(message)| ==> Uri.IsUriSafe(ErrorUrl(message)[i])
    ensures Uri.DecodeURIComponent(ErrorUrl(message)[|ErrorPrefix|..]) == Some(message)
  {
    var url := ErrorUrl(message);
    assert url[|ErrorPrefix|..] == Uri.EncodeURIComponent(message);
    Uri.DecodeEncode(message);
  }
}
