/** The JSON account endpoints (routes/api/auth.js): signup without activation, the unrouted
    activation-required signup, login and logout. */
module ApiAuth {
  import opened Base
  import opened Externals
  import opened Messages
  import opened UserModel
  import opened Http

  const SignupFailed := "Signup failed."

  /** `validateSignup()`: the username is checked for blankness before it is trimmed, the email must be free
      (after normalization), and there is no confirmation check. */
  function SignupErrors(s: Store, sx: Sanitizers, f: UserForm): (r: seq<Msg>)
    requires EmailsUnique(s)
    ensures UsernameBlank in r <==> f.username == ""
    ensures EmailBlank in r <==> f.email == ""
    ensures EmailInvalid in r <==> !sx.isEmail(f.email)
    ensures EmailInUse in r <==> FindByEmail(s, sx.normalizeEmail(f.email)).Some?
    ensures PasswordShort in r <==> |f.password| < 6
    ensures ConfirmationMismatch !in r
    ensures r == [] <==> f.username != "" && f.email != "" && sx.isEmail(f.email)
                         && FindByEmail(s, sx.normalizeEmail(f.email)).None? && |f.password| >= 6
  {
    When(f.username == "", UsernameBlank)
    + When(f.email == "", EmailBlank)
    + When(!sx.isEmail(f.email), EmailInvalid)
    + When(FindByEmail(s, sx.normalizeEmail(f.email)).Some?, EmailInUse)
    + When(|f.password| < 6, PasswordShort)
  }

  /** The username as the API sanitizers leave it: trimmed, then HTML-escaped. */
  function CleanUsername(sx: Sanitizers, username: string): string {
    sx.escape(sx.trim(username))
  }

  /** The record API signup creates: the whole (sanitized) body, with the password replaced by its
      hash and `activated` forced to true. */
  function SignupRecord(env: Env, f: UserForm, now: int): User {
    User(CleanUsername(env.sx, f.username), env.sx.normalizeEmail(f.email), env.crypto.hash(f.password),
         f.role, f.activationToken, true, f.resetToken, f.resetSentAt, now, now)
  }

  /** `signup`: 422 with the errors and no change, or 201 with a token and the new user's
      `{id, username, role}`; a failing create answers 400. */
  function Signup(s: Store, env: Env, f: UserForm, id: Id, now: int): (r: Step<Store>)
    requires EmailsUnique(s)
    ensures EmailsUnique(r.store)
    ensures SignupErrors(s, env.sx, f) != [] ==> r == Step(s, Send(422, Errors(SignupErrors(s, env.sx, f)), Unchanged))
    ensures SignupErrors(s, env.sx, f) == [] && id in s ==> r == Step(s, Send(400, Text(SignupFailed), Unchanged))
    ensures SignupErrors(s, env.sx, f) == [] && id !in s ==>
              && r.store.Keys == s.Keys + {id}
              && (forall k :: k in s ==> r.store[k] == s[k])
              && r.store[id].activated
              && r.store[id].password == env.crypto.hash(f.password)
              && r.store[id].username == CleanUsername(env.sx, f.username)
              && r.store[id].email == env.sx.normalizeEmail(f.email)
              && r.store[id].role == f.role
              && r.store[id].activationToken == f.activationToken
              && r.store[id].resetToken == f.resetToken && r.store[id].resetSentAt == f.resetSentAt
              && r.response == Send(201, Issued(env.jwt.sign(Claims(id, r.store[id])), Claims(id, r.store[id])), Unchanged)
  {
    var errors := SignupErrors(s, env.sx, f);
    if errors != [] then Step(s, Send(422, Errors(errors), Unchanged))
    else
      var u := SignupRecord(env, f, now);
      match Create(s, id, u)
      case None => Step(s, Send(400, Text(SignupFailed), Unchanged))
      case Some(s') => Step(s', Send(201, Issued(env.jwt.sign(Claims(id, u)), Claims(id, u)), Unchanged))
  }

  /** `signupActivationRequired` (defined, not routed): builds the record from username, email,
      password hash and a fresh activation token only, so `activated` keeps its default, false,
      and no role or reset fields are stored. After the insert the handler calls
      `sendActivationEmail`, which this file neither defines nor imports (only routes/auth.js has
      one, module-local). The call throws, and the catch answers 400 "Signup failed." although the
      record is already stored; the "check your email" reply is never reached. */
  function SignupActivationRequired(s: Store, env: Env, f: UserForm, id: Id, token: RandomToken, now: int): (r: Step<Store>)
    requires EmailsUnique(s)
    ensures EmailsUnique(r.store)
    ensures SignupErrors(s, env.sx, f) != [] ==> r == Step(s, Send(422, Errors(SignupErrors(s, env.sx, f)), Unchanged))
    ensures SignupErrors(s, env.sx, f) == [] && id in s ==> r == Step(s, Send(400, Text(SignupFailed), Unchanged))
    ensures SignupErrors(s, env.sx, f) == [] && id !in s ==>
              && r.store.Keys == s.Keys + {id}
              && (forall k :: k in s ==> r.store[k] == s[k])
              && !r.store[id].activated
              && r.store[id].activationToken == Option<string>.Some(token)
              && r.store[id].role.None? && r.store[id].resetToken.None? && r.store[id].resetSentAt.None?
              && r.store[id].username == CleanUsername(env.sx, f.username)
              && r.store[id].email == env.sx.normalizeEmail(f.email)
              && r.store[id].password == env.crypto.hash(f.password)
              && r.response == Send(400, Text(SignupFailed), Unchanged)
  {
    var errors := SignupErrors(s, env.sx, f);
    if errors != [] then Step(s, Send(422, Errors(errors), Unchanged))
    else
      var u := User(CleanUsername(env.sx, f.username), env.sx.normalizeEmail(f.email), env.crypto.hash(f.password),
                    None, Some(token), false, None, None, now, now);
      match Create(s, id, u)
      case None => Step(s, Send(400, Text(SignupFailed), Unchanged))
      case Some(s') => Step(s', Send(400, Text(SignupFailed), Unchanged))
  }

  /** The activation-required signup stores the account yet tells the client it failed, and a
      retry with the same body is then refused because the email is taken. */
  lemma {:induction false} FailedActivationSignupKeepsAccount(s: Store, env: Env, f: UserForm, id: Id,
                                                              token: RandomToken, now: int, id2: Id)
    requires EmailsUnique(s)
    requires SignupErrors(s, env.sx, f) == [] && id !in s
    ensures var r := SignupActivationRequired(s, env, f, id, token, now);
            && r.response == Send(400, Text(SignupFailed), Unchanged)
            && id in r.store && FindByEmail(r.store, env.sx.normalizeEmail(f.email)) == Some(id)
            && SignupErrors(r.store, env.sx, f) == [EmailInUse]
            && SignupActivationRequired(r.store, env, f, id2, token, now)
               == Step(r.store, Send(422, Errors([EmailInUse]), Unchanged))
  {
    var r := SignupActivationRequired(s, env, f, id, token, now);
    assert r.store[id].email == env.sx.normalizeEmail(f.email);
    assert FindByEmail(r.store, env.sx.normalizeEmail(f.email)) == Some(id);
  }

  datatype LoginForm = LoginForm(email: string, password: string)

  /** `validateLogin()`: like the page's, but activation is not checked. */
  function LoginErrors(s: Store, env: Env, f: LoginForm): (r: seq<Msg>)
    requires EmailsUnique(s)
    ensures PasswordBlank in r <==> f.password == ""
    ensures EmailBlank in r <==> f.email == ""
    ensures CredentialsIncorrect in r <==> !Authenticates(s, env.crypto, env.sx.normalizeEmail(f.email), f.password)
    ensures NotActivated !in r
    ensures r == [] <==> f.password != "" && f.email != ""
                         && Authenticates(s, env.crypto, env.sx.normalizeEmail(f.email), f.password)
  {
    When(f.password == "", PasswordBlank)
    + When(f.email == "", EmailBlank)
    + CredentialErrors(s, env.crypto, env.sx.normalizeEmail(f.email), f.password, false)
  }

  /** `login`: never writes; on valid credentials answers a token over exactly the stored user's
      `{id, username, role}` (no role substitution here). */
  function Login(s: Store, env: Env, f: LoginForm): (r: Response)
    requires EmailsUnique(s)
    ensures LoginErrors(s, env, f) != [] ==> r == Send(422, Errors(LoginErrors(s, env, f)), Unchanged)
    ensures LoginErrors(s, env, f) == [] ==>
              var id := FindByEmail(s, env.sx.normalizeEmail(f.email));
              id.Some? && r == Send(200, Issued(env.jwt.sign(Claims(id.value, s[id.value])), Claims(id.value, s[id.value])), Unchanged)
  {
    var errors := LoginErrors(s, env, f);
    if errors != [] then Send(422, Errors(errors), Unchanged)
    else
      match FindByEmail(s, env.sx.normalizeEmail(f.email))
      case None => Send(500, Text("Log In Failed"), Unchanged)
      case Some(id) => Send(200, Issued(env.jwt.sign(Claims(id, s[id])), Claims(id, s[id])), Unchanged)
  }

  /** `logout`: always clears the cookie and answers 200. */
  function Logout(): (r: Response)
    ensures r.Send? && r.status == 200 && r.cookie == ClearJwt && r.body == Text("logged out")
  {
    Send(200, Text("logged out"), ClearJwt)
  }
}
