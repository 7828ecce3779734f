/** The page-side account lifecycle (routes/auth.js): signup with an activation step, activation,
    login, logout, and the forgot/reset password pair. */
module PageAuth {
  import opened Base
  import opened Externals
  import opened Messages
  import opened UserModel
  import opened Http

  /** How long a reset token stays usable: 72,000,000 ms, which is 20 hours. */
  const ResetWindow := 72_000_000

  // ---------------------------------------------------------------- signup

  /** `validateSignup()`. Every check runs and the messages collect in order. The duplicate-email
      check queries `{where: {email}}`, which matches no stored user, so it never reports. */
  function SignupErrors(sx: Sanitizers, f: UserForm): (r: seq<Msg>)
    ensures UsernameBlank in r <==> sx.trim(f.username) == ""
    ensures EmailBlank in r <==> f.email == ""
    ensures EmailInvalid in r <==> !sx.isEmail(f.email)
    ensures PasswordShort in r <==> |f.password| < 6
    ensures ConfirmationMismatch in r <==> f.password != f.passwordConfirmation
    ensures EmailInUse !in r
    ensures r == [] <==> sx.trim(f.username) != "" && f.email != "" && sx.isEmail(f.email)
                         && |f.password| >= 6 && f.password == f.passwordConfirmation
  {
    When(sx.trim(f.username) == "", UsernameBlank)
    + When(f.email == "", EmailBlank)
    + When(!sx.isEmail(f.email), EmailInvalid)
    + When(|f.password| < 6, PasswordShort)
    + When(f.password != f.passwordConfirmation, ConfirmationMismatch)
  }

  /** The record page signup asks the store to create: the whole (sanitized) body, with the
      password replaced by its hash and a fresh activation token. */
  function SignupRecord(env: Env, f: UserForm, token: RandomToken, now: int): User {
    User(env.sx.trim(f.username), env.sx.normalizeEmail(f.email), env.crypto.hash(f.password),
         f.role, Some(token), f.activated.GetOr(false), f.resetToken, f.resetSentAt, now, now)
  }

  /** `signup` (version 2). Invalid input re-renders the form; a duplicate email gets past the
      validators and is refused by the unique index, which surfaces as the error page. */
  function Signup(s: Store, env: Env, f: UserForm, id: Id, token: RandomToken, now: int): (r: Step<Store>)
    requires EmailsUnique(s)
    ensures EmailsUnique(r.store)
    ensures SignupErrors(env.sx, f) != [] ==> r == Step(s, Render("auth/signup", Errors(SignupErrors(env.sx, f))))
    ensures r.store != s ==> SignupErrors(env.sx, f) == [] && id !in s && r.store.Keys == s.Keys + {id}
                             && (forall k :: k in s ==> r.store[k] == s[k])
                             && r.response == Redirect("/", Unchanged)
    ensures id !in s && id in r.store ==>
              var u := r.store[id];
              && u.password == env.crypto.hash(f.password)
              && u.activationToken == Option<string>.Some(token)
              && u.activated == (f.activated == Some(true))
              && u.role == f.role
              && u.resetToken == f.resetToken && u.resetSentAt == f.resetSentAt
              && u.username == env.sx.trim(f.username)
              && u.email == env.sx.normalizeEmail(f.email)
    ensures SignupErrors(env.sx, f) == [] && id !in s && FindByEmail(s, env.sx.normalizeEmail(f.email)).None? ==>
              id in r.store
    ensures SignupErrors(env.sx, f) == [] && FindByEmail(s, env.sx.normalizeEmail(f.email)).Some? ==>
              r == Step(s, ErrorPage(500))
  {
    var errors := SignupErrors(env.sx, f);
    if errors != [] then Step(s, Render("auth/signup", Errors(errors)))
    else
      match Create(s, id, SignupRecord(env, f, token, now))
      case None => Step(s, ErrorPage(500))
      case Some(s') => Step(s', Redirect("/", Unchanged))
  }

  // ---------------------------------------------------------------- activation

  /** `activateAccount`: the query's token and email must both be present, a user must hold the
      email, and that user's stored activation token must equal the query token. On success only
      `activated` (and the update timestamp) changes, and a token over the user's claims is set. */
  function Activate(s: Store, j: Jwt, token: string, email: string, now: int): (r: Step<Store>)
    requires EmailsUnique(s)
    ensures EmailsUnique(r.store)
    ensures forall id :: id in s && s[id].email == email && email != "" && token != ""
                         && s[id].activationToken == Some(token) ==>
              r == Step(s[id := s[id].(activated := true, updatedAt := now)],
                        Redirect(Url(id), SetJwt(j.sign(Claims(id, s[id])))))
    ensures (|| token == ""
             || email == ""
             || (forall id :: id in s && s[id].email == email ==> s[id].activationToken != Some(token))) ==>
              r == Step(s, Redirect("/", Unchanged))
  {
    if token == "" || email == "" then Step(s, Redirect("/", Unchanged))
    else
      match FindByEmail(s, email)
      case None => Step(s, Redirect("/", Unchanged))
      case Some(id) =>
        if s[id].activationToken != Some(token) then Step(s, Redirect("/", Unchanged))
        else
          var u := s[id];
          SameEmailKeepsUnique(s, id, u.(activated := true, updatedAt := now));
          Step(s[id := u.(activated := true, updatedAt := now)], Redirect(Url(id), SetJwt(j.sign(Claims(id, u)))))
  }

  // ---------------------------------------------------------------- login / logout

  datatype LoginForm = LoginForm(email: string, password: string)

  /** `validateLogin()`: blank fields, then the database check on the normalized email, which
      requires an activated account. */
  function LoginErrors(s: Store, env: Env, f: LoginForm): (r: seq<Msg>)
    requires EmailsUnique(s)
    ensures PasswordBlank in r <==> f.password == ""
    ensures EmailBlank in r <==> f.email == ""
    ensures CredentialsIncorrect in r <==> !Authenticates(s, env.crypto, env.sx.normalizeEmail(f.email), f.password)
    ensures r == [] <==> f.password != "" && f.email != ""
                         && Authenticates(s, env.crypto, env.sx.normalizeEmail(f.email), f.password)
                         && s[FindByEmail(s, env.sx.normalizeEmail(f.email)).value].activated
  {
    When(f.password == "", PasswordBlank)
    + When(f.email == "", EmailBlank)
    + CredentialErrors(s, env.crypto, env.sx.normalizeEmail(f.email), f.password, true)
  }

  /** The claims page login signs: a user stored without a role is presented as `standard`. */
  function LoginClaims(id: Id, u: User): (r: Identity)
    ensures r.id == id && r.username == u.username
    ensures r.role == Some(if u.role.Some? then u.role.value else "standard")
  {
    Identity(id, u.username, Some(u.role.GetOr("standard")))
  }

  /** `login`: never writes the store; on valid credentials it sets a token cookie for the user the
      normalized email names. */
  function Login(s: Store, env: Env, f: LoginForm): (r: Response)
    requires EmailsUnique(s)
    ensures LoginErrors(s, env, f) != [] ==> r == Render("auth/login", Errors(LoginErrors(s, env, f)))
    ensures LoginErrors(s, env, f) == [] ==>
              var id := FindByEmail(s, env.sx.normalizeEmail(f.email));
              id.Some? && r == Redirect("/", SetJwt(env.jwt.sign(LoginClaims(id.value, s[id.value]))))
  {
    var errors := LoginErrors(s, env, f);
    if errors != [] then Render("auth/login", Errors(errors))
    else
      match FindByEmail(s, env.sx.normalizeEmail(f.email))
      case None => ErrorPage(500)
      case Some(id) => Redirect("/", SetJwt(env.jwt.sign(LoginClaims(id, s[id]))))
  }

  /** `logout`: clears the token cookie and goes home. */
  function Logout(): (r: Response)
    ensures r.Redirect? && r.location == "/" && r.cookie == ClearJwt
  {
    Redirect("/", ClearJwt)
  }

  // ---------------------------------------------------------------- forgot password

  /** `validateForgotPw()`. */
  function ForgotErrors(s: Store, sx: Sanitizers, email: string): (r: seq<Msg>)
    requires EmailsUnique(s)
    ensures EmailBlank in r <==> email == ""
    ensures EmailNotFound in r <==> FindByEmail(s, sx.normalizeEmail(email)).None?
    ensures r == [] <==> email != "" && FindByEmail(s, sx.normalizeEmail(email)).Some?
  {
    When(email == "", EmailBlank)
    + When(FindByEmail(s, sx.normalizeEmail(email)).None?, EmailNotFound)
  }

  /** `forgotPassword`: stores a fresh reset token and the moment it was issued on the user the
      normalized email names; nothing else changes. */
  function ForgotPassword(s: Store, sx: Sanitizers, email: string, token: RandomToken, now: int): (r: Step<Store>)
    requires EmailsUnique(s)
    ensures EmailsUnique(r.store)
    ensures ForgotErrors(s, sx, email) != [] ==> r == Step(s, Render("auth/forgot-password", Errors(ForgotErrors(s, sx, email))))
    ensures ForgotErrors(s, sx, email) == [] ==>
              var id := FindByEmail(s, sx.normalizeEmail(email)).value;
              r == Step(s[id := s[id].(resetToken := Some(token), resetSentAt := Some(now), updatedAt := now)],
                        Redirect("/", Unchanged))
  {
    var errors := ForgotErrors(s, sx, email);
    if errors != [] then Step(s, Render("auth/forgot-password", Errors(errors)))
    else
      var id := FindByEmail(s, sx.normalizeEmail(email)).value;
      var u := s[id].(resetToken := Some(token), resetSentAt := Some(now), updatedAt := now);
      SameEmailKeepsUnique(s, id, u);
      Step(s[id := u], Redirect("/", Unchanged))
  }

  // ---------------------------------------------------------------- reset password

  /** The query (`email`, `token`) and body (`password`, `passwordConfirmation`) of a reset. */
  datatype ResetForm = ResetForm(queryEmail: string, queryToken: string, password: string, passwordConfirmation: string)

  /** `Date.now() - resetSentAt > 72000000`. A record without `resetSentAt` makes the difference
      NaN, which compares false, so it never expires. */
  predicate Expired(sentAt: Option<int>, now: int) {
    sentAt.Some? && now - sentAt.value > ResetWindow
  }

  /** The custom reset validator: it stops at its first failing check. */
  function ResetCheck(s: Store, f: ResetForm, now: int): (r: seq<Msg>)
    requires EmailsUnique(s)
    ensures |r| <= 1
    ensures r == [] <==> f.queryToken != "" && f.queryEmail != "" && f.password == f.passwordConfirmation
                         && (exists id :: id in s && s[id].email == f.queryEmail && s[id].resetToken == Some(f.queryToken)
                                          && !Expired(s[id].resetSentAt, now))
  {
    if f.queryToken == "" || f.queryEmail == "" then [ResetInvalid]
    else if f.password != f.passwordConfirmation then [ConfirmationMismatch]
    else
      match FindByEmail(s, f.queryEmail)
      case None => [ResetInvalid]
      case Some(id) =>
        if s[id].resetToken != Some(f.queryToken) then [ResetInvalid]
        else if Expired(s[id].resetSentAt, now) then [ResetExpired]
        else []
  }

  /** `validateResetPw()`: the length check, then the custom check. */
  function ResetErrors(s: Store, f: ResetForm, now: int): (r: seq<Msg>)
    requires EmailsUnique(s)
    ensures PasswordShort in r <==> |f.password| < 6
    ensures r == [] <==> |f.password| >= 6 && ResetCheck(s, f, now) == []
  {
    When(|f.password| < 6, PasswordShort) + ResetCheck(s, f, now)
  }

  /** `resetPassword`, as written: when validation fails it renders the errors but does not
      return, so in every case the user holding the query email (matched by email alone) gets
      the hash of the submitted password. */
  function ResetPassword(s: Store, env: Env, f: ResetForm, now: int): (r: Step<Store>)
    requires EmailsUnique(s)
    ensures EmailsUnique(r.store)
    ensures forall id :: id in s && s[id].email == f.queryEmail ==>
              r.store == s[id := s[id].(password := env.crypto.hash(f.password), updatedAt := now)]
    ensures FindByEmail(s, f.queryEmail).None? ==> r.store == s
    ensures ResetErrors(s, f, now) != [] ==> r.response == Render("auth/reset-password", Errors(ResetErrors(s, f, now)))
    ensures ResetErrors(s, f, now) == [] ==>
              var id := FindByEmail(s, f.queryEmail);
              id.Some? && r.response == Redirect(Url(id.value), SetJwt(env.jwt.sign(Claims(id.value, s[id.value]))))
  {
    var errors := ResetErrors(s, f, now);
    match FindByEmail(s, f.queryEmail)
    case None =>
      Step(s, if errors != [] then Render("auth/reset-password", Errors(errors)) else ErrorPage(500))
    case Some(id) =>
      var u := s[id].(password := env.crypto.hash(f.password), updatedAt := now);
      SameEmailKeepsUnique(s, id, u);
      Step(s[id := u],
           if errors != [] then Render("auth/reset-password", Errors(errors))
           else Redirect(Url(id), SetJwt(env.jwt.sign(Claims(id, u)))))
  }

  /** The fall-through: with a wrong (or missing) token the reset is rejected on screen, yet the
      password of whoever holds the query email is replaced by the submitted one. */
  lemma FailedResetStillWrites(s: Store, env: Env, f: ResetForm, now: int, id: Id)
    requires EmailsUnique(s) && id in s && s[id].email == f.queryEmail
    requires s[id].resetToken != Some(f.queryToken)
    ensures ResetErrors(s, f, now) != []
    ensures ResetPassword(s, env, f, now).response.Render?
    ensures ResetPassword(s, env, f, now).store[id].password == env.crypto.hash(f.password)
  {
  }

  /** The reset window is closed at its end: exactly 72,000,000 ms after issue still passes, one
      millisecond later is expired; a record without an issue time never expires. */
  lemma ResetWindowBoundary(s: Store, f: ResetForm, id: Id, sent: int, now: int)
    requires EmailsUnique(s) && id in s && s[id].email == f.queryEmail
    requires f.queryEmail != "" && f.queryToken != "" && s[id].resetToken == Some(f.queryToken)
    requires |f.password| >= 6 && f.password == f.passwordConfirmation
    ensures s[id].resetSentAt == Some(sent) ==> ResetErrors(s, f, sent + ResetWindow) == []
    ensures s[id].resetSentAt == Some(sent) ==> ResetErrors(s, f, sent + ResetWindow + 1) == [ResetExpired]
    ensures s[id].resetSentAt.None? ==> ResetErrors(s, f, now) == []
  {
  }
}
