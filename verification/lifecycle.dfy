/** Properties that span several requests: the account lifecycle from signup to login, the tokens
    that are never consumed, what a signup body can grant itself, and what login reveals. */
module Lifecycle {
  import opened Base
  import opened Externals
  import opened Messages
  import opened UserModel
  import opened Http
  import opened ApiAuthMiddleware
  import PageAuth
  import ApiAuth
  import PageUsers

  /** A stored user whose password hash was made from `password` authenticates with it, and is the
      user the email lookup finds. */
  lemma StoredHashAuthenticates(s: Store, c: Crypto, id: Id, password: string)
    requires EmailsUnique(s) && CryptoSound(c)
    requires id in s && s[id].password == c.hash(password)
    ensures Authenticates(s, c, s[id].email, password)
    ensures FindByEmail(s, s[id].email) == Some(id)
  {
    assert c.compare(password, c.hash(password));
  }

  /** API signup, then API login with the same email and password: the login succeeds and its
      token carries exactly the new user's id, username and the role the signup body gave. */
  lemma {:induction false} ApiSignupThenLogin(s: Store, env: Env, f: UserForm, id: Id, now: int)
    requires EmailsUnique(s) && CryptoSound(env.crypto)
    requires ApiAuth.SignupErrors(s, env.sx, f) == [] && id !in s
    ensures var s1 := ApiAuth.Signup(s, env, f, id, now).store;
            var login := ApiAuth.LoginForm(f.email, f.password);
            && ApiAuth.LoginErrors(s1, env, login) == []
            && ApiAuth.Login(s1, env, login) == Send(200, Issued(env.jwt.sign(Claims(id, s1[id])), Claims(id, s1[id])), Unchanged)
            && Claims(id, s1[id]).role == f.role
  {
    var s1 := ApiAuth.Signup(s, env, f, id, now).store;
    StoredHashAuthenticates(s1, env.crypto, id, f.password);
  }

  /** Page signup leaves the account waiting for activation (unless the body itself says
      `activated`): login is refused with the activation message alone. Activating with the
      emailed token lets the same credentials in, signed with the stored role or `standard`. */
  lemma {:induction false} PageSignupActivateLogin(s: Store, env: Env, f: UserForm, id: Id, token: RandomToken,
                                                   now: int, later: int)
    requires EmailsUnique(s) && CryptoSound(env.crypto)
    requires PageAuth.SignupErrors(env.sx, f) == [] && id !in s
    requires FindByEmail(s, env.sx.normalizeEmail(f.email)).None? && env.sx.normalizeEmail(f.email) != ""
    requires f.activated != Some(true)
    ensures var s1 := PageAuth.Signup(s, env, f, id, token, now).store;
            var login := PageAuth.LoginForm(f.email, f.password);
            var s2 := PageAuth.Activate(s1, env.jwt, token, env.sx.normalizeEmail(f.email), later).store;
            && PageAuth.LoginErrors(s1, env, login) == [NotActivated]
            && PageAuth.LoginErrors(s2, env, login) == []
            && PageAuth.Login(s2, env, login) == Redirect("/", SetJwt(env.jwt.sign(PageAuth.LoginClaims(id, s2[id]))))
            && PageAuth.LoginClaims(id, s2[id]).role == Some(f.role.GetOr("standard"))
  {
    var s1 := PageAuth.Signup(s, env, f, id, token, now).store;
    var email := env.sx.normalizeEmail(f.email);
    StoredHashAuthenticates(s1, env.crypto, id, f.password);
    assert s1[id].email == email && !s1[id].activated;
    var s2 := PageAuth.Activate(s1, env.jwt, token, email, later).store;
    assert s2 == s1[id := s1[id].(activated := true, updatedAt := later)];
    StoredHashAuthenticates(s2, env.crypto, id, f.password);
  }

  /** Activation does not consume its token: the same link activates (and logs in) again. */
  lemma {:induction false} ActivationReplays(s: Store, j: Jwt, id: Id, token: string, now: int, later: int)
    requires EmailsUnique(s) && id in s && token != "" && s[id].email != ""
    requires s[id].activationToken == Some(token)
    ensures var s1 := PageAuth.Activate(s, j, token, s[id].email, now).store;
            && s1[id].activated && s1[id].activationToken == Some(token)
            && PageAuth.Activate(s1, j, token, s[id].email, later).response == Redirect(Url(id), SetJwt(j.sign(Claims(id, s1[id]))))
  {
    var s1 := PageAuth.Activate(s, j, token, s[id].email, now).store;
    assert s1 == s[id := s[id].(activated := true, updatedAt := now)];
    assert id in s1 && s1[id].email == s[id].email;
  }

  /** The form a user fills in after following a reset link. */
  function ResetRequest(email: string, token: string, password: string): PageAuth.ResetForm {
    PageAuth.ResetForm(email, token, password, password)
  }

  /** Forgot-password followed by a reset within the window succeeds, and the reset does not
      consume the token: the same link passes validation again while the window lasts. */
  lemma {:induction false} ResetReplays(s: Store, env: Env, email: string, token: RandomToken, password: string,
                                        issued: int, used: int, again: int)
    requires EmailsUnique(s) && PageAuth.ForgotErrors(s, env.sx, email) == [] && env.sx.normalizeEmail(email) != ""
    requires |password| >= 6
    requires issued <= used <= again <= issued + PageAuth.ResetWindow
    ensures var id := FindByEmail(s, env.sx.normalizeEmail(email)).value;
            var stored := env.sx.normalizeEmail(email);
            var s1 := PageAuth.ForgotPassword(s, env.sx, email, token, issued).store;
            var s2 := PageAuth.ResetPassword(s1, env, ResetRequest(stored, token, password), used).store;
            && PageAuth.ResetErrors(s1, ResetRequest(stored, token, password), used) == []
            && s2[id].password == env.crypto.hash(password)
            && s2[id].resetToken == Option<string>.Some(token)
            && PageAuth.ResetErrors(s2, ResetRequest(stored, token, password), again) == []
  {
    var stored := env.sx.normalizeEmail(email);
    var id := FindByEmail(s, stored).value;
    var f := ResetRequest(stored, token, password);
    var s1 := PageAuth.ForgotPassword(s, env.sx, email, token, issued).store;
    assert s1[id].email == stored && s1[id].resetToken == Option<string>.Some(token);
    assert !PageAuth.Expired(s1[id].resetSentAt, used);
    assert PageAuth.ResetCheck(s1, f, used) == [];
    var s2 := PageAuth.ResetPassword(s1, env, f, used).store;
    assert s2 == s1[id := s1[id].(password := env.crypto.hash(password), updatedAt := used)];
    assert s2[id].email == stored && !PageAuth.Expired(s2[id].resetSentAt, again);
    assert PageAuth.ResetCheck(s2, f, again) == [];
  }

  /** Page signup has no allow-list: a body that carries `role: admin` and `activated: true`
      creates an administrator who can log in at once, and the token login issues passes the API
      admin gate. */
  lemma {:induction false} PageSignupGrantsAdmin(s: Store, env: Env, f: UserForm, id: Id, token: RandomToken, now: int)
    requires EmailsUnique(s) && CryptoSound(env.crypto) && JwtSound(env.jwt)
    requires PageAuth.SignupErrors(env.sx, f) == [] && id !in s
    requires FindByEmail(s, env.sx.normalizeEmail(f.email)).None?
    requires f.role == Some("admin") && f.activated == Some(true)
    ensures var s1 := PageAuth.Signup(s, env, f, id, token, now).store;
            var r := PageAuth.Login(s1, env, PageAuth.LoginForm(f.email, f.password));
            && r.Redirect? && r.cookie.SetJwt?
            && IsAdmin(s1, env.jwt, BearerHeader(r.cookie.token)) == Next(Identity(id, s1[id].username, Some("admin")))
  {
    var s1 := PageAuth.Signup(s, env, f, id, token, now).store;
    StoredHashAuthenticates(s1, env.crypto, id, f.password);
    var claims := PageAuth.LoginClaims(id, s1[id]);
    assert PageAuth.LoginErrors(s1, env, PageAuth.LoginForm(f.email, f.password)) == [];
    assert claims == Identity(id, s1[id].username, Some("admin"));
    SignedTokenPasses(env.jwt, claims);
    AdminFollowsLiveRecord(s1, env.jwt, claims);
  }

  /** The same through the API: a signup body with `role: admin` gets back a token that passes the
      admin gate. */
  lemma {:induction false} ApiSignupGrantsAdmin(s: Store, env: Env, f: UserForm, id: Id, now: int)
    requires EmailsUnique(s) && JwtSound(env.jwt)
    requires ApiAuth.SignupErrors(s, env.sx, f) == [] && id !in s
    requires f.role == Some("admin")
    ensures var r := ApiAuth.Signup(s, env, f, id, now);
            && r.response.Send? && r.response.body.Issued?
            && IsAdmin(r.store, env.jwt, BearerHeader(r.response.body.token)).Next?
  {
    var r := ApiAuth.Signup(s, env, f, id, now);
    AdminFollowsLiveRecord(r.store, env.jwt, Claims(id, r.store[id]));
  }

  /** Login does not tell an unknown email from a wrong password: both get exactly the same
      errors, on the page and in the API. */
  lemma {:induction false} LoginHidesWhichPartFailed(s: Store, env: Env, unknown: PageAuth.LoginForm, wrong: PageAuth.LoginForm)
    requires EmailsUnique(s)
    requires unknown.email != "" && unknown.password != "" && wrong.email != "" && wrong.password != ""
    requires FindByEmail(s, env.sx.normalizeEmail(unknown.email)).None?
    requires forall id :: id in s && s[id].email == env.sx.normalizeEmail(wrong.email) ==>
               !env.crypto.compare(wrong.password, s[id].password)
    ensures PageAuth.LoginErrors(s, env, unknown) == PageAuth.LoginErrors(s, env, wrong) == [CredentialsIncorrect]
    ensures ApiAuth.LoginErrors(s, env, ApiAuth.LoginForm(unknown.email, unknown.password))
         == ApiAuth.LoginErrors(s, env, ApiAuth.LoginForm(wrong.email, wrong.password))
         == [CredentialsIncorrect]
  {
    assert !Authenticates(s, env.crypto, env.sx.normalizeEmail(unknown.email), unknown.password);
    assert !Authenticates(s, env.crypto, env.sx.normalizeEmail(wrong.email), wrong.password);
  }

  /** A profile update that sets a new password: afterwards the old account logs in with the new
      email and password, and keeps its role. */
  lemma {:induction false} UpdatedPasswordLogsIn(s: Store, env: Env, id: Id, f: UserForm, now: int)
    requires EmailsUnique(s) && CryptoSound(env.crypto)
    requires id in s && s[id].activated
    requires PageUsers.UpdateErrors(s, env.sx, id, f) == [] && f.password != ""
    ensures var s1 := PageUsers.Update(s, env, id, f, now).store;
            && PageAuth.LoginErrors(s1, env, PageAuth.LoginForm(f.email, f.password)) == []
            && s1[id].role == s[id].role
  {
    var s1 := PageUsers.Update(s, env, id, f, now).store;
    StoredHashAuthenticates(s1, env.crypto, id, f.password);
  }
}
