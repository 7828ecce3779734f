/** The user pages (routes/users.js): list, detail, profile update and account deletion. */
module PageUsers {
  import opened Base
  import opened Externals
  import opened Messages
  import opened UserModel
  import opened Http
  import opened Ordering
  import opened Listing

  /** The page projections of the records `ids` names, in order. */
  function Briefs(s: Store, ids: seq<Id>): (r: seq<UserBrief>)
    requires forall i :: 0 <= i < |ids| ==> ids[i] in s
    ensures |r| == |ids|
    ensures forall i :: 0 <= i < |r| ==> r[i] == BriefOf(ids[i], s[ids[i]])
  {
    if ids == [] then [] else [BriefOf(ids[0], s[ids[0]])] + Briefs(s, ids[1..])
  }

  /** `list`: at most 50 users in ascending username order, showing only id, username and email;
      every user left out sorts no earlier than every user shown. */
  method List(s: Store) returns (r: Response)
    ensures r.Render? && r.view == "users/list" && r.body.UserBriefs?
    ensures |r.body.briefs| == Min(50, |s|)
    ensures forall i :: 0 <= i < |r.body.briefs| ==>
              r.body.briefs[i].id in s && r.body.briefs[i] == BriefOf(r.body.briefs[i].id, s[r.body.briefs[i].id])
    ensures forall i, j :: 0 <= i < j < |r.body.briefs| ==> r.body.briefs[i].id != r.body.briefs[j].id
    ensures forall i, j :: 0 <= i < j < |r.body.briefs| ==> Leq(r.body.briefs[i].username, r.body.briefs[j].username)
    ensures forall id, i :: id in s && id !in IdsOfBriefs(r.body.briefs) && 0 <= i < |r.body.briefs| ==>
              Leq(r.body.briefs[i].username, s[id].username)
  {
    var names := map id | id in s :: s[id].username;
    assert names.Keys == s.Keys;
    var ids := SmallestFirst(names, 50);
    var rows := Briefs(s, ids);
    assert forall i :: 0 <= i < |ids| ==> ids[i] in IdsOfBriefs(rows) by {
      forall i | 0 <= i < |ids| ensures ids[i] in IdsOfBriefs(rows) {
        assert rows[i].id == ids[i];
      }
    }
    r := Render("users/list", UserBriefs(rows));
  }

  /** `detail`: 404 unless a user has the id. */
  function Detail(s: Store, id: Id): (r: Response)
    ensures r == ErrorPage(404) <==> id !in s
    ensures id in s ==> r == Render("users/details", OneUserBrief(BriefOf(id, s[id])))
  {
    if id !in s then ErrorPage(404) else Render("users/details", OneUserBrief(BriefOf(id, s[id])))
  }

  /** `updateForm`: 404 unless a user has the id. */
  function UpdateForm(s: Store, id: Id): (r: Response)
    ensures r == ErrorPage(404) <==> id !in s
    ensures id in s ==> r == Render("users/update", OneUserBrief(BriefOf(id, s[id])))
  {
    if id !in s then ErrorPage(404) else Render("users/update", OneUserBrief(BriefOf(id, s[id])))
  }

  /** `deleteForm`: 404 unless a user has the id; shows the username only. */
  function DeleteForm(s: Store, id: Id): (r: Response)
    ensures r == ErrorPage(404) <==> id !in s
    ensures id in s ==> r == Render("users/delete", UserName(id, s[id].username))
  {
    if id !in s then ErrorPage(404) else Render("users/delete", UserName(id, s[id].username))
  }

  /** `validateForm()`: a changed email must not belong to another user (keeping one's own is
      fine), and a password, when one is given, must be long enough and confirmed. */
  function UpdateErrors(s: Store, sx: Sanitizers, id: Id, f: UserForm): (r: seq<Msg>)
    requires EmailsUnique(s)
    ensures UsernameBlank in r <==> sx.trim(f.username) == ""
    ensures EmailBlank in r <==> f.email == ""
    ensures EmailInvalid in r <==> !sx.isEmail(f.email)
    ensures EmailInUse in r <==> !EmailFree(s, id, sx.normalizeEmail(f.email))
    ensures PasswordShort in r <==> f.password != "" && |f.password| < 6
    ensures ConfirmationMismatch in r <==> f.password != "" && f.password != f.passwordConfirmation
    ensures r == [] <==> && sx.trim(f.username) != "" && f.email != "" && sx.isEmail(f.email)
                         && EmailFree(s, id, sx.normalizeEmail(f.email))
                         && (f.password != "" ==> |f.password| >= 6 && f.password == f.passwordConfirmation)
  {
    var holder := FindByEmail(s, sx.normalizeEmail(f.email));
    When(sx.trim(f.username) == "", UsernameBlank)
    + When(f.email == "", EmailBlank)
    + When(!sx.isEmail(f.email), EmailInvalid)
    + When(holder.Some? && holder.value != id, EmailInUse)
    + (if f.password == "" then []
       else When(|f.password| < 6, PasswordShort) + When(f.password != f.passwordConfirmation, ConfirmationMismatch))
  }

  /** `update`: writes only username, email and (when given) the password hash to the route-id
      user. An unknown id changes nothing but is still redirected to. */
  function Update(s: Store, env: Env, id: Id, f: UserForm, now: int): (r: Step<Store>)
    requires EmailsUnique(s)
    ensures EmailsUnique(r.store)
    ensures UpdateErrors(s, env.sx, id, f) != [] ==> r == Step(s, Render("users/update", Errors(UpdateErrors(s, env.sx, id, f))))
    ensures UpdateErrors(s, env.sx, id, f) == [] ==> r.response == Redirect(Url(id), Unchanged)
    ensures id !in s ==> r.store == s
    ensures UpdateErrors(s, env.sx, id, f) == [] && id in s ==>
              && id in r.store && r.store == s[id := r.store[id]]
              && r.store[id].username == env.sx.trim(f.username)
              && r.store[id].email == env.sx.normalizeEmail(f.email)
              && (f.password == "" ==> r.store[id].password == s[id].password)
              && (f.password != "" ==> r.store[id].password == env.crypto.hash(f.password))
              && r.store[id].role == s[id].role
              && r.store[id].activated == s[id].activated
              && r.store[id].activationToken == s[id].activationToken
              && r.store[id].resetToken == s[id].resetToken
              && r.store[id].resetSentAt == s[id].resetSentAt
  {
    var errors := UpdateErrors(s, env.sx, id, f);
    if errors != [] then Step(s, Render("users/update", Errors(errors)))
    else if id !in s then Step(s, Redirect(Url(id), Unchanged))
    else
      var u := Revised(s[id], env.crypto, env.sx.trim(f.username), env.sx.normalizeEmail(f.email), f.password, now);
      match Put(s, id, u)
      case None => Step(s, ErrorPage(500))
      case Some(s') => Step(s', Redirect(Url(id), Unchanged))
  }

  /** `destroy`: removes the user named by the body's `id` field, not the route's, and clears the
      token cookie. */
  function Destroy(s: Store, routeId: Id, bodyId: Option<Id>): (r: Step<Store>)
    ensures r.response == Redirect("/", ClearJwt)
    ensures bodyId.None? ==> r.store == s
    ensures bodyId.Some? ==> r.store.Keys == s.Keys - {bodyId.value}
    ensures forall k :: k in r.store ==> k in s && r.store[k] == s[k]
    ensures routeId in s && bodyId != Some(routeId) ==> routeId in r.store
    ensures EmailsUnique(s) ==> EmailsUnique(r.store)
  {
    match bodyId
    case None => Step(s, Redirect("/", ClearJwt))
    case Some(victim) => Step(s - {victim}, Redirect("/", ClearJwt))
  }
}
