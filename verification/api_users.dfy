/** The JSON user endpoints (routes/api/users.js). Only `detail` and `testaccess` sit behind a gate
    (`isAdmin`); update and delete take any caller. */
module ApiUsers {
  import opened Base
  import opened Externals
  import opened Messages
  import opened UserModel
  import opened Http
  import opened Ordering
  import opened Listing
  import opened ApiAuthMiddleware
  import ApiAuth

  const UserNotFound := "User Not Found"
  const UpdateFailed := "User update failed."
  const DeleteNotFound := "User not found"
  const Deleted := "User account deleted."

  /** What a refusing gate has already answered: its status and text, nothing at all when it
      stalls, or its redirect. */
  function Refusal(g: Gate): (r: Response)
    requires !g.Next?
    ensures g.Deny? ==> r == Send(g.status, Text(g.text), Unchanged)
    ensures g.Stall? ==> r == Silent
    ensures g.Bounce? ==> r == Redirect(g.location, Unchanged)
  {
    match g
    case Deny(status, text) => Send(status, Text(text), Unchanged)
    case Stall => Silent
    case Bounce(location) => Redirect(location, Unchanged)
  }

  /** The API projections of the records `ids` names, in order. */
  function Listings(s: Store, ids: seq<Id>): (r: seq<UserListing>)
    requires forall i :: 0 <= i < |ids| ==> ids[i] in s
    ensures |r| == |ids|
    ensures forall i :: 0 <= i < |r| ==> r[i] == ListingOf(ids[i], s[ids[i]])
  {
    if ids == [] then [] else [ListingOf(ids[0], s[ids[0]])] + Listings(s, ids[1..])
  }

  /** `list` (ungated): at most 100 users in ascending username order, each as
      `{_id, username, email, role, activated, createdAt}`; every user left out sorts no earlier
      than every user sent. */
  method List(s: Store) returns (r: Response)
    ensures r.Send? && r.status == 200 && r.cookie == Unchanged && r.body.UserListings?
    ensures |r.body.listings| == Min(100, |s|)
    ensures forall i :: 0 <= i < |r.body.listings| ==>
              r.body.listings[i].id in s && r.body.listings[i] == ListingOf(r.body.listings[i].id, s[r.body.listings[i].id])
    ensures forall i, j :: 0 <= i < j < |r.body.listings| ==> r.body.listings[i].id != r.body.listings[j].id
    ensures forall i, j :: 0 <= i < j < |r.body.listings| ==> Leq(r.body.listings[i].username, r.body.listings[j].username)
    ensures forall id, i :: id in s && id !in IdsOfListings(r.body.listings) && 0 <= i < |r.body.listings| ==>
              Leq(r.body.listings[i].username, s[id].username)
  {
    var names := map id | id in s :: s[id].username;
    assert names.Keys == s.Keys;
    var ids := SmallestFirst(names, 100);
    var rows := Listings(s, ids);
    assert forall i :: 0 <= i < |ids| ==> ids[i] in IdsOfListings(rows) by {
      forall i | 0 <= i < |ids| ensures ids[i] in IdsOfListings(rows) {
        assert rows[i].id == ids[i];
      }
    }
    r := Send(200, UserListings(rows), Unchanged);
  }

  /** `testaccess`: "Access Approved" exactly for a live admin. */
  function TestAccess(s: Store, j: Jwt, header: Option<string>): (r: Response)
    ensures r == Send(200, Text("Access Approved"), Unchanged) <==> IsAdmin(s, j, header).Next?
    ensures !IsAdmin(s, j, header).Next? ==> r == Refusal(IsAdmin(s, j, header))
  {
    var g := IsAdmin(s, j, header);
    if g.Next? then Send(200, Text("Access Approved"), Unchanged) else Refusal(g)
  }

  /** `detail`: behind `isAdmin`; 404 for an unknown id, else the user's API projection. */
  function Detail(s: Store, j: Jwt, header: Option<string>, id: Id): (r: Response)
    ensures r.Send? && r.status == 200 <==> IsAdmin(s, j, header).Next? && id in s
    ensures IsAdmin(s, j, header).Next? && id in s ==> r == Send(200, OneUserListing(ListingOf(id, s[id])), Unchanged)
    ensures IsAdmin(s, j, header).Next? && id !in s ==> r == Send(404, Text(UserNotFound), Unchanged)
    ensures !IsAdmin(s, j, header).Next? ==> r == Refusal(IsAdmin(s, j, header))
  {
    var g := IsAdmin(s, j, header);
    if !g.Next? then Refusal(g)
    else if id !in s then Send(404, Text(UserNotFound), Unchanged)
    else Send(200, OneUserListing(ListingOf(id, s[id])), Unchanged)
  }

  /** `validateForm()`: the username is checked for blankness before it is trimmed, a changed email must be free,
      and a given password must be long enough; there is no confirmation check. */
  function UpdateErrors(s: Store, sx: Sanitizers, id: Id, f: UserForm): (r: seq<Msg>)
    requires EmailsUnique(s)
    ensures UsernameBlank in r <==> f.username == ""
    ensures EmailBlank in r <==> f.email == ""
    ensures EmailInvalid in r <==> !sx.isEmail(f.email)
    ensures EmailInUse in r <==> !EmailFree(s, id, sx.normalizeEmail(f.email))
    ensures PasswordShort in r <==> f.password != "" && |f.password| < 6
    ensures ConfirmationMismatch !in r
    ensures r == [] <==> && f.username != "" && f.email != "" && sx.isEmail(f.email)
                         && EmailFree(s, id, sx.normalizeEmail(f.email))
                         && (f.password != "" ==> |f.password| >= 6)
  {
    var holder := FindByEmail(s, sx.normalizeEmail(f.email));
    When(f.username == "", UsernameBlank)
    + When(f.email == "", EmailBlank)
    + When(!sx.isEmail(f.email), EmailInvalid)
    + When(holder.Some? && holder.value != id, EmailInUse)
    + When(f.password != "" && |f.password| < 6, PasswordShort)
  }

  /** `update` (ungated): 422 on validation errors; an unknown id makes the handler dereference
      `null`, which its catch turns into 400; otherwise the route-id record gets the escaped,
      trimmed username, the normalized email and, when given, the new password hash, and the
      answer echoes them. */
  function Update(s: Store, env: Env, id: Id, f: UserForm, now: int): (r: Step<Store>)
    requires EmailsUnique(s)
    ensures EmailsUnique(r.store)
    ensures UpdateErrors(s, env.sx, id, f) != [] ==> r == Step(s, Send(422, Errors(UpdateErrors(s, env.sx, id, f)), Unchanged))
    ensures UpdateErrors(s, env.sx, id, f) == [] && id !in s ==> r == Step(s, Send(400, Text(UpdateFailed), Unchanged))
    ensures UpdateErrors(s, env.sx, id, f) == [] && id in s ==>
              && id in r.store && r.store == s[id := r.store[id]]
              && r.store[id].username == ApiAuth.CleanUsername(env.sx, f.username)
              && r.store[id].email == env.sx.normalizeEmail(f.email)
              && (f.password == "" ==> r.store[id].password == s[id].password)
              && (f.password != "" ==> r.store[id].password == env.crypto.hash(f.password))
              && r.store[id].role == s[id].role
              && r.store[id].activated == s[id].activated
              && r.store[id].activationToken == s[id].activationToken
              && r.store[id].resetToken == s[id].resetToken
              && r.store[id].resetSentAt == s[id].resetSentAt
              && r.response == Send(200, UpdatedUser(id, r.store[id].username, r.store[id].email, now), Unchanged)
  {
    var errors := UpdateErrors(s, env.sx, id, f);
    if errors != [] then Step(s, Send(422, Errors(errors), Unchanged))
    else if id !in s then Step(s, Send(400, Text(UpdateFailed), Unchanged))
    else
      var u := Revised(s[id], env.crypto, ApiAuth.CleanUsername(env.sx, f.username), env.sx.normalizeEmail(f.email),
                       f.password, now);
      match Put(s, id, u)
      case None => Step(s, Send(400, Text(UpdateFailed), Unchanged))
      case Some(s') => Step(s', Send(200, UpdatedUser(id, u.username, u.email, u.updatedAt), Unchanged))
  }

  /** `destroy` (ungated): 404 for an unknown id; otherwise removes exactly that record, clears
      the token cookie and answers 200. */
  function Destroy(s: Store, id: Id): (r: Step<Store>)
    ensures id !in s ==> r == Step(s, Send(404, Text(DeleteNotFound), Unchanged))
    ensures id in s ==> r.response == Send(200, Text(Deleted), ClearJwt)
    ensures r.store == s - {id}
    ensures EmailsUnique(s) ==> EmailsUnique(r.store)
  {
    if id !in s then Step(s, Send(404, Text(DeleteNotFound), Unchanged))
    else Step(s - {id}, Send(200, Text(Deleted), ClearJwt))
  }
}
