/** The User schema and the user collection with its unique email index. */
module UserModel {
  import opened Base
  import opened Externals
  import opened Messages

  /** One stored user. `activated` defaults to false and `role` has no default. The timestamps
      are the ones Mongoose keeps on every record, as milliseconds. */
  datatype User = User(
    username: string,
    email: string,
    password: string,
    role: Option<string>,
    activationToken: Option<string>,
    activated: bool,
    resetToken: Option<string>,
    resetSentAt: Option<int>,
    createdAt: int,
    updatedAt: int)

  /** The user collection, keyed by `_id`. */
  type Store = map<Id, User>

  /** The unique index on `email`: no two stored users share an email. */
  ghost predicate EmailsUnique(s: Store) {
    forall a, b :: a in s && b in s && s[a].email == s[b].email ==> a == b
  }

  /** A request body as the user handlers receive it. The handlers pass the whole body on, so a
      body may carry any schema field; a string field the client left out reads as "". */
  datatype UserForm = UserForm(
    username: string,
    email: string,
    password: string,
    passwordConfirmation: string,
    role: Option<string>,
    activationToken: Option<string>,
    activated: Option<bool>,
    resetToken: Option<string>,
    resetSentAt: Option<int>)

  /** `User.findOne({email})`: the user holding `email`, which the index makes unique. */
  function FindByEmail(s: Store, email: string): (r: Option<Id>)
    requires EmailsUnique(s)
    ensures r.Some? ==> r.value in s && s[r.value].email == email
    ensures forall id :: id in s && s[id].email == email ==> r == Some(id)
    ensures r.None? <==> forall id :: id in s ==> s[id].email != email
  {
    if exists id :: id in s && s[id].email == email then
      var id :| id in s && s[id].email == email; Some(id)
    else
      None
  }

  /** Whether storing `u` under `id` keeps the email index intact. */
  predicate EmailFree(s: Store, id: Id, email: string) {
    forall other :: other in s && other != id ==> s[other].email != email
  }

  /** A write (`findByIdAndUpdate` or the tail of `create`): refused by the unique email index
      when another record holds the email, otherwise it replaces or adds the record. */
  function Put(s: Store, id: Id, u: User): (r: Option<Store>)
    ensures r.Some? <==> EmailFree(s, id, u.email)
    ensures r.Some? ==> r.value == s[id := u]
    ensures r.Some? && EmailsUnique(s) ==> EmailsUnique(r.value)
  {
    if EmailFree(s, id, u.email) then Some(s[id := u]) else None
  }

  /** `User.create`: refused on a duplicate `_id` or a duplicate email. */
  function Create(s: Store, id: Id, u: User): (r: Option<Store>)
    ensures r.Some? <==> id !in s && EmailFree(s, id, u.email)
    ensures r.Some? ==> r.value == s[id := u] && r.value.Keys == s.Keys + {id}
    ensures r.Some? && EmailsUnique(s) ==> EmailsUnique(r.value)
  {
    if id in s then None else Put(s, id, u)
  }

  /** Replacing a record by one with the same email never breaks the email index. */
  lemma SameEmailKeepsUnique(s: Store, id: Id, u: User)
    requires EmailsUnique(s) && id in s && u.email == s[id].email
    ensures EmailsUnique(s[id := u])
  {
  }

  /** Some stored user has email `email` and a password hash that `password` matches. */
  predicate Authenticates(s: Store, c: Crypto, email: string, password: string) {
    exists id :: id in s && s[id].email == email && c.compare(password, s[id].password)
  }

  /** The login validators' database check on the (normalized) email: an unknown email and a wrong
      password get the same message; with `requireActivation`, a matching but unactivated account
      gets a message of its own. */
  function CredentialErrors(s: Store, c: Crypto, email: string, password: string, requireActivation: bool): (r: seq<Msg>)
    requires EmailsUnique(s)
    ensures |r| <= 1
    ensures r == [CredentialsIncorrect] <==> !Authenticates(s, c, email, password)
    ensures r == [NotActivated] <==> requireActivation && Authenticates(s, c, email, password)
                                     && !s[FindByEmail(s, email).value].activated
    ensures r == [] <==> Authenticates(s, c, email, password)
                         && (requireActivation ==> s[FindByEmail(s, email).value].activated)
  {
    match FindByEmail(s, email)
    case None => [CredentialsIncorrect]
    case Some(id) =>
      if !c.compare(password, s[id].password) then [CredentialsIncorrect]
      else if requireActivation && !s[id].activated then [NotActivated]
      else []
  }

  /** What a profile update writes over a stored record: the username and email, and the hash of
      the password when a non-empty one was submitted. Role, activation and token fields stay. */
  function Revised(u: User, c: Crypto, username: string, email: string, password: string, now: int): (v: User)
    ensures v.username == username && v.email == email && v.updatedAt == now
    ensures v.password == (if password == "" then u.password else c.hash(password))
    ensures v.role == u.role && v.activated == u.activated && v.activationToken == u.activationToken
    ensures v.resetToken == u.resetToken && v.resetSentAt == u.resetSentAt && v.createdAt == u.createdAt
  {
    u.(username := username, email := email, password := if password == "" then u.password else c.hash(password),
       updatedAt := now)
  }

  /** Removing records never breaks the email index. */
  lemma RemoveKeepsUnique(s: Store, id: Id)
    requires EmailsUnique(s)
    ensures EmailsUnique(s - {id})
  {
  }

  /** The `url` virtual: `'/users/' + id`. */
  function Url(id: Id): (r: string)
    ensures |r| == |id| + 7 && r[..7] == "/users/" && r[7..] == id
  {
    "/users/" + id
  }

  /** Distinct users have distinct urls. */
  lemma UrlInjective(a: Id, b: Id)
    requires Url(a) == Url(b)
    ensures a == b
  {
    assert a == Url(a)[7..] == Url(b)[7..] == b;
  }

  /** The claims a token issued for the stored user `id` carries. */
  function Claims(id: Id, u: User): (r: Identity)
    ensures r.id == id && r.username == u.username && r.role == u.role
  {
    Identity(id, u.username, u.role)
  }

  /** The projection `'username email'` (plus `_id`) of the page user views. */
  datatype UserBrief = UserBrief(id: Id, username: string, email: string)

  /** The projection `'_id username email role activated createdAt'` of the API user views. */
  datatype UserListing = UserListing(
    id: Id, username: string, email: string, role: Option<string>, activated: bool, createdAt: int)

  function IdsOfBriefs(rows: seq<UserBrief>): set<Id> {
    set i | 0 <= i < |rows| :: rows[i].id
  }

  function IdsOfListings(rows: seq<UserListing>): set<Id> {
    set i | 0 <= i < |rows| :: rows[i].id
  }

  function BriefOf(id: Id, u: User): UserBrief {
    UserBrief(id, u.username, u.email)
  }

  function ListingOf(id: Id, u: User): UserListing {
    UserListing(id, u.username, u.email, u.role, u.activated, u.createdAt)
  }
}
