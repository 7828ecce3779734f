/** The API's authorization gates (routes/api/authMiddleware.js): a bearer token read from the
    `Authorization` header, checked against the token service and, for the admin gate only, against
    the live user record. */
module ApiAuthMiddleware {
  import opened Base
  import opened Externals
  import opened UserModel
  import opened Bearer

  const Unauthorized := "Unauthorized"
  const Forbidden := "Forbidden"

  /** What a gate does with the request. */
  datatype Gate =
    | Next(user: Identity)             // calls `next()`
    | Deny(status: int, text: string)  // `res.status(status).send(text)`
    | Stall                            // neither: no response is ever sent
    | Bounce(location: string)         // `res.redirect(location)`

  /** The outcome of `getUser`: the token's `user` claim, a verified token without one (the
      function returns `undefined` and sends nothing), or a 401 already sent. */
  datatype Lookup = Claimed(user: Identity) | Unclaimed | Refused

  /** `getUser`: any failure to find a `Bearer` credential or to verify it sends 401. */
  function GetUser(j: Jwt, header: Option<string>): (r: Lookup)
    ensures Credential(header).None? ==> r == Refused
    ensures r.Claimed? ==> Credential(header).Some? && Credential(header).value != ""
                            && j.verify(Credential(header).value) == Valid(Payload(Some(r.user)))
    ensures r.Unclaimed? ==> Credential(header).Some? && j.verify(Credential(header).value) == Valid(Payload(None))
    ensures r.Refused? <==> !Verify(j, Credential(header)).Valid?
  {
    match Verify(j, Credential(header))
    case Valid(Payload(Some(u))) => Claimed(u)
    case Valid(Payload(None)) => Unclaimed
    case _ => Refused
  }

  /** `isLoggedIn`: proceeds exactly when the token carries a user, and never proceeds after
      sending 401. */
  function IsLoggedIn(j: Jwt, header: Option<string>): (r: Gate)
    ensures r.Next? <==> GetUser(j, header).Claimed?
    ensures r.Next? ==> r.user == GetUser(j, header).user
    ensures r.Deny? <==> GetUser(j, header).Refused?
    ensures r.Deny? ==> r == Deny(401, Unauthorized)
    ensures !r.Bounce?
  {
    match GetUser(j, header)
    case Claimed(u) => Next(u)
    case Unclaimed => Stall
    case Refused => Deny(401, Unauthorized)
  }

  /** `isAdmin`: re-reads the live record for the claimed id and proceeds only when it exists and
      its role is exactly `admin`; a missing record or another role is a 401 whatever the token says. */
  function IsAdmin(s: Store, j: Jwt, header: Option<string>): (r: Gate)
    ensures r.Next? <==> GetUser(j, header).Claimed? && GetUser(j, header).user.id in s
                         && s[GetUser(j, header).user.id].role == Some("admin")
    ensures r.Next? ==> r.user == GetUser(j, header).user
    ensures r.Stall? <==> GetUser(j, header).Unclaimed?
    ensures r.Deny? ==> r == Deny(401, Unauthorized)
    ensures !r.Bounce?
  {
    match GetUser(j, header)
    case Claimed(u) =>
      if u.id in s && s[u.id].role == Some("admin") then Next(u) else Deny(401, Unauthorized)
    case Unclaimed => Stall
    case Refused => Deny(401, Unauthorized)
  }

  /** `isCorrectUser`: proceeds only when the route id equals the token's user id; it trusts the
      token and never reads the store (it takes none). */
  function IsCorrectUser(j: Jwt, header: Option<string>, routeId: Id): (r: Gate)
    ensures r.Next? <==> GetUser(j, header).Claimed? && GetUser(j, header).user.id == routeId
    ensures r.Next? ==> r.user.id == routeId
    ensures GetUser(j, header).Claimed? && GetUser(j, header).user.id != routeId ==> r == Deny(403, Forbidden)
    ensures GetUser(j, header).Refused? ==> r == Deny(401, Unauthorized)
    ensures r.Stall? <==> GetUser(j, header).Unclaimed?
  {
    match GetUser(j, header)
    case Claimed(u) => if routeId == u.id then Next(u) else Deny(403, Forbidden)
    case Unclaimed => Stall
    case Refused => Deny(401, Unauthorized)
  }

  /** `isCorrectUserN`, the cookie variant: a token jsonwebtoken rejects as malformed sends the
      client to `/login`; an expired token, a token without a user, or an id mismatch sends it to
      `/`; only a matching id proceeds. */
  function IsCorrectUserN(j: Jwt, cookie: Option<string>, routeId: Id): (r: Gate)
    ensures r.Next? || r.Bounce?
    ensures r.Next? ==> r.user.id == routeId && Verify(j, cookie) == Valid(Payload(Some(r.user)))
    ensures Verify(j, cookie) == Malformed ==> r == Bounce("/login")
    ensures Verify(j, cookie) == Expired ==> r == Bounce("/")
    ensures Verify(j, cookie) == Valid(Payload(None)) ==> r == Bounce("/")
    ensures forall u :: Verify(j, cookie) == Valid(Payload(Some(u))) && u.id != routeId ==> r == Bounce("/")
  {
    match Verify(j, cookie)
    case Malformed => Bounce("/login")
    case Expired => Bounce("/")
    case Valid(Payload(None)) => Bounce("/")
    case Valid(Payload(Some(u))) => if routeId != u.id then Bounce("/") else Next(u)
  }

  /** The header a client sends with a token it was issued. */
  function BearerHeader(token: string): Option<string> {
    Some("Bearer " + token)
  }

  /** A token the service signed over `i`, sent as `Bearer <token>`, passes `isLoggedIn` with
      exactly that identity, and passes `isCorrectUser` for the route of its own id. */
  lemma SignedTokenPasses(j: Jwt, i: Identity)
    requires JwtSound(j)
    ensures IsLoggedIn(j, BearerHeader(j.sign(i))) == Next(i)
    ensures IsCorrectUser(j, BearerHeader(j.sign(i)), i.id) == Next(i)
  {
    BearerRoundTrip(j.sign(i));
  }

  /** The page cookie gate against the token login sets: it passes on the route of the token's own
      id and bounces home on any other user's route. */
  lemma SignedCookiePassesOwnRoute(j: Jwt, i: Identity, other: Id)
    requires JwtSound(j) && other != i.id
    ensures IsCorrectUserN(j, Some(j.sign(i)), i.id) == Next(i)
    ensures IsCorrectUserN(j, Some(j.sign(i)), other) == Bounce("/")
  {
  }

  /** A missing header, or one whose scheme is not exactly `Bearer`, is refused with 401. */
  lemma ForeignSchemeRefused(j: Jwt, s: Store, scheme: string, token: string)
    requires scheme != "Bearer" && ' ' !in scheme
    ensures IsLoggedIn(j, None) == Deny(401, Unauthorized)
    ensures IsLoggedIn(j, Some(scheme + " " + token)) == Deny(401, Unauthorized)
    ensures IsAdmin(s, j, Some(scheme + " " + token)) == Deny(401, Unauthorized)
  {
    var h := scheme + " " + token;
    SplitAfter(scheme, token);
    SplitFirst(h);
  }

  /** The admin gate follows the live record: a token signed while the user was an admin is
      refused once the record is demoted or deleted, and accepted only while it says `admin`. */
  lemma AdminFollowsLiveRecord(s: Store, j: Jwt, i: Identity)
    requires JwtSound(j)
    ensures IsAdmin(s, j, BearerHeader(j.sign(i))).Next? <==> i.id in s && s[i.id].role == Some("admin")
    ensures i.id in s && s[i.id].role != Some("admin") ==> IsAdmin(s, j, BearerHeader(j.sign(i))) == Deny(401, Unauthorized)
    ensures IsAdmin(s - {i.id}, j, BearerHeader(j.sign(i))) == Deny(401, Unauthorized)
  {
    BearerRoundTrip(j.sign(i));
  }

  /** The ownership gate does not: the same token still passes `isCorrectUser` for its id after the
      record is deleted, while `isAdmin` refuses it. */
  lemma OwnershipIgnoresDeletion(s: Store, j: Jwt, i: Identity)
    requires JwtSound(j)
    ensures IsCorrectUser(j, BearerHeader(j.sign(i)), i.id) == Next(i)
    ensures IsAdmin(s - {i.id}, j, BearerHeader(j.sign(i))).Deny?
  {
    SignedTokenPasses(j, i);
    AdminFollowsLiveRecord(s, j, i);
  }
}
