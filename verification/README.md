# node-mongo-baseapp in Dafny

A model of the core of an Express/Mongoose starter app: its user accounts, its API authorization
gate and its article CRUD. Each request handler is a pure function from the collection (a finite
map from `_id` to record) and the request to a `Step`: the new collection plus the response. A
response is a rendered page, a redirect, an error page, a JSON/text reply, a status that is never
sent, or no response at all.

The modules follow the repository's files:

- `UserModel` and `ArticleModel` hold the two schemas (`models/user.js`, `models/article.js`).
  The user collection carries its unique email index as the invariant `EmailsUnique`. Every user
  operation requires it and every writing operation re-establishes it. Inserts go through
  `Create`, and profile updates through `Put`; both refuse a duplicate email the way the index
  does. Activation and the password-reset pair rewrite a record without touching its email, which
  `SameEmailKeepsUnique` shows keeps the invariant.
- `PageAuth` and `ApiAuth` are the account handlers and their validators (`routes/auth.js`,
  `routes/api/auth.js`). They cover signup, the activation link, login, logout and the
  forgot/reset password pair.
- `Bearer` reads the `Authorization` header by splitting it on single spaces, as the API
  middleware does: a simplified, case-sensitive form of section 2.1 of RFC 6750.
- `ApiAuthMiddleware` holds the four gates of `routes/api/authMiddleware.js`.
- `PageUsers` and `ApiUsers` are the user list, lookups, profile update and account deletion.
- `ArticleRules` holds the article validator both article routers share. `PageArticles` and
  `ApiArticles` are the article routers.
- `Ordering` and `Listing` model `find().sort({field: 'asc'}).limit(n)`:
  - the order is code-point lexicographic;
  - the selection is a method that picks the `n` smallest keys.
- `Lifecycle` proves properties that span several requests.

The handlers also depend on code outside the model:

- bcrypt, jsonwebtoken, crypto-random-string and the express-validator sanitizers. These are
  uninterpreted functions carried in `Externals.Env`. The proofs that need them assume only:
  - `CryptoSound`: a password matches its own hash;
  - `JwtSound`: a signed token verifies to the identity it was signed over and contains no
    space.
- The clock. It is the `now` parameter, in milliseconds.
- The random tokens. Each is a parameter of length 10.
- The `_id` the database assigns on create. It is a parameter; an `_id` already taken is refused
  like any failed insert.

The model follows the code as written, including where it departs from its comments:

- There is no real field allow-list. `const formData = { username, email } = req.body` evaluates
  to the whole body. So page signup stores a body-supplied `role`, `activated`, `resetToken` and
  `resetSentAt`. API signup does the same, except that it forces `activated`.
- The page signup's duplicate-email validator queries `{where: {email}}`. That filter names no
  schema field and matches no record, so the validator never reports. A duplicate email reaches `User.create`, where the unique index refuses it
  and the handler shows the error page (500).
- `resetPassword` renders its errors without returning. It then replaces the password of the user
  holding the query email, whatever the token. `PageAuth.FailedResetStillWrites` shows this.
- The reset window is 72,000,000 ms, which is 20 hours; the comment beside it says 2 hours. The
  test is a strict `>`, so exactly 72,000,000 ms still passes. A record without `resetSentAt`
  never expires, because the subtraction gives NaN.
- Neither activation nor reset clears its token, so both links can be replayed.
- Different refusals behave differently:
  - A verified API token without a `user` claim gets no response at all from `isLoggedIn`,
    `isAdmin` or `isCorrectUser`.
  - `isCorrectUserN` sends only a jsonwebtoken `JsonWebTokenError` to `/login`. An expired token,
    a missing claim or a foreign id go to `/`.
- Some responses are odd:
  - API article delete sets 204 but never ends the response.
  - API article update of an unknown id answers 200 with an empty body (`res.send(null)`).
  - API user update of an unknown id answers 400, because the handler dereferences `null`.
  - The page updates of an unknown id redirect as if they had succeeded.
- `signupActivationRequired` calls `sendActivationEmail`, which `routes/api/auth.js` neither
  defines nor imports. The call throws after the insert, so the client gets 400 "Signup failed."
  while the account stays stored. `ApiAuth.FailedActivationSignupKeepsAccount` shows this, and
  that a retry is then refused with "Email is already in use".
- Both page delete handlers remove the record named by the body's `id`, not the route's.
- An article update leaves `published` alone when the body does not carry it (an unchecked box).

## Model

| member | source | states |
|---|---|---|
| UserModel.FindByEmail | models/user.js:5 | with the unique email index, the lookup finds the one user holding the email, and finds none exactly when no user holds it |
| UserModel.Put | models/user.js:5 | a write succeeds exactly when no other record holds the new email, replaces only that record, and keeps emails unique |
| UserModel.Create | models/user.js:3-12 | an insert succeeds exactly when neither the `_id` nor the email is taken; it adds one record and keeps emails unique |
| UserModel.SameEmailKeepsUnique | models/user.js:5 | rewriting a record without changing its email keeps emails unique |
| UserModel.RemoveKeepsUnique | models/user.js:5 | removing a record keeps emails unique |
| UserModel.CredentialErrors | routes/auth.js:220-231 | an unknown email and a wrong password both give exactly "Email or Password are incorrect."; with activation required, a correct password on an unactivated account gives the activation message instead; nothing is reported exactly when the credentials match (and the account is activated, if required) |
| UserModel.Url | models/user.js:15-17 | a user's url is `/users/` followed by its id |
| UserModel.UrlInjective | models/user.js:15-17 | distinct users have distinct urls |
| Ordering.LeqReflexive | routes/users.js:21 | the sort order is reflexive |
| Ordering.LeqTotal | routes/users.js:21 | any two strings are comparable |
| Ordering.LeqTransitive | routes/users.js:21 | the sort order is transitive |
| Ordering.LeqAntisymmetric | routes/users.js:21 | two strings that sort before each other are equal |
| Listing.Least | routes/users.js:20-21 | picks a candidate whose sort field is no greater than any other candidate's |
| Listing.SmallestFirst | routes/users.js:20-21 | returns min(limit, size) distinct keys in ascending order, and every key left out sorts no earlier than every key returned |
| Bearer.Split | routes/api/authMiddleware.js:11 | splitting on spaces gives at least one piece, and no piece holds a space |
| Bearer.JoinSplit | routes/api/authMiddleware.js:11-14 | joining the pieces with spaces gives back the header |
| Bearer.SplitJoin | routes/api/authMiddleware.js:11-14 | splitting undoes joining when no piece holds a space |
| Bearer.SplitNoSpace | routes/api/authMiddleware.js:11 | a string without spaces is a single piece |
| Bearer.SplitAfter | routes/api/authMiddleware.js:11-14 | a space-free prefix followed by a space splits off as the first piece |
| Bearer.FirstSpace | routes/api/authMiddleware.js:11 | the index of the first space: no space before it, and a space at it unless it is the end |
| Bearer.FirstSpaceUnique | routes/api/authMiddleware.js:11 | only one index has no space before it and a space (or the end) at it |
| Bearer.SplitFirst | routes/api/authMiddleware.js:11-14 | the first piece runs up to the first space, and the other pieces are the split of the rest |
| Bearer.Credential | routes/api/authMiddleware.js:9-14 | a credential exists exactly when the header is present, its first piece is exactly `Bearer` and a space follows; it is the text after `Bearer ` up to the next space |
| Bearer.BearerRoundTrip | routes/api/authMiddleware.js:11-14 | `Bearer <token>` yields the token back when the token holds no space |
| Bearer.SchemeIsCaseSensitive | routes/api/authMiddleware.js:11 | `bearer <token>` yields no credential |
| Bearer.ScanToSpace | routes/api/authMiddleware.js:11 | a left-to-right scan finds the first space |
| Bearer.Pieces | routes/api/authMiddleware.js:11-14 | the scan returns the split's first piece and, when there is one, its second |
| Externals.Verify | routes/api/authMiddleware.js:16 | a missing or empty token is malformed; any other token is what the token service says |
| ApiAuthMiddleware.GetUser | routes/api/authMiddleware.js:6-24 | a missing or non-Bearer header, or a credential that does not verify, is refused (401); otherwise the verified payload's `user` claim, or none |
| ApiAuthMiddleware.IsLoggedIn | routes/api/authMiddleware.js:26-29 | proceeds exactly when the token carries a user, with that user; denies with 401 exactly when `getUser` refused; never redirects |
| ApiAuthMiddleware.IsAdmin | routes/api/authMiddleware.js:31-45 | proceeds exactly when the token carries a user whose live record exists with role exactly `admin`; every other refusal is 401 |
| ApiAuthMiddleware.IsCorrectUser | routes/api/authMiddleware.js:74-87 | proceeds exactly when the token's user id equals the route id; a mismatch is 403 `Forbidden`; it reads no store |
| ApiAuthMiddleware.IsCorrectUserN | routes/api/authMiddleware.js:88-104 | a malformed cookie token redirects to `/login`; an expired one, one without a user, or a foreign id redirects to `/`; only the matching id proceeds |
| ApiAuthMiddleware.SignedCookiePassesOwnRoute | routes/api/authMiddleware.js:88-104 | a cookie holding a signed token passes `isCorrectUserN` on its own id's route and is redirected to `/` on any other user's route |
| ApiAuthMiddleware.SignedTokenPasses | routes/api/authMiddleware.js:6-29 | a signed token sent as `Bearer <token>` passes `isLoggedIn` with its identity and `isCorrectUser` for its own id |
| ApiAuthMiddleware.ForeignSchemeRefused | routes/api/authMiddleware.js:9-22 | no header, or a scheme other than `Bearer`, gets 401 from `isLoggedIn` and `isAdmin` |
| ApiAuthMiddleware.AdminFollowsLiveRecord | routes/api/authMiddleware.js:31-45 | a signed token passes `isAdmin` exactly while the live record says `admin`; once the record is demoted or deleted it gets 401 |
| ApiAuthMiddleware.OwnershipIgnoresDeletion | routes/api/authMiddleware.js:74-87 | after the record is deleted, its token still passes `isCorrectUser` while `isAdmin` refuses it |
| PageAuth.SignupErrors | routes/auth.js:142-167 | reports a blank trimmed username, a blank or malformed email, a password under 6 characters and a confirmation mismatch, each exactly when it holds; never reports a duplicate email |
| PageAuth.Signup | routes/auth.js:67-89 | invalid input re-renders with the store unchanged; a duplicate email is the error page with the store unchanged; otherwise it adds one user with the password hash, a fresh activation token, the body's role, reset token and reset time, and `activated` only if the body says so, and redirects home |
| PageAuth.Activate | routes/auth.js:115-139 | succeeds exactly when token and email are present and the user holding the email has that activation token; success sets only `activated` (and the timestamp) and issues a token over the user's id, username and role |
| PageAuth.LoginErrors | routes/auth.js:212-233 | reports a blank password, a blank email, and non-matching credentials; passes exactly when the credentials match an activated account |
| PageAuth.LoginClaims | routes/auth.js:188-190 | page login signs the user's id and username, with role `standard` when the record has none |
| PageAuth.Login | routes/auth.js:178-203 | re-renders with the errors, or sets a token for the user the normalized email names and redirects home |
| PageAuth.Logout | routes/auth.js:206-210 | clears the token cookie and redirects home |
| PageAuth.ForgotErrors | routes/auth.js:291-303 | reports a blank email and an email no user holds, each exactly when it holds |
| PageAuth.ForgotPassword | routes/auth.js:243-264 | on a known email changes only that user's reset token and issue time; otherwise re-renders with the store unchanged |
| PageAuth.ResetCheck | routes/auth.js:348-365 | passes exactly when the query token and email are present, the password is confirmed, and the user with that email and reset token was issued it no more than 72,000,000 ms ago |
| PageAuth.ResetErrors | routes/auth.js:345-367 | reports a short password, and passes exactly when the password is long enough and the reset check passes |
| PageAuth.ResetPassword | routes/auth.js:314-343 | replaces the password hash of the user holding the query email whether or not validation passed; renders the errors when it failed, else issues a token and redirects to the user |
| PageAuth.FailedResetStillWrites | routes/auth.js:319-328 | with a wrong token the reset is rejected on screen, yet the password is replaced |
| PageAuth.ResetWindowBoundary | routes/auth.js:359-362 | exactly 72,000,000 ms after issue still passes, one ms later is expired, and a record without an issue time never expires |
| ApiAuth.SignupErrors | routes/api/auth.js:71-87 | reports a blank (untrimmed) username, a blank, malformed or taken email, and a password under 6 characters, each exactly when it holds; no confirmation check |
| ApiAuth.Signup | routes/api/auth.js:18-45 | 422 with the store unchanged on invalid input; 400 "Signup failed." when the insert fails; otherwise adds one activated user with the trimmed, escaped username, the normalized email, the password hash and the body's role, activation token, reset token and reset time, and answers 201 with a token over `{id, username, role}` |
| ApiAuth.SignupActivationRequired | routes/api/auth.js:48-68 | stores only the trimmed, escaped username, the normalized email, the password hash and a fresh activation token, so the user is unactivated and has no role or reset fields; the undefined `sendActivationEmail` then throws, so the answer is 400 "Signup failed." with the record kept |
| ApiAuth.FailedActivationSignupKeepsAccount | routes/api/auth.js:55-67 | a valid activation-required signup stores the account while answering 400 "Signup failed.", and the same body sent again gets 422 with only "Email is already in use" |
| ApiAuth.LoginErrors | routes/api/auth.js:126-147 | like the page validator, but activation is never checked |
| ApiAuth.Login | routes/api/auth.js:91-118 | 422 with the errors, or 200 with a token over exactly the stored user's id, username and role |
| ApiAuth.Logout | routes/api/auth.js:121-124 | always clears the token cookie and answers 200 `logged out` |
| PageUsers.List | routes/users.js:18-26 | at most 50 distinct users showing only id, username and email, in ascending username order, with every user left out sorting no earlier |
| PageUsers.Detail | routes/users.js:29-39 | 404 exactly when no user has the id |
| PageUsers.UpdateForm | routes/users.js:42-52 | 404 exactly when no user has the id |
| PageUsers.DeleteForm | routes/users.js:83-91 | 404 exactly when no user has the id; otherwise only the username |
| PageUsers.UpdateErrors | routes/users.js:106-133 | reports a blank trimmed username, a blank or malformed email, an email held by another user, and a given password that is short or unconfirmed; keeping one's own email passes |
| PageUsers.Update | routes/users.js:55-80 | invalid input re-renders with the store unchanged; otherwise writes only username, email and, for a non-empty password, its hash to the route-id user, keeps role, activation and tokens, and redirects to the user (an unknown id changes nothing) |
| PageUsers.Destroy | routes/users.js:94-103 | removes exactly the user the body's id names (the route's user survives otherwise), clears the token cookie and redirects home |
| ApiUsers.TestAccess | routes/api/users.js:9 | `Access Approved` exactly for a live admin |
| ApiUsers.List | routes/api/users.js:20-29 | at most 100 distinct users as `{_id, username, email, role, activated, createdAt}`, in ascending username order, with every user left out sorting no earlier |
| ApiUsers.Detail | routes/api/users.js:32-43 | only a live admin gets through; then 404 for an unknown id, else the user's projection |
| ApiUsers.UpdateErrors | routes/api/users.js:90-109 | reports a blank (untrimmed) username, a blank, malformed or foreign-held email, and a given password under 6 characters; no confirmation check |
| ApiUsers.Update | routes/api/users.js:46-71 | 422 with the store unchanged; 400 "User update failed." for an unknown id; otherwise writes only username, email and the optional hash and answers `{id, username, email, updatedAt}` |
| ApiUsers.Destroy | routes/api/users.js:74-87 | 404 for an unknown id; otherwise removes exactly that user, clears the token cookie and answers 200 |
| ArticleModel.NewArticle | models/article.js:4-9 | a new article is published only if the body says so, and carries its creation time in both timestamps |
| ArticleRules.MatchTitle | routes/articles.js:129 | the scan accepts exactly the non-empty titles made only of letters, digits, `_`, space and `'",.!?-` |
| ArticleRules.TitleErrors | routes/articles.js:126-130 | the trimmed title is required, at most 200 characters and matches the pattern; an empty title also fails the pattern |
| ArticleRules.ContentErrors | routes/articles.js:131-134 | the trimmed, escaped content must be 3 to 5000 characters long, inclusive |
| ArticleRules.FormErrors | routes/articles.js:124-136 | a form passes exactly when both its title and its content pass |
| ArticleRules.Revise | routes/articles.js:89-90 | an update writes title and content, writes `published` only when the body carries it, and keeps `createdAt` |
| ArticleRules.ValidFormStoresValidFields | routes/articles.js:124-136 | a form that passes stores a title of 1 to 200 pattern characters and content of 3 to 5000 characters |
| PageArticles.ArticleUrl | routes/articles.js:60 | an article's page is `/articles/` followed by its id |
| PageArticles.List | routes/articles.js:21-29 | at most 50 distinct articles, published or not, in ascending title order, with every article left out sorting no earlier |
| PageArticles.Detail | routes/articles.js:32-42 | 404 exactly when no article has the id |
| PageArticles.UpdateForm | routes/articles.js:67-78 | 404 exactly when no article has the id; otherwise the article without timestamps |
| PageArticles.DeleteForm | routes/articles.js:99-110 | 404 exactly when no article has the id; otherwise its title |
| PageArticles.Create | routes/articles.js:49-64 | only a logged-in visitor reaches it; invalid input re-renders with the store unchanged; otherwise adds exactly one sanitized article and redirects to it |
| PageArticles.Update | routes/articles.js:81-96 | invalid input re-renders with the store unchanged; otherwise revises only the route-id article, if any, and redirects to it |
| PageArticles.Destroy | routes/articles.js:113-121 | removes exactly the article the body's id names, and redirects to the list |
| PageArticles.DestroyUndoesCreate | routes/articles.js:113-121 | deleting a just-created article by the id its delete form posts restores the collection, and its page is a 404 again |
| ApiArticles.PublishedIds | routes/api/articles.js:18 | the API list draws from exactly the published articles |
| ApiArticles.List | routes/api/articles.js:16-25 | at most 50 distinct published articles in ascending title order, with every published article left out sorting no earlier |
| ApiArticles.Detail | routes/api/articles.js:28-39 | 404 "Article Not Found" exactly when no article has the id |
| ApiArticles.UpdateForm | routes/api/articles.js:60-72 | 404 "article not found" exactly when no article has the id; otherwise the article without timestamps |
| ApiArticles.Create | routes/api/articles.js:42-57 | 422 with the store unchanged; otherwise adds exactly one sanitized article and answers 201 with it |
| ApiArticles.Update | routes/api/articles.js:75-90 | 422 with the store unchanged; an unknown id changes nothing and answers 200 with no body; otherwise revises only that article and answers with it |
| ApiArticles.Destroy | routes/api/articles.js:93-104 | 404 for an unknown id; otherwise removes exactly that article and sets 204 without sending |
| ApiArticles.DestroyUndoesCreate | routes/api/articles.js:93-104 | deleting a just-created article restores the collection; its detail and a second delete then answer 404 |
| ApiArticles.UnlistedUntilPublished | models/article.js:8 | an article created without `published` stays out of the API list until an update sends `true` |
| Lifecycle.StoredHashAuthenticates | routes/auth.js:220-228 | a user stored with the hash of a password authenticates with it and is the user its email finds |
| Lifecycle.ApiSignupThenLogin | routes/api/auth.js:91-113 | after API signup, API login with the same credentials succeeds with a token over the new user and the body's role |
| Lifecycle.PageSignupActivateLogin | routes/auth.js:115-139 | after page signup, login gives only the activation message; after activation, the same credentials log in |
| Lifecycle.ActivationReplays | routes/auth.js:115-126 | the activation link still works after it was used |
| Lifecycle.ResetReplays | routes/auth.js:314-328 | a reset within the window succeeds, and the same link passes validation again afterwards |
| Lifecycle.PageSignupGrantsAdmin | routes/auth.js:67-81 | a signup body carrying `role: admin` and `activated: true` creates an admin whose login token passes the API admin gate |
| Lifecycle.ApiSignupGrantsAdmin | routes/api/auth.js:18-31 | an API signup body carrying `role: admin` gets a token that passes the admin gate |
| Lifecycle.LoginHidesWhichPartFailed | routes/auth.js:220-228 | an unknown email and a wrong password get identical errors, on the page and in the API |
| Lifecycle.UpdatedPasswordLogsIn | routes/users.js:68-74 | after a profile update with a new password, the account logs in with it and keeps its role |

## Left out

- Rendering, flash messages, cookie lifetimes and the emails are left out. The activation and
  reset emails are only rendered and logged.
- Error bodies carry only the validation messages. The source also echoes the submitted form
  (`user: formData`) or, in the API, the whole validation result object.
- Database failures other than a refused insert or write are left out. These are the `catch`
  branches that answer 500 or pass the error on. Mongoose's casting of malformed ids and of
  non-string body values is left out too.
- A body-supplied `_id` or timestamps, and the difference between a missing string field and an
  empty one, are not modelled. A missing string field is "".
- PageUsers.Destroy and PageArticles.Destroy: a delete request whose body carries no `id`
  is modelled as removing nothing. The handlers pass `undefined` to `findByIdAndRemove`; whether
  Mongoose then matches no document or an arbitrary one depends on its query casting, which is
  not part of this model. PageAuth.ResetPassword is modelled the same way for a request without
  a query `email`: the missing email is "", which no account the handlers create holds, so the
  `{email: undefined}` filter matches nobody and nothing changes.
- The page-side `routes/authMiddleware.js` is not part of this model. The page article create
  takes its verdict as the `loggedIn` parameter. The form-only handlers (`signupForm`,
  `loginForm`, `createForm`, the reset form) only render a template.
- The jsonwebtoken clock and secret are folded into the `verify` function. Expiry of the signed
  one-year tokens is one of its verdicts.
- The page signup's `{where: {email}}` filter is taken to match no record, as it does when
  Mongoose passes unknown filter fields through. Under a strict-query setting the filter would be
  emptied and match any record; this model does not cover that reading.
- Concurrency is left out: each request runs alone against one store.
- The order of users or articles that tie on the sort field is left unspecified, as MongoDB
  leaves it.
- Characters are Unicode scalar values. Every length the model checks is an express-validator
  `isLength`, and validator.js counts a surrogate pair as one character there, as `|s|` does.
  Newer validator.js versions also leave out the variation selectors U+FE0E and U+FE0F; the
  model counts them.
