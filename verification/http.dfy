/** What a handler sends back, and the result of one request: the new store and the response. */
module Http {
  import opened Base
  import opened Messages
  import opened UserModel
  import opened ArticleModel

  /** What happens to the `jwt` cookie. */
  datatype Cookie = Unchanged | SetJwt(token: string) | ClearJwt

  /** Response payloads: a page's template data or an API's JSON. */
  datatype Body =
    | NoBody                                        // no data, or JSON `null`
    | Text(text: string)
    | Errors(errors: seq<Msg>)                      // `errors.array()`, in check order
    | Issued(token: string, user: Identity)         // `{token, user}`
    | UpdatedUser(id: Id, username: string, email: string, updatedAt: int)
    | OneUserBrief(brief: UserBrief)
    | UserName(id: Id, username: string)            // the `'username'` projection of one user
    | OneUserListing(listing: UserListing)
    | UserBriefs(briefs: seq<UserBrief>)
    | UserListings(listings: seq<UserListing>)
    | OneArticle(id: Id, article: Article)
    | ArticleTitle(id: Id, title: string)           // the `'title'` projection of one article
    | ArticleFields(id: Id, title: string, content: string, published: bool) // `'-createdAt -updatedAt'`
    | ErrorMessage                                  // `err.message` of a failed database call
    | ArticleBriefs(articles: seq<ArticleBrief>)

  datatype Response =
    | Render(view: string, body: Body)              // `res.render(view, data)`
    | Redirect(location: string, cookie: Cookie)    // `res.redirect`, after any cookie change
    | ErrorPage(status: int)                        // `next(createError(404))` or `next(err)` (500)
    | Send(status: int, body: Body, cookie: Cookie) // `res.status(status).send(body)`
    | Unsent(status: int)                           // a status was set but nothing was sent
    | Silent                                        // neither a response nor `next()`: the request hangs
    | Intercepted                                   // answered by a middleware outside this model

  /** The projection `'-createdAt -updatedAt'` of one article: every field but the timestamps. */
  function FieldsOf(id: Id, a: Article): Body {
    ArticleFields(id, a.title, a.content, a.published)
  }

  datatype Step<S> = Step(store: S, response: Response)
}
