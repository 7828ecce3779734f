/** The article pages (routes/articles.js). Only the create routes sit behind the page login gate;
    update and delete take any visitor. */
module PageArticles {
  import opened Base
  import opened Externals
  import opened Messages
  import opened ArticleModel
  import opened ArticleRules
  import opened Http
  import opened Ordering
  import opened Listing

  /** The url an article's page lives at. */
  function ArticleUrl(id: Id): (r: string)
    ensures |r| == |id| + 10 && r[..10] == "/articles/" && r[10..] == id
  {
    "/articles/" + id
  }

  /** `list`: at most 50 articles, published or not, in ascending title order, each with its
      `updatedAt`; every article left out sorts no earlier than every article shown. */
  method List(s: ArticleStore) returns (r: Response)
    ensures r.Render? && r.view == "articles/list" && r.body.ArticleBriefs?
    ensures |r.body.articles| == Min(50, |s|)
    ensures forall i :: 0 <= i < |r.body.articles| ==>
              r.body.articles[i].id in s
              && r.body.articles[i] == ArticleBriefOf(r.body.articles[i].id, s[r.body.articles[i].id], UpdatedAt)
    ensures forall i, j :: 0 <= i < j < |r.body.articles| ==> r.body.articles[i].id != r.body.articles[j].id
    ensures forall i, j :: 0 <= i < j < |r.body.articles| ==> Leq(r.body.articles[i].title, r.body.articles[j].title)
    ensures forall id, i :: id in s && id !in IdsOfArticleBriefs(r.body.articles) && 0 <= i < |r.body.articles| ==>
              Leq(r.body.articles[i].title, s[id].title)
  {
    var titles := map id | id in s :: s[id].title;
    assert titles.Keys == s.Keys;
    var ids := SmallestFirst(titles, 50);
    var rows := ArticleRows(s, ids, UpdatedAt);
    assert forall i :: 0 <= i < |ids| ==> ids[i] in IdsOfArticleBriefs(rows) by {
      forall i | 0 <= i < |ids| ensures ids[i] in IdsOfArticleBriefs(rows) {
        assert rows[i].id == ids[i];
      }
    }
    r := Render("articles/list", ArticleBriefs(rows));
  }

  /** `detail`: 404 unless an article has the id. */
  function Detail(s: ArticleStore, id: Id): (r: Response)
    ensures r == ErrorPage(404) <==> id !in s
    ensures id in s ==> r == Render("articles/details", OneArticle(id, s[id]))
  {
    if id !in s then ErrorPage(404) else Render("articles/details", OneArticle(id, s[id]))
  }

  /** `updateForm`: 404 unless an article has the id. */
  function UpdateForm(s: ArticleStore, id: Id): (r: Response)
    ensures r == ErrorPage(404) <==> id !in s
    ensures id in s ==> r == Render("articles/update", FieldsOf(id, s[id]))
  {
    if id !in s then ErrorPage(404) else Render("articles/update", FieldsOf(id, s[id]))
  }

  /** `deleteForm`: 404 unless an article has the id; shows its title only. */
  function DeleteForm(s: ArticleStore, id: Id): (r: Response)
    ensures r == ErrorPage(404) <==> id !in s
    ensures id in s ==> r == Render("articles/delete", ArticleTitle(id, s[id].title))
  {
    if id !in s then ErrorPage(404) else Render("articles/delete", ArticleTitle(id, s[id].title))
  }

  /** `create`, behind the page login gate (`loggedIn`): invalid input re-renders the form with
      the errors; a valid one adds exactly one article, under the fresh id the database assigns,
      and redirects to it. */
  function Create(s: ArticleStore, loggedIn: bool, sx: Sanitizers, f: ArticleForm, id: Id, now: int): (r: Step<ArticleStore>)
    ensures !loggedIn ==> r == Step(s, Intercepted)
    ensures loggedIn && FormErrors(sx, f) != [] ==> r == Step(s, Render("articles/create", Errors(FormErrors(sx, f))))
    ensures loggedIn && FormErrors(sx, f) == [] && id in s ==> r == Step(s, ErrorPage(500))
    ensures loggedIn && FormErrors(sx, f) == [] && id !in s ==>
              && r.store.Keys == s.Keys + {id}
              && (forall k :: k in s ==> r.store[k] == s[k])
              && r.store[id].title == sx.trim(f.title)
              && r.store[id].content == sx.escape(sx.trim(f.content))
              && (r.store[id].published <==> f.published == Some(true))
              && r.response == Redirect(ArticleUrl(id), Unchanged)
  {
    if !loggedIn then Step(s, Intercepted)
    else
      var errors := FormErrors(sx, f);
      if errors != [] then Step(s, Render("articles/create", Errors(errors)))
      else if id in s then Step(s, ErrorPage(500))
      else
        var g := Sanitized(sx, f);
        Step(s[id := NewArticle(g.title, g.content, g.published, now)], Redirect(ArticleUrl(id), Unchanged))
  }

  /** `update` (ungated): invalid input re-renders the form; otherwise the route-id article, if
      any, is revised and no other article changes. The redirect to the article happens whether or
      not it exists. */
  function Update(s: ArticleStore, sx: Sanitizers, id: Id, f: ArticleForm, now: int): (r: Step<ArticleStore>)
    ensures FormErrors(sx, f) != [] ==> r == Step(s, Render("articles/update", Errors(FormErrors(sx, f))))
    ensures FormErrors(sx, f) == [] ==> r.response == Redirect(ArticleUrl(id), Unchanged)
    ensures id !in s ==> r.store == s
    ensures r.store.Keys == s.Keys
    ensures forall k :: k in s && k != id ==> r.store[k] == s[k]
    ensures FormErrors(sx, f) == [] && id in s ==>
              && r.store[id].title == sx.trim(f.title)
              && r.store[id].content == sx.escape(sx.trim(f.content))
              && r.store[id].published == f.published.GetOr(s[id].published)
              && r.store[id].createdAt == s[id].createdAt
  {
    var errors := FormErrors(sx, f);
    if errors != [] then Step(s, Render("articles/update", Errors(errors)))
    else if id !in s then Step(s, Redirect(ArticleUrl(id), Unchanged))
    else Step(s[id := Revise(s[id], Sanitized(sx, f), now)], Redirect(ArticleUrl(id), Unchanged))
  }

  /** `destroy` (ungated): removes the article named by the body's `id` field, not the route's. */
  function Destroy(s: ArticleStore, routeId: Id, bodyId: Option<Id>): (r: Step<ArticleStore>)
    ensures r.response == Redirect("/articles", Unchanged)
    ensures bodyId.None? ==> r.store == s
    ensures bodyId.Some? ==> r.store.Keys == s.Keys - {bodyId.value}
    ensures forall k :: k in r.store ==> k in s && r.store[k] == s[k]
    ensures routeId in s && bodyId != Some(routeId) ==> routeId in r.store
  {
    match bodyId
    case None => Step(s, Redirect("/articles", Unchanged))
    case Some(victim) => Step(s - {victim}, Redirect("/articles", Unchanged))
  }

  /** Deleting a freshly created article, by the id the delete form posts, undoes the create: the
      collection is as before and the article's page is a 404 again. */
  lemma DestroyUndoesCreate(s: ArticleStore, sx: Sanitizers, f: ArticleForm, id: Id, now: int)
    requires FormErrors(sx, f) == [] && id !in s
    ensures var s1 := Create(s, true, sx, f, id, now).store;
            && Detail(s1, id).Render?
            && Destroy(s1, id, Some(id)).store == s
            && Detail(Destroy(s1, id, Some(id)).store, id) == ErrorPage(404)
  {
  }
}
