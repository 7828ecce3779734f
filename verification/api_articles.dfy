/** The JSON article endpoints (routes/api/articles.js). None of them is gated. */
module ApiArticles {
  import opened Base
  import opened Externals
  import opened Messages
  import opened ArticleModel
  import opened ArticleRules
  import opened Http
  import opened Ordering
  import opened Listing

  const NotFoundDetail := "Article Not Found"
  const NotFound := "article not found"

  /** The articles the API list draws from: the published ones. */
  function PublishedIds(s: ArticleStore): (r: set<Id>)
    ensures forall id :: id in r <==> id in s && s[id].published
  {
    set id | id in s && s[id].published
  }

  /** `list`: at most 50 published articles in ascending title order, each with its `createdAt`;
      every published article left out sorts no earlier than every article sent. */
  method List(s: ArticleStore) returns (r: Response)
    ensures r.Send? && r.status == 200 && r.cookie == Unchanged && r.body.ArticleBriefs?
    ensures |r.body.articles| == Min(50, |PublishedIds(s)|)
    ensures forall i :: 0 <= i < |r.body.articles| ==>
              r.body.articles[i].id in s && s[r.body.articles[i].id].published
              && r.body.articles[i] == ArticleBriefOf(r.body.articles[i].id, s[r.body.articles[i].id], CreatedAt)
    ensures forall i, j :: 0 <= i < j < |r.body.articles| ==> r.body.articles[i].id != r.body.articles[j].id
    ensures forall i, j :: 0 <= i < j < |r.body.articles| ==> Leq(r.body.articles[i].title, r.body.articles[j].title)
    ensures forall id, i :: id in PublishedIds(s) && id !in IdsOfArticleBriefs(r.body.articles) && 0 <= i < |r.body.articles| ==>
              Leq(r.body.articles[i].title, s[id].title)
  {
    var titles := map id | id in s && s[id].published :: s[id].title;
    assert titles.Keys == PublishedIds(s);
    var ids := SmallestFirst(titles, 50);
    var rows := ArticleRows(s, ids, CreatedAt);
    assert forall i :: 0 <= i < |ids| ==> ids[i] in IdsOfArticleBriefs(rows) by {
      forall i | 0 <= i < |ids| ensures ids[i] in IdsOfArticleBriefs(rows) {
        assert rows[i].id == ids[i];
      }
    }
    r := Send(200, ArticleBriefs(rows), Unchanged);
  }

  /** `detail`: 404 "Article Not Found" for an unknown id, else the whole article. */
  function Detail(s: ArticleStore, id: Id): (r: Response)
    ensures r == Send(404, Text(NotFoundDetail), Unchanged) <==> id !in s
    ensures id in s ==> r == Send(200, OneArticle(id, s[id]), Unchanged)
  {
    if id !in s then Send(404, Text(NotFoundDetail), Unchanged) else Send(200, OneArticle(id, s[id]), Unchanged)
  }

  /** `updateForm`: 404 "article not found" for an unknown id, else the article without its
      timestamps. */
  function UpdateForm(s: ArticleStore, id: Id): (r: Response)
    ensures r == Send(404, Text(NotFound), Unchanged) <==> id !in s
    ensures id in s ==> r == Send(200, FieldsOf(id, s[id]), Unchanged)
  {
    if id !in s then Send(404, Text(NotFound), Unchanged) else Send(200, FieldsOf(id, s[id]), Unchanged)
  }

  /** `create`: 422 with the errors; otherwise exactly one article is added under the fresh id the
      database assigns, and 201 carries it. A failed insert answers 500. */
  function Create(s: ArticleStore, sx: Sanitizers, f: ArticleForm, id: Id, now: int): (r: Step<ArticleStore>)
    ensures FormErrors(sx, f) != [] ==> r == Step(s, Send(422, Errors(FormErrors(sx, f)), Unchanged))
    ensures FormErrors(sx, f) == [] && id in s ==> r == Step(s, Send(500, ErrorMessage, Unchanged))
    ensures FormErrors(sx, f) == [] && id !in s ==>
              && r.store.Keys == s.Keys + {id}
              && (forall k :: k in s ==> r.store[k] == s[k])
              && r.store[id].title == sx.trim(f.title)
              && r.store[id].content == sx.escape(sx.trim(f.content))
              && (r.store[id].published <==> f.published == Some(true))
              && r.store[id].createdAt == now
              && r.response == Send(201, OneArticle(id, r.store[id]), Unchanged)
  {
    var errors := FormErrors(sx, f);
    if errors != [] then Step(s, Send(422, Errors(errors), Unchanged))
    else if id in s then Step(s, Send(500, ErrorMessage, Unchanged))
    else
      var g := Sanitized(sx, f);
      var a := NewArticle(g.title, g.content, g.published, now);
      Step(s[id := a], Send(201, OneArticle(id, a), Unchanged))
  }

  /** `update`: 422 with the errors; otherwise the route-id article, if any, is revised and sent
      back. For an unknown id nothing changes and the answer is 200 with a `null` body. */
  function Update(s: ArticleStore, sx: Sanitizers, id: Id, f: ArticleForm, now: int): (r: Step<ArticleStore>)
    ensures FormErrors(sx, f) != [] ==> r == Step(s, Send(422, Errors(FormErrors(sx, f)), Unchanged))
    ensures FormErrors(sx, f) == [] && id !in s ==> r == Step(s, Send(200, NoBody, Unchanged))
    ensures r.store.Keys == s.Keys
    ensures forall k :: k in s && k != id ==> r.store[k] == s[k]
    ensures FormErrors(sx, f) == [] && id in s ==>
              && r.store[id].title == sx.trim(f.title)
              && r.store[id].content == sx.escape(sx.trim(f.content))
              && r.store[id].published == f.published.GetOr(s[id].published)
              && r.store[id].createdAt == s[id].createdAt
              && r.response == Send(200, OneArticle(id, r.store[id]), Unchanged)
  {
    var errors := FormErrors(sx, f);
    if errors != [] then Step(s, Send(422, Errors(errors), Unchanged))
    else if id !in s then Step(s, Send(200, NoBody, Unchanged))
    else
      var a := Revise(s[id], Sanitized(sx, f), now);
      Step(s[id := a], Send(200, OneArticle(id, a), Unchanged))
  }

  /** `destroy`: 404 "article not found" for an unknown id; otherwise removes exactly that article
      and sets status 204, but the handler never ends the response. */
  function Destroy(s: ArticleStore, id: Id): (r: Step<ArticleStore>)
    ensures id !in s ==> r == Step(s, Send(404, Text(NotFound), Unchanged))
    ensures id in s ==> r.response == Unsent(204)
    ensures r.store == s - {id}
  {
    if id !in s then Step(s, Send(404, Text(NotFound), Unchanged)) else Step(s - {id}, Unsent(204))
  }

  /** Deleting a freshly created article undoes the create: the collection is as before, the
      article's detail is a 404 again, and a second delete answers 404. */
  lemma DestroyUndoesCreate(s: ArticleStore, sx: Sanitizers, f: ArticleForm, id: Id, now: int)
    requires FormErrors(sx, f) == [] && id !in s
    ensures var s1 := Create(s, sx, f, id, now).store;
            && Detail(s1, id).status == 200
            && Destroy(s1, id) == Step(s, Unsent(204))
            && Detail(s, id) == Send(404, Text(NotFoundDetail), Unchanged)
            && Destroy(s, id).response == Send(404, Text(NotFound), Unchanged)
  {
    var s1 := Create(s, sx, f, id, now).store;
    assert s1 - {id} == s;
  }

  /** An article created without `published` stays out of the API list until an update sets it:
      an update that leaves the box out keeps it unlisted, one that sends `true` lists it. */
  lemma UnlistedUntilPublished(s: ArticleStore, sx: Sanitizers, f: ArticleForm, id: Id, now: int,
                               g: ArticleForm, later: int)
    requires FormErrors(sx, f) == [] && id !in s && f.published.None?
    requires FormErrors(sx, g) == []
    ensures var s1 := Create(s, sx, f, id, now).store;
            && id !in PublishedIds(s1)
            && (g.published.None? ==> id !in PublishedIds(Update(s1, sx, id, g, later).store))
            && (g.published == Some(true) <==> id in PublishedIds(Update(s1, sx, id, g, later).store))
  {
    var s1 := Create(s, sx, f, id, now).store;
    assert id in s1 && !s1[id].published;
    var s2 := Update(s1, sx, id, g, later).store;
    assert s2[id].published == g.published.GetOr(false);
  }
}
