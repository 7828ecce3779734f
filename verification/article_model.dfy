/** The Article schema: title, content and a publication flag, with timestamps and no owner. */
module ArticleModel {
  import opened Base

  datatype Article = Article(title: string, content: string, published: bool, createdAt: int, updatedAt: int)

  /** The article collection, keyed by `_id`. */
  type ArticleStore = map<Id, Article>

  /** The body an article handler receives. Only schema fields survive Mongoose's strict mode,
      and `published` may be absent (an unchecked box is not sent). */
  datatype ArticleForm = ArticleForm(title: string, content: string, published: Option<bool>)

  /** A new record: `published` takes its default, false, unless the body sets it. */
  function NewArticle(title: string, content: string, published: Option<bool>, now: int): (a: Article)
    ensures a.published <==> published == Some(true)
    ensures published.None? ==> !a.published
    ensures a.title == title && a.content == content
    ensures a.createdAt == now && a.updatedAt == now
  {
    Article(title, content, published.GetOr(false), now, now)
  }

  /** The list projections: `'title published updatedAt'` on the pages and
      `'title published createdAt'` in the API (plus `_id`); `stamp` is that timestamp. */
  datatype ArticleBrief = ArticleBrief(id: Id, title: string, published: bool, stamp: int)

  /** Which timestamp a list projection carries. */
  datatype Stamp = CreatedAt | UpdatedAt

  function ArticleBriefOf(id: Id, a: Article, which: Stamp): ArticleBrief {
    ArticleBrief(id, a.title, a.published, if which == CreatedAt then a.createdAt else a.updatedAt)
  }

  /** The list projections of the articles `ids` names, in order. */
  function ArticleRows(s: ArticleStore, ids: seq<Id>, which: Stamp): (r: seq<ArticleBrief>)
    requires forall i :: 0 <= i < |ids| ==> ids[i] in s
    ensures |r| == |ids|
    ensures forall i :: 0 <= i < |r| ==> r[i] == ArticleBriefOf(ids[i], s[ids[i]], which)
  {
    if ids == [] then [] else [ArticleBriefOf(ids[0], s[ids[0]], which)] + ArticleRows(s, ids[1..], which)
  }

  function IdsOfArticleBriefs(rows: seq<ArticleBrief>): set<Id> {
    set i | 0 <= i < |rows| :: rows[i].id
  }
}
