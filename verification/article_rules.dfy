/** The article form validator both article routers share (`validateForm()` in routes/articles.js
    and routes/api/articles.js), and the write an update makes. */
module ArticleRules {
  import opened Base
  import opened Externals
  import opened Messages
  import opened ArticleModel

  const TitleMax := 200
  const ContentMin := 3
  const ContentMax := 5000

  /** One character of the class `[\w'",.!?\- ]`: an ASCII letter or digit, the underscore, or one
      of `'",.!?-` and the space. */
  predicate TitleChar(c: char) {
    || 'A' <= c <= 'Z'
    || 'a' <= c <= 'z'
    || '0' <= c <= '9'
    || c in "_'\",.!?- "
  }

  /** `/^[\w'",.!?\- ]+$/`: one or more characters of the class, and nothing else. */
  predicate MatchesTitlePattern(t: string) {
    |t| >= 1 && forall i :: 0 <= i < |t| ==> TitleChar(t[i])
  }

  /** The pattern test as the regular-expression engine runs it: a left-to-right scan that stops at
      the first character outside the class. */
  method MatchTitle(t: string) returns (b: bool)
    ensures b <==> MatchesTitlePattern(t)
    ensures !b && t != "" ==> exists i :: 0 <= i < |t| && !TitleChar(t[i])
  {
    if |t| == 0 {
      return false;
    }
    var i := 0;
    while i < |t|
      invariant 0 <= i <= |t|
      invariant forall k :: 0 <= k < i ==> TitleChar(t[k])
    {
      if !TitleChar(t[i]) {
        return false;
      }
      i := i + 1;
    }
    return true;
  }

  /** The title chain: trimmed first, then required, at most 200 characters and matching the
      pattern. The checks do not stop at the first failure, so an empty title also fails the
      pattern. */
  function TitleErrors(sx: Sanitizers, title: string): (r: seq<Msg>)
    ensures TitleRequired in r <==> sx.trim(title) == ""
    ensures TitleTooLong in r <==> |sx.trim(title)| > TitleMax
    ensures TitleCharacters in r <==> !MatchesTitlePattern(sx.trim(title))
    ensures TitleRequired in r ==> TitleCharacters in r
    ensures r == [] <==> && 1 <= |sx.trim(title)| <= TitleMax
                         && forall i :: 0 <= i < |sx.trim(title)| ==> TitleChar(sx.trim(title)[i])
  {
    var t := sx.trim(title);
    When(t == "", TitleRequired) + When(|t| > TitleMax, TitleTooLong) + When(!MatchesTitlePattern(t), TitleCharacters)
  }

  /** The content chain: trimmed, then HTML-escaped, then measured; 3 to 5000 characters inclusive. */
  function ContentErrors(sx: Sanitizers, content: string): (r: seq<Msg>)
    ensures |r| <= 1
    ensures ContentTooShort in r <==> |sx.escape(sx.trim(content))| < ContentMin
    ensures ContentTooLong in r <==> |sx.escape(sx.trim(content))| > ContentMax
    ensures r == [] <==> ContentMin <= |sx.escape(sx.trim(content))| <= ContentMax
  {
    var c := sx.escape(sx.trim(content));
    When(|c| < ContentMin, ContentTooShort) + When(|c| > ContentMax, ContentTooLong)
  }

  /** All errors of a submitted article form: title errors first, then content errors. */
  function FormErrors(sx: Sanitizers, f: ArticleForm): (r: seq<Msg>)
    ensures forall m :: m in r <==> m in TitleErrors(sx, f.title) || m in ContentErrors(sx, f.content)
    ensures r == [] <==> TitleErrors(sx, f.title) == [] && ContentErrors(sx, f.content) == []
  {
    TitleErrors(sx, f.title) + ContentErrors(sx, f.content)
  }

  /** The body as the sanitizers leave it: the title trimmed, the content trimmed and escaped. */
  function Sanitized(sx: Sanitizers, f: ArticleForm): (g: ArticleForm)
    ensures g.title == sx.trim(f.title) && g.content == sx.escape(sx.trim(f.content))
    ensures g.published == f.published
  {
    ArticleForm(sx.trim(f.title), sx.escape(sx.trim(f.content)), f.published)
  }

  /** What `findByIdAndUpdate(id, body)` writes over a stored article: title and content, and
      `published` only when the body carries it; `createdAt` stays and `updatedAt` moves. */
  function Revise(a: Article, f: ArticleForm, now: int): (b: Article)
    ensures b.title == f.title && b.content == f.content
    ensures f.published.Some? ==> b.published == f.published.value
    ensures f.published.None? ==> b.published == a.published
    ensures b.createdAt == a.createdAt && b.updatedAt == now
  {
    Article(f.title, f.content, f.published.GetOr(a.published), a.createdAt, now)
  }

  /** A valid form, once sanitized, stores a title of 1 to 200 pattern characters and content of 3
      to 5000 characters. */
  lemma ValidFormStoresValidFields(sx: Sanitizers, f: ArticleForm)
    requires FormErrors(sx, f) == []
    ensures var g := Sanitized(sx, f);
            && MatchesTitlePattern(g.title) && |g.title| <= TitleMax
            && ContentMin <= |g.content| <= ContentMax
  {
    assert TitleErrors(sx, f.title) == [];
  }
}
