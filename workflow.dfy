/**
 * The dashboard's operations on the article collection, as functions of the
 * collection: the status transition, saving an edited record, replacing the
 * image, the filtered view and the per-status counts.
 */
module Workflow {
  import opened Wrappers
  import opened Types
  import opened JsStrings
  import opened GeminiService
  import Seqs

  /** The address every published article is given. */
  const PublishedUrl: string := "https://github.com/daiandouglas/Sul-News"

  /** `!a.publishedAt`: the date is missing or empty. */
  predicate LacksPublishDate(a: Article)
  {
    a.publishedAt.None? || a.publishedAt.value == ""
  }

  /**
   * The record `handleUpdateStatus` builds for the matching article: any
   * status may follow any other. Entering PUBLISHED sets the url and stamps
   * the date only when there is none; any other status drops both.
   */
  function Transition(a: Article, status: ArticleStatus, now: string): (r: Article)
    ensures r.status == status && PublishedConsistent(r)
    ensures r.(status := a.status, publishedUrl := a.publishedUrl, publishedAt := a.publishedAt) == a
  {
    var updated := a.(status := status);
    if status == PUBLISHED then
      updated.(publishedUrl := Some(PublishedUrl),
               publishedAt := if LacksPublishDate(a) then Some(now) else a.publishedAt)
    else
      updated.(publishedUrl := None, publishedAt := None)
  }

  /** Publishing sets the url and keeps an existing date rather than restamping it. */
  lemma PublishKeepsFirstDate(a: Article, now: string)
    ensures Transition(a, PUBLISHED, now).publishedUrl == Some(PublishedUrl)
    ensures !LacksPublishDate(a) ==> Transition(a, PUBLISHED, now).publishedAt == a.publishedAt
    ensures LacksPublishDate(a) ==> Transition(a, PUBLISHED, now).publishedAt == Some(now)
  {
  }

  /** Publishing twice is publishing once: the second call changes nothing. */
  lemma PublishIdempotent(a: Article, first: string, second: string)
    requires first != ""
    ensures Transition(Transition(a, PUBLISHED, first), PUBLISHED, second) == Transition(a, PUBLISHED, first)
  {
  }

  /** Leaving PUBLISHED (or setting any other status) removes both publication fields. */
  lemma UnpublishClearsFields(a: Article, status: ArticleStatus, now: string)
    requires status != PUBLISHED
    ensures Transition(a, status, now).publishedUrl.None? && Transition(a, status, now).publishedAt.None?
  {
  }

  /** `prev.map(a => a.id === id ? f(a) : a)`: every record with the id is rewritten. */
  function MapMatching(articles: seq<Article>, id: string, f: Article -> Article): (r: seq<Article>)
    ensures |r| == |articles|
    ensures forall i :: 0 <= i < |articles| ==>
      r[i] == if articles[i].id == id then f(articles[i]) else articles[i]
  {
    seq(|articles|, i requires 0 <= i < |articles| =>
      if articles[i].id == id then f(articles[i]) else articles[i])
  }

  /** An id that no record carries leaves the collection as it is. */
  lemma UnknownIdIsNoOp(articles: seq<Article>, id: string, f: Article -> Article)
    requires forall i :: 0 <= i < |articles| ==> articles[i].id != id
    ensures MapMatching(articles, id, f) == articles
  {
  }

  /** `handleUpdateStatus` on the collection. */
  function UpdateStatusIn(articles: seq<Article>, id: string, status: ArticleStatus, now: string): (r: seq<Article>)
    ensures |r| == |articles|
    ensures forall i :: 0 <= i < |r| ==>
      r[i].id == articles[i].id && r[i].status == if articles[i].id == id then status else articles[i].status
  {
    MapMatching(articles, id, a => Transition(a, status, now))
  }

  /** `handleSaveArticle` on the collection: the record with the same id is replaced. */
  function SaveIn(articles: seq<Article>, updated: Article): (r: seq<Article>)
    ensures |r| == |articles|
    ensures forall i :: 0 <= i < |r| ==> r[i].id == articles[i].id
    ensures (exists i :: 0 <= i < |articles| && articles[i].id == updated.id) ==> updated in r
  {
    MapMatching(articles, updated.id, _ => updated)
  }

  /** The data url a base64 JPEG is shown from. */
  function ImageDataUrl(base64Image: string): string
  {
    "data:image/jpeg;base64," + base64Image
  }

  /** `article` with its image and the prompt of that image replaced together. */
  function WithImage(a: Article, image: GeneratedImage): Article
  {
    a.(imageUrl := ImageDataUrl(image.base64Image), imagePrompt := image.prompt)
  }

  /**
   * `handleRegenerateImage` on the collection: a new image for the article's
   * title is saved over the record; a failed generation changes nothing.
   */
  function RegenerateImageIn(articles: seq<Article>, article: Article, render: string -> Result<string, string>)
    : (r: seq<Article>)
    ensures |r| == |articles|
    ensures forall i :: 0 <= i < |r| ==> r[i].id == articles[i].id
  {
    match GenerateImage(article.title, render)
    case Ok(image) => SaveIn(articles, WithImage(article, image))
    case Err(_) => articles
  }

  /** Setting a status keeps the length, the order, every id and every other record. */
  lemma UpdateStatusFrame(articles: seq<Article>, id: string, status: ArticleStatus, now: string)
    ensures var r := UpdateStatusIn(articles, id, status, now);
      && |r| == |articles|
      && (forall i :: 0 <= i < |r| ==> r[i].id == articles[i].id)
      && (forall i :: 0 <= i < |r| && articles[i].id != id ==> r[i] == articles[i])
      && (forall i :: 0 <= i < |r| && articles[i].id == id ==> r[i] == Transition(articles[i], status, now))
  {
  }

  /** Setting a status keeps every article's publication fields consistent with its status. */
  lemma UpdateStatusKeepsConsistency(articles: seq<Article>, id: string, status: ArticleStatus, now: string)
    requires AllConsistent(articles)
    ensures AllConsistent(UpdateStatusIn(articles, id, status, now))
  {
  }

  /** Publishing the same article twice leaves the collection as the first publication left it. */
  lemma PublishTwiceInCollection(articles: seq<Article>, id: string, first: string, second: string)
    requires first != ""
    ensures UpdateStatusIn(UpdateStatusIn(articles, id, PUBLISHED, first), id, PUBLISHED, second)
      == UpdateStatusIn(articles, id, PUBLISHED, first)
  {
    var once := UpdateStatusIn(articles, id, PUBLISHED, first);
    var twice := UpdateStatusIn(once, id, PUBLISHED, second);
    forall i | 0 <= i < |articles| ensures twice[i] == once[i] {
      if articles[i].id == id {
        PublishIdempotent(articles[i], first, second);
      }
    }
  }

  /** Saving replaces the records with the saved id by the saved record and keeps every other one. */
  lemma SaveReplacesById(articles: seq<Article>, updated: Article)
    ensures var r := SaveIn(articles, updated);
      && |r| == |articles|
      && (forall i :: 0 <= i < |r| ==> r[i].id == articles[i].id)
      && (forall i :: 0 <= i < |r| && articles[i].id == updated.id ==> r[i] == updated)
      && (forall i :: 0 <= i < |r| && articles[i].id != updated.id ==> r[i] == articles[i])
  {
  }

  /** Saving a consistent record keeps the collection consistent. */
  lemma SaveKeepsConsistency(articles: seq<Article>, updated: Article)
    requires AllConsistent(articles) && PublishedConsistent(updated)
    ensures AllConsistent(SaveIn(articles, updated))
  {
  }

  /**
   * Regenerating replaces image and prompt as a pair from one generation,
   * with the prompt built from the title; failure leaves the collection alone.
   */
  lemma RegenerateReplacesPair(articles: seq<Article>, article: Article, render: string -> Result<string, string>)
    ensures var r := RegenerateImageIn(articles, article, render);
      && |r| == |articles|
      && (render(ImagePrompt(article.title)).Err? ==> r == articles)
      && (forall i :: 0 <= i < |r| && articles[i].id != article.id ==> r[i] == articles[i])
      && (render(ImagePrompt(article.title)).Ok? ==>
            forall i :: 0 <= i < |r| && articles[i].id == article.id ==>
              && r[i].imageUrl == ImageDataUrl(render(ImagePrompt(article.title)).value)
              && r[i].imagePrompt == ImagePrompt(article.title)
              && r[i] == article.(imageUrl := r[i].imageUrl, imagePrompt := r[i].imagePrompt))
  {
  }

  /** Regenerating the image of a consistent record keeps the collection consistent. */
  lemma RegenerateKeepsConsistency(articles: seq<Article>, article: Article, render: string -> Result<string, string>)
    requires AllConsistent(articles) && PublishedConsistent(article)
    ensures AllConsistent(RegenerateImageIn(articles, article, render))
  {
  }

  // ---------------------------------------------------------------------------
  // The filtered view
  // ---------------------------------------------------------------------------

  /** The three filter inputs; the empty string means "no filter". */
  datatype Filters = Filters(status: string, topic: string, date: string)

  const NoFilters: Filters := Filters("", "", "")

  predicate StatusMatch(a: Article, f: Filters)
  {
    f.status == "" || StatusValue(a.status) == f.status
  }

  /** Case-insensitive substring search over the topic and the title. */
  predicate TopicMatch(a: Article, f: Filters)
  {
    || f.topic == ""
    || Contains(Lower(a.topic), Lower(f.topic))
    || Contains(Lower(a.title), Lower(f.topic))
  }

  /** `publishedAt.slice(0, 10)`: the calendar day of an ISO timestamp. */
  function PublishedDay(timestamp: string): string
  {
    Seqs.SliceTo(timestamp, 10)
  }

  /** The date filter needs a (non-empty) publication date whose day is the one asked for. */
  predicate DateMatch(a: Article, f: Filters)
  {
    f.date == "" || (a.publishedAt.Some? && a.publishedAt.value != "" && PublishedDay(a.publishedAt.value) == f.date)
  }

  /** The three tests together; with no filters everything passes, and a date filter needs a date. */
  predicate Matches(a: Article, f: Filters)
    ensures f == NoFilters ==> Matches(a, f)
    ensures Matches(a, f) && f.date != "" ==> a.publishedAt.Some?
  {
    StatusMatch(a, f) && TopicMatch(a, f) && DateMatch(a, f)
  }

  /** `filteredArticles`. */
  function FilteredArticles(articles: seq<Article>, f: Filters): (r: seq<Article>)
    ensures |r| <= |articles|
    ensures forall i :: 0 <= i < |r| ==> Matches(r[i], f)
  {
    Seqs.Filter(articles, a => Matches(a, f))
  }

  /** The view holds exactly the articles that pass all three tests. */
  lemma FilteredExactly(articles: seq<Article>, f: Filters, a: Article)
    ensures a in FilteredArticles(articles, f) <==> a in articles && StatusMatch(a, f) && TopicMatch(a, f) && DateMatch(a, f)
  {
    Seqs.FilterMembership(articles, x => Matches(x, f), a);
  }

  /** The view keeps the collection's order. */
  lemma FilteredKeepsOrder(articles: seq<Article>, f: Filters)
    ensures Seqs.SubsequenceOf(FilteredArticles(articles, f), articles)
  {
    Seqs.FilterIsSubsequence(articles, a => Matches(a, f));
  }

  /** With every filter empty the view is the whole collection. */
  lemma NoFiltersShowAll(articles: seq<Article>)
    ensures FilteredArticles(articles, NoFilters) == articles
  {
    Seqs.FilterAll(articles, a => Matches(a, NoFilters));
  }

  /**
   * A date filter shows only articles with a publication date; in a
   * consistent collection those are exactly PUBLISHED ones.
   */
  lemma DateFilterShowsPublished(articles: seq<Article>, f: Filters, a: Article)
    requires f.date != "" && AllConsistent(articles)
    requires a in FilteredArticles(articles, f)
    ensures a.publishedAt.Some? && a.status == PUBLISHED
  {
    FilteredExactly(articles, f, a);
  }

  /** A status filter alone selects the articles in that status, in order. */
  lemma StatusFilterSelectsStatus(articles: seq<Article>, s: ArticleStatus)
    ensures FilteredArticles(articles, Filters(StatusValue(s), "", "")) == WithStatus(articles, s)
  {
    var f := Filters(StatusValue(s), "", "");
    forall j | 0 <= j < |articles| ensures Matches(articles[j], f) == (articles[j].status == s) {
      StatusValueRoundTrip(articles[j].status, StatusValue(s));
      StatusValueRoundTrip(s, StatusValue(s));
    }
    Seqs.FilterCongruent(articles, a => Matches(a, f), (a: Article) => a.status == s);
  }

  /** The topic filter ignores letter case: filters equal up to case select alike. */
  lemma TopicFilterIgnoresCase(a: Article, f: Filters, g: Filters)
    requires f.status == g.status && f.date == g.date && Lower(f.topic) == Lower(g.topic)
    ensures Matches(a, f) == Matches(a, g)
  {
    assert |f.topic| == |Lower(f.topic)| == |Lower(g.topic)| == |g.topic|;
  }

  /** A topic or title that contains the search text verbatim passes the topic test. */
  lemma VerbatimTopicMatches(a: Article, f: Filters)
    requires Contains(a.topic, f.topic) || Contains(a.title, f.topic)
    ensures TopicMatch(a, f)
  {
    if Contains(a.topic, f.topic) {
      ContainsLowered(a.topic, f.topic);
    } else {
      ContainsLowered(a.title, f.topic);
    }
  }

  // ---------------------------------------------------------------------------
  // Stats
  // ---------------------------------------------------------------------------

  /** `stats[s] || 0`: a status that no article has reads as zero. */
  function StatValue(stats: map<ArticleStatus, nat>, s: ArticleStatus): nat
  {
    if s in stats then stats[s] else 0
  }
}
