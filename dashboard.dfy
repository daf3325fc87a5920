/**
 * The dashboard page's state and handlers: the article collection, the
 * displayed error and the article open for review, changed only by the
 * handlers below, each of which replaces the collection wholesale.
 */
module DashboardPage {
  import opened Wrappers
  import opened Types
  import GeminiService
  import opened Workflow
  import opened Pipeline
  import opened KanbanBoard
  import Seqs

  class Dashboard {
    var articles: seq<Article>
    var error: Option<string>
    /** The article shown in the review modal, if any. */
    var current: Option<Article>

    /**
     * The page's invariant: the publication fields match the status in every
     * stored article and in the article under review.
     */
    predicate Valid()
      reads this
    {
      AllConsistent(articles) && (current.Some? ==> PublishedConsistent(current.value))
    }

    /** The page opens on an empty collection, no error and no article under review. */
    constructor ()
      ensures articles == [] && error == None && current == None
      ensures Valid()
    {
      articles := [];
      error := None;
      current := None;
    }

    /**
     * `handleProspectNews`: validate the keywords, prospect topics, then for
     * each of the first `count` topics write the article and generate its
     * image, collecting drafts locally. The drafts are appended only when
     * every step succeeded; otherwise the collection is left as it was and
     * the error is shown. Returns the provider calls made, in order.
     */
    method ProspectNews(keywords: seq<string>, timeRange: string, cfg: GenerationConfig, p: Provider,
                        freshId: nat -> string)
      returns (calls: seq<Call>)
      modifies this
      ensures var run := Prospect(keywords, timeRange, cfg, p, freshId);
        && calls == run.calls
        && current == old(current)
        && (run.outcome.Ok? ==> articles == old(articles) + run.outcome.value && error == None)
        && (run.outcome.Err? ==> articles == old(articles) && error == Some(DisplayedError(run.outcome.error)))
      ensures old(AllConsistent(articles)) ==> AllConsistent(articles)
      ensures old(Valid()) ==> Valid()
    {
      var run := ProspectAndGenerate(keywords, timeRange, cfg, p, freshId);
      calls := run.calls;
      if run.outcome.Ok? {
        ProspectedDraftsConsistent(keywords, timeRange, cfg, p, freshId);
        articles := articles + run.outcome.value;
        error := None;
      } else {
        error := Some(DisplayedError(run.outcome.error));
      }
    }

    /** `handleSaveArticle`: the record with the same id is replaced, and becomes the one under review. */
    method SaveArticle(updated: Article)
      modifies this
      ensures articles == SaveIn(old(articles), updated)
      ensures current == Some(updated) && error == old(error)
      ensures old(AllConsistent(articles)) && PublishedConsistent(updated) ==> AllConsistent(articles)
      ensures old(Valid()) && PublishedConsistent(updated) ==> Valid()
    {
      if AllConsistent(articles) && PublishedConsistent(updated) {
        SaveKeepsConsistency(articles, updated);
      }
      articles := SaveIn(articles, updated);
      current := Some(updated);
    }

    /** `handleUpdateStatus`: the transition is applied to the record with the id, and the modal closes. */
    method UpdateStatus(id: string, status: ArticleStatus, now: string)
      modifies this
      ensures articles == UpdateStatusIn(old(articles), id, status, now)
      ensures current == None && error == old(error)
      ensures old(AllConsistent(articles)) ==> AllConsistent(articles)
      ensures old(Valid()) ==> Valid()
    {
      if AllConsistent(articles) {
        UpdateStatusKeepsConsistency(articles, id, status, now);
      }
      articles := UpdateStatusIn(articles, id, status, now);
      CloseModal();
    }

    /**
     * `handleRegenerateImage`: a new image is generated from the article's
     * title and saved with its prompt; when generation fails nothing changes.
     */
    method RegenerateImage(article: Article, render: string -> Result<string, string>) returns (saved: bool)
      modifies this
      ensures saved <==> GeminiService.GenerateImage(article.title, render).Ok?
      ensures articles == RegenerateImageIn(old(articles), article, render)
      ensures error == old(error)
      ensures old(AllConsistent(articles)) && PublishedConsistent(article) ==> AllConsistent(articles)
      ensures old(Valid()) && PublishedConsistent(article) ==> Valid()
      ensures var generated := GeminiService.GenerateImage(article.title, render);
        current == if generated.Ok? then Some(WithImage(article, generated.value)) else old(current)
    {
      var generated := GeminiService.GenerateImage(article.title, render);
      saved := generated.Ok?;
      if saved {
        SaveArticle(WithImage(article, generated.value));
      }
    }

    /**
     * `handleReviewArticle`: open the modal on an article. The board only
     * offers stored articles (see `BoardShowsFiltered`), and opening one of
     * them keeps the page valid.
     */
    method ReviewArticle(article: Article)
      modifies this
      ensures current == Some(article) && articles == old(articles) && error == old(error)
      ensures old(Valid()) && article in old(articles) ==> Valid()
    {
      current := Some(article);
    }

    /** `handleCloseModal`. */
    method CloseModal()
      modifies this
      ensures current == None && articles == old(articles) && error == old(error)
      ensures old(Valid()) ==> Valid()
    {
      current := None;
    }

    /**
     * `stats`: the reduce that counts articles per status into an initially
     * empty record. Only statuses that occur get an entry.
     */
    method Stats() returns (stats: map<ArticleStatus, nat>)
      ensures forall s :: StatValue(stats, s) == |WithStatus(articles, s)|
      ensures forall s :: s in stats <==> |WithStatus(articles, s)| > 0
      ensures StatValue(stats, DRAFT) + StatValue(stats, REVIEW) + StatValue(stats, APPROVED)
        + StatValue(stats, PUBLISHED) + StatValue(stats, CANCELLED) == |articles|
    {
      stats := map[];
      for i := 0 to |articles|
        invariant forall s :: StatValue(stats, s) == |WithStatus(articles[..i], s)|
        invariant forall s :: s in stats <==> StatValue(stats, s) > 0
      {
        var a := articles[i];
        stats := stats[a.status := StatValue(stats, a.status) + 1];
        assert articles[..i + 1] == articles[..i] + [a];
        forall s ensures StatValue(stats, s) == |WithStatus(articles[..i + 1], s)| {
          WithStatusSnoc(articles[..i], a, s);
        }
      }
      assert articles[..|articles|] == articles;
      StatusCountsAddUp(articles);
    }
  }

  /**
   * The provider-facing part of `handleProspectNews`: validate the keywords,
   * prospect topics, keep the first `count`, and run the generation loop.
   */
  method ProspectAndGenerate(keywords: seq<string>, timeRange: string, cfg: GenerationConfig, p: Provider,
                             freshId: nat -> string)
    returns (run: Run)
    ensures run == Prospect(keywords, timeRange, cfg, p, freshId)
  {
    var active := ActiveKeywords(keywords);
    if |active| == 0 {
      BlankKeywordsFailWithoutCalls(keywords, timeRange, cfg, p, freshId);
      return Run(Err(NoKeywordsError), []);
    }
    var prospected := GeminiService.ProspectNews(p.search(active, timeRange), p.parseTopics);
    if prospected.Err? {
      ProspectFailureMessage(keywords, timeRange, cfg, p, freshId);
      return Run(Err(prospected.error), [Search(active, timeRange)]);
    }
    ProspectFound(keywords, timeRange, cfg, p, freshId, prospected.value);
    var retained := Seqs.SliceTo(prospected.value.topics, cfg.count);
    var newArticles, calls, failure := GenerateBatch(retained, prospected.value.sources, cfg, p, freshId);
    run := Prepend([], [Search(active, timeRange)],
      Run(if failure.None? then Ok(newArticles) else Err(failure.value), calls));
  }

  /**
   * The loop of `handleProspectNews`: for each retained topic, write the
   * article, generate its image and push the draft onto a local array; the
   * first failure stops the loop and is returned instead.
   */
  method GenerateBatch(topics: seq<GeminiService.Topic>, sources: seq<SourceUrl>, cfg: GenerationConfig, p: Provider,
                       freshId: nat -> string)
    returns (newArticles: seq<Article>, calls: seq<Call>, failure: Option<string>)
    ensures BuildBatch(topics, sources, cfg, p, freshId, 0)
      == Run(if failure.None? then Ok(newArticles) else Err(failure.value), calls)
  {
    newArticles := [];
    calls := [];
    failure := None;
    assert topics[0..] == topics;
    PrependNothing(BuildBatch(topics, sources, cfg, p, freshId, 0));
    var i := 0;
    while i < |topics|
      invariant 0 <= i <= |topics|
      invariant Prepend(newArticles, calls, BuildBatch(topics[i..], sources, cfg, p, freshId, i))
        == BuildBatch(topics, sources, cfg, p, freshId, 0)
    {
      var item := topics[i];
      assert topics[i..][0] == item && topics[i..][1..] == topics[i + 1..];
      var written := p.write(item.topic, cfg.tone, cfg.length);
      if written.Err? {
        calls := calls + [Write(item.topic)];
        failure := Some(written.error);
        return;
      }
      var image := GeminiService.GenerateImage(written.value.title, p.render);
      if image.Err? {
        calls := calls + [Write(item.topic), Render(GeminiService.ImagePrompt(written.value.title))];
        failure := Some(image.error);
        return;
      }
      var draft := NewDraft(freshId(i), written.value, image.value, sources, item.topic);
      PrependPrepend(newArticles, calls, [draft], [Write(item.topic), Render(image.value.prompt)],
        BuildBatch(topics[i + 1..], sources, cfg, p, freshId, i + 1));
      newArticles := newArticles + [draft];
      calls := calls + [Write(item.topic), Render(image.value.prompt)];
      i := i + 1;
    }
    assert topics[i..] == [];
    assert newArticles + [] == newArticles;
    assert calls + [] == calls;
  }

  /** The board is drawn from the filtered view: a card appears in a column exactly when it passes the filters and has the column's status. */
  lemma BoardShowsFiltered(articles: seq<Article>, f: Filters, i: nat, a: Article)
    requires i < |Constants.KanbanColumns|
    ensures a in Board(FilteredArticles(articles, f))[i].articles <==>
      a in articles && Matches(a, f) && a.status == Constants.KanbanColumns[i].status
  {
    ColumnContents(FilteredArticles(articles, f), i, a);
    FilteredExactly(articles, f, a);
  }
}
