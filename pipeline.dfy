/**
 * The prospect-and-generate batch of `handleProspectNews` as a specification:
 * which provider calls are made, in what order, and which articles result.
 * The provider is a set of functions that may fail.
 */
module Pipeline {
  import opened Wrappers
  import opened Types
  import opened JsStrings
  import opened GeminiService
  import opened Workflow
  import Seqs

  const NoKeywordsError: string := "Por favor, forneça pelo menos uma palavra-chave."
  const UnknownError: string := "Ocorreu um erro desconhecido."

  /** `err.message || 'Ocorreu um erro desconhecido.'`: what the dashboard shows for an error. */
  function DisplayedError(message: string): (shown: string)
    ensures shown != ""
    ensures message != "" ==> shown == message
  {
    if message == "" then UnknownError else message
  }

  predicate NonEmpty(k: string)
  {
    k != ""
  }

  /** `keywords.map(k => k.trim()).filter(Boolean)`. */
  function ActiveKeywords(keywords: seq<string>): (r: seq<string>)
    ensures forall i :: 0 <= i < |r| ==> r[i] != "" && IsTrimmed(r[i])
    ensures r == [] <==> forall i :: 0 <= i < |keywords| ==> Trim(keywords[i]) == ""
  {
    var trimmed := Seqs.Map(keywords, Trim);
    var r := Seqs.Filter(trimmed, NonEmpty);
    Seqs.FilterEmpty(trimmed, NonEmpty);
    forall i | 0 <= i < |r| ensures IsTrimmed(r[i]) {
      Seqs.FilterMembership(trimmed, NonEmpty, r[i]);
    }
    r
  }

  /**
   * The active keywords are the trimmed keywords in their input order, with
   * exactly the empty ones dropped.
   */
  lemma ActiveKeywordsFromInput(keywords: seq<string>)
    ensures Seqs.SubsequenceOf(ActiveKeywords(keywords), Seqs.Map(keywords, Trim))
    ensures forall x :: x in ActiveKeywords(keywords) <==> x != "" && x in Seqs.Map(keywords, Trim)
  {
    var trimmed := Seqs.Map(keywords, Trim);
    Seqs.FilterIsSubsequence(trimmed, NonEmpty);
    forall x ensures x in ActiveKeywords(keywords) <==> x != "" && x in trimmed {
      Seqs.FilterMembership(trimmed, NonEmpty, x);
    }
  }

  /** Keywords are taken one by one: each is trimmed, and dropped when that leaves it empty. */
  lemma ActiveKeywordsCons(k: string, ks: seq<string>)
    ensures ActiveKeywords([k] + ks) == (if Trim(k) == "" then [] else [Trim(k)]) + ActiveKeywords(ks)
  {
    Seqs.MapConcat([k], ks, Trim);
    assert Seqs.Map([k], Trim) == [Trim(k)];
    Seqs.FilterConcat([Trim(k)], Seqs.Map(ks, Trim), NonEmpty);
    assert [Trim(k)][1..] == [];
  }

  /** What the article writer returns. */
  datatype ArticleText = ArticleText(title: string, content: string)

  /**
   * The generative provider: the search-grounded call that prospects topics,
   * the JSON parser applied to its cleaned reply, the article writer
   * (topic, tone, length) and the image model (prompt to base64 image).
   */
  datatype Provider = Provider(
    search: (seq<string>, string) -> Result<RawResponse, string>,
    parseTopics: string -> Option<seq<Topic>>,
    write: (string, Tone, int) -> Result<ArticleText, string>,
    render: string -> Result<string, string>)

  /** Tone, target length in words, and how many topics to turn into articles. */
  datatype GenerationConfig = GenerationConfig(tone: Tone, length: int, count: int)

  /** A provider call, as recorded in the order it is made. */
  datatype Call = Search(keywords: seq<string>, timeRange: string) | Write(topic: string) | Render(prompt: string)

  /** The outcome of a batch: its articles or the first error, and the calls made. */
  datatype Run = Run(outcome: Result<seq<Article>, string>, calls: seq<Call>)

  /** The record the loop pushes for one topic. */
  function NewDraft(id: string, text: ArticleText, image: GeneratedImage, sources: seq<SourceUrl>, topic: string)
    : (a: Article)
    ensures a.status == DRAFT && a.publishedUrl.None? && a.publishedAt.None? && PublishedConsistent(a)
  {
    Article(id, text.title, text.content, ImageDataUrl(image.base64Image), image.prompt, DRAFT, sources, topic, None, None)
  }

  /** Articles already built and calls already made, in front of the rest of a run. */
  function Prepend(built: seq<Article>, calls: seq<Call>, rest: Run): Run
  {
    Run(if rest.outcome.Ok? then Ok(built + rest.outcome.value) else rest.outcome, calls + rest.calls)
  }

  /** One turn of the loop: write the article, then generate its image. */
  function Step(topic: Topic, sources: seq<SourceUrl>, cfg: GenerationConfig, p: Provider, id: string): (run: Run)
    ensures 1 <= |run.calls| <= 2 && run.calls[0] == Write(topic.topic)
    ensures |run.calls| == 2 <==> p.write(topic.topic, cfg.tone, cfg.length).Ok?
    ensures run.outcome.Ok? ==> |run.outcome.value| == 1 && |run.calls| == 2
  {
    match p.write(topic.topic, cfg.tone, cfg.length)
    case Err(e) => Run(Err(e), [Write(topic.topic)])
    case Ok(text) =>
      match GenerateImage(text.title, p.render)
      case Err(e) => Run(Err(e), [Write(topic.topic), Render(ImagePrompt(text.title))])
      case Ok(image) =>
        Run(Ok([NewDraft(id, text, image, sources, topic.topic)]), [Write(topic.topic), Render(image.prompt)])
  }

  /** The loop over the retained topics; the `k`-th article gets `freshId(k)`. The first failure ends it. */
  function BuildBatch(topics: seq<Topic>, sources: seq<SourceUrl>, cfg: GenerationConfig, p: Provider,
                      freshId: nat -> string, k: nat): (run: Run)
    ensures run.outcome.Ok? ==> |run.outcome.value| == |topics| && |run.calls| == 2 * |topics|
    decreases |topics|
  {
    if topics == [] then Run(Ok([]), [])
    else
      var step := Step(topics[0], sources, cfg, p, freshId(k));
      if step.outcome.Err? then step
      else Prepend(step.outcome.value, step.calls, BuildBatch(topics[1..], sources, cfg, p, freshId, k + 1))
  }

  /** The whole of `handleProspectNews`: validate, prospect, truncate to `count`, generate. */
  function Prospect(keywords: seq<string>, timeRange: string, cfg: GenerationConfig, p: Provider,
                    freshId: nat -> string): (run: Run)
    ensures run.calls == [] <==> ActiveKeywords(keywords) == []
    ensures run.calls != [] ==> run.calls[0] == Search(ActiveKeywords(keywords), timeRange)
  {
    var active := ActiveKeywords(keywords);
    if active == [] then Run(Err(NoKeywordsError), [])
    else
      match ProspectNews(p.search(active, timeRange), p.parseTopics)
      case Err(e) => Run(Err(e), [Search(active, timeRange)])
      case Ok(found) =>
        Prepend([], [Search(active, timeRange)],
          BuildBatch(Seqs.SliceTo(found.topics, cfg.count), found.sources, cfg, p, freshId, 0))
  }

  lemma PrependNothing(run: Run)
    ensures Prepend([], [], run) == run
  {
    assert [] + run.calls == run.calls;
    if run.outcome.Ok? {
      assert [] + run.outcome.value == run.outcome.value;
    }
  }

  lemma PrependSize(built: seq<Article>, calls: seq<Call>, rest: Run)
    ensures Prepend(built, calls, rest).outcome.Ok? == rest.outcome.Ok?
    ensures rest.outcome.Ok? ==> |Prepend(built, calls, rest).outcome.value| == |built| + |rest.outcome.value|
  {
  }

  lemma PrependPrepend(a: seq<Article>, c: seq<Call>, b: seq<Article>, d: seq<Call>, rest: Run)
    ensures Prepend(a, c, Prepend(b, d, rest)) == Prepend(a + b, c + d, rest)
  {
    assert (c + d) + rest.calls == c + (d + rest.calls);
    if rest.outcome.Ok? {
      assert (a + b) + rest.outcome.value == a + (b + rest.outcome.value);
    }
  }

  /** When every keyword is blank, validation fails before any provider call. */
  lemma BlankKeywordsFailWithoutCalls(keywords: seq<string>, timeRange: string, cfg: GenerationConfig,
                                      p: Provider, freshId: nat -> string)
    requires forall i :: 0 <= i < |keywords| ==> Trim(keywords[i]) == ""
    ensures Prospect(keywords, timeRange, cfg, p, freshId) == Run(Err(NoKeywordsError), [])
  {
  }

  /**
   * `a` is the draft made for `topic`: written from the topic with the
   * configured tone and length, illustrated from its own title, citing the
   * shared sources, with the given id and no publication fields.
   */
  predicate IsDraftFor(a: Article, topic: Topic, sources: seq<SourceUrl>, cfg: GenerationConfig, p: Provider, id: string)
  {
    && a.id == id
    && a.status == DRAFT
    && a.topic == topic.topic
    && a.sourceUrls == sources
    && a.publishedUrl.None? && a.publishedAt.None?
    && p.write(topic.topic, cfg.tone, cfg.length) == Ok(ArticleText(a.title, a.content))
    && a.imagePrompt == ImagePrompt(a.title)
    && p.render(a.imagePrompt).Ok?
    && a.imageUrl == ImageDataUrl(p.render(a.imagePrompt).value)
  }

  /** The calls a successful batch makes: for each article, the writer and then the image model. */
  function BatchCalls(articles: seq<Article>): seq<Call>
  {
    if articles == [] then [] else [Write(articles[0].topic), Render(articles[0].imagePrompt)] + BatchCalls(articles[1..])
  }

  /** A turn that succeeds makes the draft for its topic after the writer and image calls. */
  lemma StepShape(topic: Topic, sources: seq<SourceUrl>, cfg: GenerationConfig, p: Provider, id: string)
    ensures var step := Step(topic, sources, cfg, p, id);
      step.outcome.Ok? ==>
        && |step.outcome.value| == 1
        && IsDraftFor(step.outcome.value[0], topic, sources, cfg, p, id)
        && step.calls == BatchCalls(step.outcome.value)
  {
    var step := Step(topic, sources, cfg, p, id);
    if step.outcome.Ok? {
      assert step.outcome.value[1..] == [];
    }
  }

  lemma BatchCallsConcat(a: Article, rest: seq<Article>)
    ensures BatchCalls([a] + rest) == BatchCalls([a]) + BatchCalls(rest)
  {
    assert ([a] + rest)[1..] == rest;
    assert [a][1..] == [];
  }

  /** `arts` are the drafts for `topics`, one each and in order, the first with id `freshId(k)`. */
  predicate DraftsFor(arts: seq<Article>, topics: seq<Topic>, sources: seq<SourceUrl>, cfg: GenerationConfig,
                      p: Provider, freshId: nat -> string, k: nat)
  {
    && |arts| == |topics|
    && forall j :: 0 <= j < |topics| ==> IsDraftFor(arts[j], topics[j], sources, cfg, p, freshId(k + j))
  }

  lemma DraftsForCons(d: Article, rest: seq<Article>, topics: seq<Topic>, sources: seq<SourceUrl>,
                      cfg: GenerationConfig, p: Provider, freshId: nat -> string, k: nat)
    requires topics != [] && IsDraftFor(d, topics[0], sources, cfg, p, freshId(k))
    requires DraftsFor(rest, topics[1..], sources, cfg, p, freshId, k + 1)
    ensures DraftsFor([d] + rest, topics, sources, cfg, p, freshId, k)
  {
    var arts := [d] + rest;
    forall j | 0 <= j < |topics|
      ensures IsDraftFor(arts[j], topics[j], sources, cfg, p, freshId(k + j))
    {
      if j > 0 {
        assert arts[j] == rest[j - 1];
        assert topics[j] == topics[1..][j - 1];
        assert k + j == (k + 1) + (j - 1);
      }
    }
  }

  /**
   * A batch that succeeds holds one draft per topic, in topic order, and made
   * exactly the writer and image calls for them, in order.
   */
  lemma {:induction false} BatchShape(topics: seq<Topic>, sources: seq<SourceUrl>, cfg: GenerationConfig,
                                      p: Provider, freshId: nat -> string, k: nat)
    ensures var run := BuildBatch(topics, sources, cfg, p, freshId, k);
      run.outcome.Ok? ==>
        && DraftsFor(run.outcome.value, topics, sources, cfg, p, freshId, k)
        && run.calls == BatchCalls(run.outcome.value)
    decreases |topics|
  {
    var run := BuildBatch(topics, sources, cfg, p, freshId, k);
    if topics != [] {
      var step := Step(topics[0], sources, cfg, p, freshId(k));
      if step.outcome.Ok? {
        var rest := BuildBatch(topics[1..], sources, cfg, p, freshId, k + 1);
        assert run == Prepend(step.outcome.value, step.calls, rest);
        if rest.outcome.Ok? {
          StepShape(topics[0], sources, cfg, p, freshId(k));
          BatchShape(topics[1..], sources, cfg, p, freshId, k + 1);
          var d := step.outcome.value[0];
          assert step.outcome.value == [d];
          DraftsForCons(d, rest.outcome.value, topics, sources, cfg, p, freshId, k);
          BatchCallsConcat(d, rest.outcome.value);
        }
      }
    }
  }

  /** If every retained topic's writer and image calls succeed, the whole batch succeeds. */
  lemma {:induction false} AllStepsOkBatchOk(topics: seq<Topic>, sources: seq<SourceUrl>, cfg: GenerationConfig,
                                              p: Provider, freshId: nat -> string, k: nat)
    requires forall j :: 0 <= j < |topics| ==> Step(topics[j], sources, cfg, p, freshId(k + j)).outcome.Ok?
    ensures BuildBatch(topics, sources, cfg, p, freshId, k).outcome.Ok?
    decreases |topics|
  {
    if topics != [] {
      assert Step(topics[0], sources, cfg, p, freshId(k + 0)).outcome.Ok?;
      forall j | 0 <= j < |topics[1..]|
        ensures Step(topics[1..][j], sources, cfg, p, freshId(k + 1 + j)).outcome.Ok?
      {
        assert topics[1..][j] == topics[j + 1] && k + 1 + j == k + (j + 1);
      }
      AllStepsOkBatchOk(topics[1..], sources, cfg, p, freshId, k + 1);
    }
  }

  /** Every turn before the `j`-th succeeds. */
  predicate TurnsSucceedBefore(topics: seq<Topic>, sources: seq<SourceUrl>, cfg: GenerationConfig, p: Provider,
                               freshId: nat -> string, k: nat, j: nat)
    requires j <= |topics|
  {
    forall m :: 0 <= m < j ==> Step(topics[m], sources, cfg, p, freshId(k + m)).outcome.Ok?
  }

  /**
   * A failed batch reports the error of its first failing turn: every turn
   * before it succeeded, and no turn after it was run: the calls end with
   * the failing turn's own, after two for each earlier turn.
   */
  lemma FirstFailureReported(topics: seq<Topic>, sources: seq<SourceUrl>, cfg: GenerationConfig,
                             p: Provider, freshId: nat -> string, k: nat)
    ensures var run := BuildBatch(topics, sources, cfg, p, freshId, k);
      run.outcome.Err? ==>
        exists j :: 0 <= j < |topics| && TurnsSucceedBefore(topics, sources, cfg, p, freshId, k, j)
          && Step(topics[j], sources, cfg, p, freshId(k + j)).outcome == run.outcome
          && |run.calls| == 2 * j + |Step(topics[j], sources, cfg, p, freshId(k + j)).calls|
          && run.calls[2 * j..] == Step(topics[j], sources, cfg, p, freshId(k + j)).calls
  {
    if BuildBatch(topics, sources, cfg, p, freshId, k).outcome.Err? {
      var j := FirstFailingTurn(topics, sources, cfg, p, freshId, k);
    }
  }

  lemma {:induction false} FirstFailingTurn(topics: seq<Topic>, sources: seq<SourceUrl>, cfg: GenerationConfig,
                                            p: Provider, freshId: nat -> string, k: nat) returns (j: nat)
    requires BuildBatch(topics, sources, cfg, p, freshId, k).outcome.Err?
    ensures j < |topics| && TurnsSucceedBefore(topics, sources, cfg, p, freshId, k, j)
    ensures Step(topics[j], sources, cfg, p, freshId(k + j)).outcome == BuildBatch(topics, sources, cfg, p, freshId, k).outcome
    ensures |BuildBatch(topics, sources, cfg, p, freshId, k).calls| == 2 * j + |Step(topics[j], sources, cfg, p, freshId(k + j)).calls|
    ensures BuildBatch(topics, sources, cfg, p, freshId, k).calls[2 * j..] == Step(topics[j], sources, cfg, p, freshId(k + j)).calls
    decreases |topics|
  {
    var step := Step(topics[0], sources, cfg, p, freshId(k));
    if step.outcome.Err? {
      j := 0;
      assert k + 0 == k;
    } else {
      var rest := BuildBatch(topics[1..], sources, cfg, p, freshId, k + 1);
      var i := FirstFailingTurn(topics[1..], sources, cfg, p, freshId, k + 1);
      j := i + 1;
      assert topics[1..][i] == topics[j] && k + 1 + i == k + j;
      TurnsSucceedShift(topics, sources, cfg, p, freshId, k, i);
      var calls := BuildBatch(topics, sources, cfg, p, freshId, k).calls;
      assert calls == step.calls + rest.calls && |step.calls| == 2;
      assert calls[2 * j..] == rest.calls[2 * i..];
    }
  }

  lemma TurnsSucceedShift(topics: seq<Topic>, sources: seq<SourceUrl>, cfg: GenerationConfig,
                          p: Provider, freshId: nat -> string, k: nat, i: nat)
    requires i < |topics| - 1
    requires Step(topics[0], sources, cfg, p, freshId(k)).outcome.Ok?
    requires TurnsSucceedBefore(topics[1..], sources, cfg, p, freshId, k + 1, i)
    ensures TurnsSucceedBefore(topics, sources, cfg, p, freshId, k, i + 1)
  {
    forall m | 0 <= m < i + 1 ensures Step(topics[m], sources, cfg, p, freshId(k + m)).outcome.Ok? {
      if m == 0 {
        assert k + m == k;
      } else {
        assert topics[1..][m - 1] == topics[m] && k + 1 + (m - 1) == k + m;
      }
    }
  }

  /** If any retained topic's writer or image call fails, the whole batch fails. */
  lemma {:induction false} AnyFailingStepAbortsBatch(topics: seq<Topic>, sources: seq<SourceUrl>, cfg: GenerationConfig,
                                                      p: Provider, freshId: nat -> string, k: nat, j: nat)
    requires j < |topics|
    requires Step(topics[j], sources, cfg, p, freshId(k + j)).outcome.Err?
    ensures BuildBatch(topics, sources, cfg, p, freshId, k).outcome.Err?
    decreases |topics|
  {
    if j > 0 {
      assert topics[1..][j - 1] == topics[j];
      AnyFailingStepAbortsBatch(topics[1..], sources, cfg, p, freshId, k + 1, j - 1);
    }
  }

  /** All or nothing: a batch succeeds exactly when every one of its turns does. */
  lemma BatchSucceedsIffAllTurnsSucceed(topics: seq<Topic>, sources: seq<SourceUrl>, cfg: GenerationConfig,
                                        p: Provider, freshId: nat -> string, k: nat)
    ensures BuildBatch(topics, sources, cfg, p, freshId, k).outcome.Ok?
      <==> TurnsSucceedBefore(topics, sources, cfg, p, freshId, k, |topics|)
  {
    if TurnsSucceedBefore(topics, sources, cfg, p, freshId, k, |topics|) {
      AllStepsOkBatchOk(topics, sources, cfg, p, freshId, k);
    } else {
      var j :| 0 <= j < |topics| && Step(topics[j], sources, cfg, p, freshId(k + j)).outcome.Err?;
      AnyFailingStepAbortsBatch(topics, sources, cfg, p, freshId, k, j);
    }
  }

  /**
   * A successful run appends one draft per topic for the first `count`
   * prospected topics (fewer when fewer were found), all citing the sources of
   * the one prospecting call, after one search and two calls per article.
   */
  lemma ProspectBatchSize(keywords: seq<string>, timeRange: string, cfg: GenerationConfig, p: Provider,
                          freshId: nat -> string, found: ProspectResult)
    requires ActiveKeywords(keywords) != []
    requires ProspectNews(p.search(ActiveKeywords(keywords), timeRange), p.parseTopics) == Ok(found)
    requires cfg.count >= 0
    ensures var run := Prospect(keywords, timeRange, cfg, p, freshId);
      run.outcome.Ok? ==>
        && |run.outcome.value| == Seqs.Min(cfg.count, |found.topics|)
        && (forall j :: 0 <= j < |run.outcome.value| ==>
              IsDraftFor(run.outcome.value[j], found.topics[j], found.sources, cfg, p, freshId(j)))
        && run.calls == [Search(ActiveKeywords(keywords), timeRange)] + BatchCalls(run.outcome.value)
  {
    ProspectFound(keywords, timeRange, cfg, p, freshId, found);
    SearchThenBatch(Search(ActiveKeywords(keywords), timeRange), found, cfg, p, freshId);
  }

  lemma SearchThenBatch(search: Call, found: ProspectResult, cfg: GenerationConfig, p: Provider, freshId: nat -> string)
    requires cfg.count >= 0
    ensures var run := Prepend([], [search], BuildBatch(Seqs.SliceTo(found.topics, cfg.count), found.sources, cfg, p, freshId, 0));
      run.outcome.Ok? ==>
        && |run.outcome.value| == Seqs.Min(cfg.count, |found.topics|)
        && (forall j :: 0 <= j < |run.outcome.value| ==>
              IsDraftFor(run.outcome.value[j], found.topics[j], found.sources, cfg, p, freshId(j)))
        && run.calls == [search] + BatchCalls(run.outcome.value)
  {
    var retained := Seqs.SliceTo(found.topics, cfg.count);
    var batch := BuildBatch(retained, found.sources, cfg, p, freshId, 0);
    BatchShape(retained, found.sources, cfg, p, freshId, 0);
    assert |retained| == Seqs.Min(cfg.count, |found.topics|);
    if batch.outcome.Ok? {
      var arts := batch.outcome.value;
      assert |arts| == |retained|;
      assert Prepend([], [search], batch).outcome.value == [] + arts;
      assert [] + arts == arts;
      DraftsOfPrefix(arts, retained, found.topics, found.sources, cfg, p, freshId);
    }
  }

  lemma DraftsOfPrefix(arts: seq<Article>, retained: seq<Topic>, topics: seq<Topic>, sources: seq<SourceUrl>,
                       cfg: GenerationConfig, p: Provider, freshId: nat -> string)
    requires |arts| == |retained| <= |topics| && retained == topics[..|retained|]
    requires DraftsFor(arts, retained, sources, cfg, p, freshId, 0)
    ensures forall j :: 0 <= j < |arts| ==> IsDraftFor(arts[j], topics[j], sources, cfg, p, freshId(j))
  {
    forall j | 0 <= j < |arts| ensures IsDraftFor(arts[j], topics[j], sources, cfg, p, freshId(j)) {
      assert retained[j] == topics[j];
      assert IsDraftFor(arts[j], retained[j], sources, cfg, p, freshId(0 + j));
    }
  }

  /** After a successful prospecting call the run is the batch over the first `count` topics. */
  lemma ProspectFound(keywords: seq<string>, timeRange: string, cfg: GenerationConfig, p: Provider,
                      freshId: nat -> string, found: ProspectResult)
    requires ActiveKeywords(keywords) != []
    requires ProspectNews(p.search(ActiveKeywords(keywords), timeRange), p.parseTopics) == Ok(found)
    ensures Prospect(keywords, timeRange, cfg, p, freshId) == Prepend([], [Search(ActiveKeywords(keywords), timeRange)],
      BuildBatch(Seqs.SliceTo(found.topics, cfg.count), found.sources, cfg, p, freshId, 0))
  {
  }

  /** Every article a successful batch produces is a DRAFT without publication fields. */
  lemma BatchDraftsConsistent(topics: seq<Topic>, sources: seq<SourceUrl>, cfg: GenerationConfig, p: Provider,
                              freshId: nat -> string, k: nat)
    ensures var run := BuildBatch(topics, sources, cfg, p, freshId, k);
      run.outcome.Ok? ==>
        && AllConsistent(run.outcome.value)
        && forall i :: 0 <= i < |run.outcome.value| ==> run.outcome.value[i].status == DRAFT
  {
    BatchShape(topics, sources, cfg, p, freshId, k);
  }

  /** Every article a successful run produces is a DRAFT without publication fields. */
  lemma ProspectedDraftsConsistent(keywords: seq<string>, timeRange: string, cfg: GenerationConfig, p: Provider,
                                   freshId: nat -> string)
    ensures var run := Prospect(keywords, timeRange, cfg, p, freshId);
      run.outcome.Ok? ==>
        && AllConsistent(run.outcome.value)
        && forall i :: 0 <= i < |run.outcome.value| ==> run.outcome.value[i].status == DRAFT
  {
    var active := ActiveKeywords(keywords);
    if active != [] {
      var prospected := ProspectNews(p.search(active, timeRange), p.parseTopics);
      if prospected.Ok? {
        var found := prospected.value;
        ProspectFound(keywords, timeRange, cfg, p, freshId, found);
        var batch := BuildBatch(Seqs.SliceTo(found.topics, cfg.count), found.sources, cfg, p, freshId, 0);
        BatchDraftsConsistent(Seqs.SliceTo(found.topics, cfg.count), found.sources, cfg, p, freshId, 0);
        assert batch.outcome.Ok? ==> [] + batch.outcome.value == batch.outcome.value;
      }
    }
  }

  /** A failed prospecting call ends the run with the one fixed message, after that single call. */
  lemma ProspectFailureMessage(keywords: seq<string>, timeRange: string, cfg: GenerationConfig, p: Provider,
                               freshId: nat -> string)
    requires ActiveKeywords(keywords) != []
    requires ProspectNews(p.search(ActiveKeywords(keywords), timeRange), p.parseTopics).Err?
    ensures Prospect(keywords, timeRange, cfg, p, freshId) ==
      Run(Err(ProspectFailure), [Search(ActiveKeywords(keywords), timeRange)])
  {
  }

  // ---------------------------------------------------------------------------
  // As written: prospectNews is called with two arguments for three parameters
  // ---------------------------------------------------------------------------

  /**
   * `handleProspectNews` with the call as written: once validation passes,
   * building the prompt throws before the provider is reached.
   */
  function ProspectAsWritten(keywords: seq<string>, timeRange: string, cfg: GenerationConfig, p: Provider,
                             freshId: nat -> string): (run: Run)
    ensures run.calls == [] && run.outcome.Err?
  {
    var active := ActiveKeywords(keywords);
    if active == [] then Run(Err(NoKeywordsError), [])
    else
      match JoinKeywords(ProspectArgsAsCalled(active, timeRange).keywords)
      case Err(e) => Run(Err(e), [])
      case Ok(_) => Prospect(keywords, timeRange, cfg, p, freshId)
  }

  /** As written, no run ever reaches the provider or produces an article. */
  lemma AsWrittenNeverGenerates(keywords: seq<string>, timeRange: string, cfg: GenerationConfig, p: Provider,
                                freshId: nat -> string)
    ensures ProspectAsWritten(keywords, timeRange, cfg, p, freshId).outcome.Err?
    ensures ProspectAsWritten(keywords, timeRange, cfg, p, freshId).calls == []
    ensures ActiveKeywords(keywords) != [] ==>
      ProspectAsWritten(keywords, timeRange, cfg, p, freshId).outcome.error == JoinTypeError
  {
  }

  /** A provider that finds one topic and writes and illustrates it without failing. */
  function WorkingProvider(): Provider
  {
    Provider(
      (k: seq<string>, r: string) => Ok(RawResponse(Some("[{\"topic\": \"Itaipu\"}]"), None)),
      (s: string) => Some([Topic("Itaipu")]),
      (t: string, tone: Tone, n: int) => Ok(ArticleText("Itaipu", "Texto")),
      (prompt: string) => Ok("aW1n"))
  }

  /**
   * With one keyword and a provider that works, the intended call produces an
   * article, whatever the time range and for any count of at least one, while
   * the call as written fails with a TypeError.
   */
  lemma ArityMismatchLosesArticles(timeRange: string, cfg: GenerationConfig, freshId: nat -> string)
    requires cfg.count >= 1
    ensures Prospect(["Itaipu"], timeRange, cfg, WorkingProvider(), freshId).outcome.Ok?
    ensures |Prospect(["Itaipu"], timeRange, cfg, WorkingProvider(), freshId).outcome.value| == 1
    ensures ProspectAsWritten(["Itaipu"], timeRange, cfg, WorkingProvider(), freshId).outcome == Err(JoinTypeError)
  {
    WorkingRunSucceeds(timeRange, cfg, freshId);
    ItaipuIsActive();
    AsWrittenNeverGenerates(["Itaipu"], timeRange, cfg, WorkingProvider(), freshId);
  }

  /** The intended run with the working provider yields its one article. */
  lemma WorkingRunSucceeds(timeRange: string, cfg: GenerationConfig, freshId: nat -> string)
    requires cfg.count >= 1
    ensures Prospect(["Itaipu"], timeRange, cfg, WorkingProvider(), freshId).outcome.Ok?
    ensures |Prospect(["Itaipu"], timeRange, cfg, WorkingProvider(), freshId).outcome.value| == 1
  {
    WorkingRun(timeRange, cfg, freshId);
    WorkingProviderWrites([Topic("Itaipu")], [], cfg, freshId);
    PrependSize([], [Search(["Itaipu"], timeRange)], BuildBatch([Topic("Itaipu")], [], cfg, WorkingProvider(), freshId, 0));
  }

  /** With the working provider, the run is the batch over its one topic. */
  lemma WorkingRun(timeRange: string, cfg: GenerationConfig, freshId: nat -> string)
    requires cfg.count >= 1
    ensures Prospect(["Itaipu"], timeRange, cfg, WorkingProvider(), freshId)
      == Prepend([], [Search(["Itaipu"], timeRange)], BuildBatch([Topic("Itaipu")], [], cfg, WorkingProvider(), freshId, 0))
  {
    ItaipuIsActive();
    var found := WorkingProviderFinds(["Itaipu"], timeRange);
    SliceOfOne(found.topics, cfg.count);
    ProspectFound(["Itaipu"], timeRange, cfg, WorkingProvider(), freshId, found);
  }

  lemma SliceOfOne(topics: seq<Topic>, count: int)
    requires |topics| == 1 && count >= 1
    ensures Seqs.SliceTo(topics, count) == topics
  {
    assert topics[..1] == topics;
  }

  lemma ItaipuIsActive()
    ensures ActiveKeywords(["Itaipu"]) == ["Itaipu"]
  {
    var k := "Itaipu";
    TrimOfTrimmed(k);
    var trimmed := Seqs.Map([k], Trim);
    assert trimmed == [k];
    assert NonEmpty(k);
    assert Seqs.Filter(trimmed, NonEmpty) == [k] + Seqs.Filter(trimmed[1..], NonEmpty);
  }

  /** The working provider's search is parsed into its one topic, without sources. */
  lemma WorkingProviderFinds(keywords: seq<string>, timeRange: string) returns (found: ProspectResult)
    ensures found == ProspectResult([Topic("Itaipu")], [])
    ensures ProspectNews(WorkingProvider().search(keywords, timeRange), WorkingProvider().parseTopics) == Ok(found)
  {
    found := ProspectResult([Topic("Itaipu")], []);
    assert ExtractSources([]) == [];
  }

  /** The working provider writes and illustrates one topic. */
  lemma WorkingProviderWrites(topics: seq<Topic>, sources: seq<SourceUrl>, cfg: GenerationConfig,
                              freshId: nat -> string)
    requires topics == [Topic("Itaipu")]
    ensures BuildBatch(topics, sources, cfg, WorkingProvider(), freshId, 0).outcome.Ok?
    ensures |BuildBatch(topics, sources, cfg, WorkingProvider(), freshId, 0).outcome.value| == 1
  {
    var p := WorkingProvider();
    var step := Step(topics[0], sources, cfg, p, freshId(0));
    assert GenerateImage("Itaipu", p.render).Ok?;
    assert step.outcome.Ok? && |step.outcome.value| == 1;
    assert topics[1..] == [];
  }
}
