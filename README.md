# Foz-News editorial dashboard — a Dafny model

This project models the editorial dashboard of Foz-News, a local news portal.
Editors use it to prospect news topics with a generative-AI provider, have
articles and illustrations written for them, and move each article through
the statuses DRAFT, REVIEW, APPROVED, PUBLISHED and CANCELLED on a kanban board.

The model covers these parts of the dashboard:

- **Record types** (`Types`): the status and tone enumerations, citations and
  the article record. `publishedAt` is part of the record even though
  `types.ts` declares only `publishedUrl`. The dashboard reads and writes
  both, and the model follows that code.
- **Kanban layout** (`Constants`, `KanbanBoard`): five columns, one per
  status. Each column shows, in collection order, the articles in its status.
- **Generative-AI service** (`GeminiService`), only its pure parts:
  - the exact clean-up of the prospecting reply: `trim()` followed by the
    global replace `/^```json\s*|```\s*$/g`, with ECMAScript whitespace;
  - turning grounding chunks into citations;
  - the failure policy of `prospectNews`;
  - the prompt that `generateImage` sends and returns.

  The provider calls and the JSON parser are function parameters.
- **Collection operations** (`Workflow`), as functions of the collection:
  - the status transition with its publication bookkeeping;
  - saving an edited record;
  - regenerating an image;
  - the filtered view.
- **Prospect-and-generate pipeline** (`Pipeline`), as a specification. The
  `Provider` datatype holds the search, the parser, the article writer and the
  image model. A run records every provider call in order. It yields either
  all the drafts or the first error.
- **Dashboard page** (`DashboardPage`): a class whose fields are the page
  state (articles, displayed error, article under review). Its methods are
  the page's handlers.
  - `ProspectAndGenerate` and `GenerateBatch` are the handler's imperative
    steps and loop, each proved equal to the `Pipeline` specification.
  - `Stats` is the counting reduce, written as a loop.
- **Review modal** (`ReviewModal`): a class holding the two edit buffers.
  `Show` models opening an article and `Press` each button, against the
  dashboard they edit, including the effect that reloads the buffers when a
  new record becomes the article under review.
- **Invariant**: `Dashboard.Valid()` says the publication fields are present
  exactly while an article is PUBLISHED, in the collection and in the article
  under review. The constructor establishes it and every handler keeps it.

Three inputs come in as parameters:

- the current time, as an ISO string `now`;
- the id generator, `freshId(k)` for the k-th new article;
- the provider.

## Model

| member | source | states |
|---|---|---|
| Types.StatusValueRoundTrip | types.ts:13-19 | each status's string value parses back to that status, and it is the only string that parses to it |
| Types.StatusEnumeration | types.ts:13-19 | there are exactly five statuses; they and their string values are pairwise distinct |
| Types.ToneValueInjective | types.ts:21-27 | two tones are sent as the same string only if they are the same tone |
| Types.StatusCountsSum | Dashboard.tsx:46-51 | the per-status counts of a collection, summed over all statuses, equal the size of the collection |
| Types.StatusCountsAddUp | Dashboard.tsx:46-51 | the five explicit per-status counts add up to the number of articles |
| Types.WithStatusSnoc | Dashboard.tsx:47-49 | one more article adds itself to its own status's list and to no other |
| Constants.ColumnStatuses | constants.ts:4-10 | the column statuses, one per column, in column order |
| Constants.ColumnsPartitionStatuses | constants.ts:4-10 | there are five columns; their statuses are all the statuses in declaration order, pairwise distinct; every status has a column |
| KanbanBoard.Board | components/KanbanBoard.tsx:15-21 | one column per configured column, with the configured title and status, in the configured order |
| KanbanBoard.ColumnContents | components/KanbanBoard.tsx:19 | an article is in a column if and only if it is in the input and has that column's status |
| KanbanBoard.ColumnKeepsOrder | components/KanbanBoard.tsx:19 | each column lists its articles in their input order |
| KanbanBoard.ExactlyOneColumn | components/KanbanBoard.tsx:15-21 | every input article appears in some column and in no two columns |
| KanbanBoard.ColumnSizesSum | components/KanbanBoard.tsx:15-21 | the cards over all columns number exactly the input articles |
| JsStrings.Trim | Dashboard.tsx:87 | the result has no leading or trailing whitespace; it is empty exactly when the input is all whitespace |
| JsStrings.TrimPadded | services/geminiService.ts:32 | trimming removes exactly the whitespace padding around a trimmed core |
| JsStrings.TrimIdempotent | Dashboard.tsx:87 | trimming twice is trimming once |
| JsStrings.Lower | Dashboard.tsx:72-74 | lower-casing keeps the length and maps each character by itself |
| JsStrings.ContainsLowered | Dashboard.tsx:72-74 | a verbatim substring is still a substring after both sides are lower-cased |
| Seqs.SliceTo | Dashboard.tsx:99 | `slice(0, n)`: the first min(n, length) items; a negative n drops that many from the end |
| GeminiService.LeadingFenceEnd | services/geminiService.ts:34 | the first alternative matches only at the start: "```json" and all the whitespace after it, or nothing |
| GeminiService.FindClosingFence | services/geminiService.ts:34 | the leftmost position where "```" followed by only whitespace matches, or none |
| GeminiService.StripFences | services/geminiService.ts:34 | the global replace keeps the text after the leading fence up to the first place where the closing alternative matches, and drops only that match; no earlier position matches |
| GeminiService.CleanResponseText | services/geminiService.ts:32-35 | the parser sees a contiguous piece of the trimmed reply that starts where the leading fence ends; CleanResponseTextValue gives its value for every reply |
| GeminiService.CleanResponseTextValue | services/geminiService.ts:32-35 | for every reply: after trimming, a leading "```json" with its whitespace is dropped, a final "```" that does not overlap it is dropped, and nothing else is removed |
| GeminiService.ClosingFenceOnlyAtEnd | services/geminiService.ts:32-34 | in trimmed text the closing alternative matches if and only if the text ends with "```", and only there |
| GeminiService.CleanUnfenced | services/geminiService.ts:32-35 | a reply with no fences reaches the parser only trimmed |
| GeminiService.CleanBareFence | services/geminiService.ts:32-35 | a leading bare "```" (without "json") is kept and only a closing fence is removed |
| GeminiService.CleanJsonFenced | services/geminiService.ts:32-35 | a "```json"-wrapped payload is cleaned to the payload plus the whitespace before the closing fence |
| GeminiService.OrDefault | services/geminiService.ts:40-41 | `v \|\| d`: a present non-empty value is returned; a missing or empty one gives the default |
| GeminiService.ToSource | services/geminiService.ts:39-42 | the citation carries the chunk's uri when it is present and non-empty, and is empty otherwise; the title is the chunk's title when present and non-empty, and "Fonte desconhecida" otherwise |
| GeminiService.ExtractSources | services/geminiService.ts:37-43 | at most one citation per chunk, each with a non-empty uri; ExtractedSourcesWellFormed, ExtractSourcesConcat and ExtractSourcesSingle give its contents |
| GeminiService.ExtractedSourcesWellFormed | services/geminiService.ts:37-43 | every extracted citation has a uri and a title and comes from some chunk |
| GeminiService.ExtractSourcesConcat | services/geminiService.ts:38-43 | extraction distributes over concatenation, so order and repetitions are kept |
| GeminiService.ExtractSourcesSingle | services/geminiService.ts:38-43 | one chunk yields its citation exactly when it has a non-empty uri |
| GeminiService.ProspectNews | services/geminiService.ts:23-49 | success if and only if the provider answered with text that parses after cleaning; then the parsed topics and the citations of the grounding chunks (none when absent); any failure gives the one fixed message |
| GeminiService.ImagePrompt | services/geminiService.ts:83 | the image prompt contains the article title |
| GeminiService.ImagePromptInjective | services/geminiService.ts:83 | different titles give different prompts |
| GeminiService.GenerateImage | services/geminiService.ts:82-96 | succeeds if and only if the image model does; returns its image together with exactly the prompt sent, which contains the title; passes the model's error through |
| GeminiService.JoinKeywords | services/geminiService.ts:15-17 | `keywords.join(', ')` succeeds only on an array; any other value throws the TypeError |
| GeminiService.ProspectArgsAsCalled | Dashboard.tsx:92-95 | with two arguments, the time range is bound to the `keywords` parameter |
| Workflow.Transition | Dashboard.tsx:141-153 | the new record has the requested status and consistent publication fields; apart from status, url and date it equals the old record |
| Workflow.PublishKeepsFirstDate | Dashboard.tsx:144-148 | publishing sets the fixed url; it keeps an existing date and stamps `now` only when the date is missing or empty |
| Workflow.PublishIdempotent | Dashboard.tsx:144-148 | publishing an already published record changes nothing |
| Workflow.UnpublishClearsFields | Dashboard.tsx:149-152 | any status other than PUBLISHED removes both publication fields |
| Workflow.MapMatching | Dashboard.tsx:136 | every record with the id is rewritten and every other record is kept, in place |
| Workflow.UnknownIdIsNoOp | Dashboard.tsx:141-156 | an id that no record carries leaves the collection unchanged |
| Workflow.UpdateStatusIn | Dashboard.tsx:140-156 | the collection keeps its length and ids; the records with the id take the new status and the others keep theirs; UpdateStatusFrame gives the full frame |
| Workflow.UpdateStatusFrame | Dashboard.tsx:140-158 | setting a status keeps length, order and ids; it transitions the matching records and leaves every other record alone |
| Workflow.UpdateStatusKeepsConsistency | Dashboard.tsx:140-158 | a collection whose publication fields match the statuses still does after a status change |
| Workflow.PublishTwiceInCollection | Dashboard.tsx:141-148 | publishing the same id twice leaves the collection as the first publication did |
| Workflow.SaveIn | Dashboard.tsx:135-136 | the collection keeps its length and ids, and the saved record is in it whenever its id was |
| Workflow.SaveReplacesById | Dashboard.tsx:135-138 | saving replaces exactly the records with the saved id and keeps length, order, ids and all other records |
| Workflow.SaveKeepsConsistency | Dashboard.tsx:135-138 | saving a consistent record into a consistent collection keeps it consistent |
| Workflow.RegenerateImageIn | Dashboard.tsx:160-177 | the collection keeps its length and ids; RegenerateReplacesPair gives which fields change |
| Workflow.RegenerateReplacesPair | Dashboard.tsx:160-177 | a failed generation changes nothing; a successful one replaces image and prompt together, with the prompt built from the title, and keeps every other field and every other record |
| Workflow.RegenerateKeepsConsistency | Dashboard.tsx:160-177 | regenerating a consistent record's image keeps the collection consistent |
| Workflow.Matches | Dashboard.tsx:70-80 | with no filters every article passes; an article passing a date filter has a publication date |
| Workflow.FilteredArticles | Dashboard.tsx:69-81 | the view is no longer than the collection and every shown article passes all three tests |
| Workflow.FilteredExactly | Dashboard.tsx:69-81 | an article is shown if and only if it is in the collection and passes the status, topic and date tests |
| Workflow.FilteredKeepsOrder | Dashboard.tsx:70 | the view keeps the collection's order |
| Workflow.NoFiltersShowAll | Dashboard.tsx:71-78 | with all three filters empty the view is the whole collection |
| Workflow.DateFilterShowsPublished | Dashboard.tsx:76-78 | a date filter shows only dated articles; in a consistent collection these are PUBLISHED |
| Workflow.StatusFilterSelectsStatus | Dashboard.tsx:71 | a status filter alone selects exactly the articles in that status, in order |
| Workflow.TopicFilterIgnoresCase | Dashboard.tsx:72-75 | topic searches that differ only in letter case select the same articles |
| Workflow.VerbatimTopicMatches | Dashboard.tsx:72-75 | a topic or title containing the search text verbatim passes the topic test |
| Pipeline.DisplayedError | Dashboard.tsx:118 | the displayed error is never empty; it is the error's message when that is non-empty |
| Pipeline.ActiveKeywords | Dashboard.tsx:87 | the active keywords are trimmed and non-empty; there are none exactly when every keyword is blank |
| Pipeline.ActiveKeywordsFromInput | Dashboard.tsx:87 | the active keywords are the trimmed keywords in input order, and a string is one of them exactly when it is a non-empty trimmed keyword |
| Pipeline.ActiveKeywordsCons | Dashboard.tsx:87 | keywords are taken one by one: each is trimmed, then kept if non-empty |
| Pipeline.NewDraft | Dashboard.tsx:105-114 | a new record is a DRAFT without publication fields |
| Pipeline.Step | Dashboard.tsx:102-114 | the writer is called first; the image model is called only after a successful write; a successful turn yields one draft after both calls |
| Pipeline.BuildBatch | Dashboard.tsx:97-115 | a successful batch has one draft and two calls per topic; BatchShape and BatchSucceedsIffAllTurnsSucceed give the rest, and FirstFailureReported gives the outcome and calls of a failed batch |
| Pipeline.BlankKeywordsFailWithoutCalls | Dashboard.tsx:87-90 | all-blank keywords fail with the validation message before any provider call |
| Pipeline.StepShape | Dashboard.tsx:101-115 | a successful turn yields one draft for its topic, after exactly the writer call and the image call |
| Pipeline.BatchShape | Dashboard.tsx:101-115 | a successful batch holds one draft per topic, in order, with consecutive ids, after exactly the writer and image calls for them |
| Pipeline.AnyFailingStepAbortsBatch | Dashboard.tsx:97-118 | if any retained topic's writer or image call fails, the whole batch fails |
| Pipeline.AllStepsOkBatchOk | Dashboard.tsx:97-116 | if every turn's writer and image calls succeed, the batch succeeds |
| Pipeline.BatchSucceedsIffAllTurnsSucceed | Dashboard.tsx:97-118 | all or nothing: a batch succeeds exactly when every one of its turns succeeds |
| Pipeline.FirstFailureReported | Dashboard.tsx:101-118 | a failed batch reports the error of its first failing turn; every turn before it succeeded; its calls are two per earlier turn followed by the failing turn's own, so no later topic reaches the provider |
| Pipeline.BatchDraftsConsistent | Dashboard.tsx:101-115 | every article of a successful batch is a DRAFT without publication fields |
| Pipeline.ProspectBatchSize | Dashboard.tsx:92-116 | a successful run makes one draft for each of the first `count` topics (fewer if fewer were found), all citing the prospected sources, after one search and two calls per draft |
| Pipeline.Prospect | Dashboard.tsx:83-118 | the intended handler: the provider is called exactly when some keyword is active, and the first call is then the search with the active keywords and the time range |
| Pipeline.ProspectedDraftsConsistent | Dashboard.tsx:105-114 | every article a successful run produces is a DRAFT without publication fields |
| Pipeline.ProspectFailureMessage | services/geminiService.ts:46-49 | a failed search ends the run with the fixed message, after that single call |
| Pipeline.ProspectAsWritten | Dashboard.tsx:92-95 | the handler as written makes no provider call and always fails |
| Pipeline.AsWrittenNeverGenerates | Dashboard.tsx:92-95 | as written, the handler never calls the provider and always fails; past validation it fails with the TypeError |
| Pipeline.ArityMismatchLosesArticles | Dashboard.tsx:92-95 | with one keyword and a working provider, the intended call yields one article, while the call as written fails with the TypeError |
| DashboardPage.Dashboard.constructor | Dashboard.tsx:11-30 | the page starts with no articles, no error and no article under review, so its invariant holds: the publication fields match the status in every stored article and in the one under review |
| DashboardPage.Dashboard.ProspectNews | Dashboard.tsx:83-122 | the handler with the intended prospect call (see Findings). The calls made and the state follow the pipeline run. Success appends the drafts at the end and clears the error. Failure leaves the collection and shows the error. The invariant is preserved |
| DashboardPage.ProspectAndGenerate | Dashboard.tsx:86-99 | validating, prospecting, truncating and generating step by step gives exactly the pipeline run |
| DashboardPage.GenerateBatch | Dashboard.tsx:97-115 | the loop builds exactly the batch the specification defines: the drafts and calls, or the first error and the calls up to it |
| DashboardPage.Dashboard.SaveArticle | Dashboard.tsx:135-138 | the collection is the save of the record; the record becomes the one under review; the invariant is preserved when the record is consistent |
| DashboardPage.Dashboard.UpdateStatus | Dashboard.tsx:140-158 | the collection is the status update; the modal closes; the invariant is preserved |
| DashboardPage.Dashboard.RegenerateImage | Dashboard.tsx:160-177 | reports whether generation succeeded; on success the new image is saved and shown, on failure nothing changes; the error display is untouched; the invariant is preserved |
| DashboardPage.Dashboard.ReviewArticle | Dashboard.tsx:125-128 | opens the modal on the article and changes nothing else; opening a stored article keeps the invariant |
| DashboardPage.Dashboard.CloseModal | Dashboard.tsx:130-133 | clears the article under review and changes nothing else; the invariant is preserved |
| DashboardPage.Dashboard.Stats | Dashboard.tsx:46-51 | each status's count is the number of articles in it; a status has an entry only if it occurs; the five counts add up to the number of articles |
| DashboardPage.BoardShowsFiltered | Dashboard.tsx:283 | a card appears in a column if and only if its article passes the filters and has that column's status |
| ReviewModal.Edited | components/ReviewModal.tsx:36-38 | the saved record has the buffers' title and content, and every other field of the shown article |
| ReviewModal.AfterPress | components/ReviewModal.tsx:36-43 | any button changes only the records with the shown article's id, keeping length and ids; Close changes nothing; ApproveAppliesEdits, StatusButtonDropsEdits and NewImageIgnoresBuffers give the rest |
| ReviewModal.ApproveAppliesEdits | components/ReviewModal.tsx:40-43 | Approve leaves the record with the edited title and content, status APPROVED and no publication fields; it keeps every other field and every other record |
| ReviewModal.StatusButtonDropsEdits | components/ReviewModal.tsx:107-110 | Move to review, Publish and Cancel set the status and keep every stored title and content, whatever the buffers hold |
| ReviewModal.NewImageIgnoresBuffers | components/ReviewModal.tsx:95-96 | a new image is saved over the article as the modal received it, with its stored title and content, not the buffers |
| ReviewModal.Modal.constructor | components/ReviewModal.tsx:24-25 | both buffers start empty |
| ReviewModal.Modal.ArticleChanged | components/ReviewModal.tsx:27-32 | a new article loads its title and content into the buffers; none leaves them |
| ReviewModal.Modal.Show | components/ReviewModal.tsx:27-32 | opening an article puts it under review and loads its title and content into the buffers; a stored article keeps the invariant |
| ReviewModal.Modal.EditTitle | components/ReviewModal.tsx:61 | typing replaces the title buffer only |
| ReviewModal.Modal.EditContent | components/ReviewModal.tsx:69 | typing replaces the content buffer only |
| ReviewModal.Modal.Press | components/ReviewModal.tsx:105-114 | with no article nothing happens. Otherwise the collection is as the button's handler leaves it. Save keeps the edited record under review. Status buttons and Close close the modal. Every button except the new image leaves the buffers as they were. A successful new image reloads the buffers from the saved record, a failed one changes nothing. The error display is untouched and the invariant is preserved |

## Left out

- UI-only state is not modelled: `isLoading`, `isUpdating`, `isModalOpen`, the form plumbing (`handleFilterChange`, `clearFilters`, `handleKeywordChange`) and the rendering of cards and icons. These only drive presentation and inputs.
- The stat cards (Dashboard.tsx:276-279) show four of the five counts with `stats.X || 0`. Only that lookup is modelled (`StatValue`); which cards are drawn is presentation.
- The provider's internals are not modelled: the model names, the prompts of `prospectNews` and `generateArticle`, and the parsing of `JSON.parse`. Each provider call and the parser are function parameters that may fail.
- The `API_KEY` check at module load is not modelled. It runs before any handler exists.
- Ids from `Date.now()` and `Math.random()` are a parameter `freshId`. The timestamp `new Date().toISOString()` is a parameter `now`.
- `console.error` logging is not modelled.
- The awaits of the handlers are not interleaved. Each handler runs to completion against the state it starts from, and the functional `setArticles(prev => …)` updates compose in call order.
- React reruns the modal's effect when the `article` prop changes identity. The model runs `ArticleChanged` where a handler assigns a new record to the dashboard's current article: on opening an article (`Modal.Show`), after Save, and after a successful new image (`Modal.Press`). Closing assigns null, which the effect ignores. `Dashboard.ReviewArticle` on its own does not touch the buffers.
- DashboardPage.Dashboard.ProspectNews: it models the handler with the intended `prospectNews(city, keywords, timeRange)` call. The handler as written always fails once validation passes (Findings); `Pipeline.ProspectAsWritten` models that.
- ReviewModal.Modal.Press: a modal whose `isOpen` is false renders nothing. The model takes the modal to be open exactly while the dashboard has a current article, as the dashboard sets both together.
- JsStrings.Lower: lower-casing covers ASCII letters only, not the full Unicode case mapping of `toLowerCase`.
- Number inputs (`parseInt` of the length and count fields, and NaN) are not modelled. `length` and `count` are integers.
- The login page, the authentication context, the header and the news card are not part of this model.

## Findings

| source | as written | input that shows it | evidently intended | confidence | as-written member | corrected member |
|---|---|---|---|---|---|---|
| Dashboard.tsx:92-95, services/geminiService.ts:15-17 | `prospectNews(activeKeywords, timeRange)` passes two arguments to a three-parameter function, so `keywords` is the time-range string and `keywords.join(', ')` throws a TypeError before the `try`. Every prospect attempt with a valid keyword fails and no provider call is made | keywords `["Itaipu"]`, any time range, any provider, count ≥ 1 | the active keywords and the time range reach the search, and the drafts are generated | high, not executed | Pipeline.ArityMismatchLosesArticles | Pipeline.ProspectBatchSize |
