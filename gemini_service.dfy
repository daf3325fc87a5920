/**
 * The pure parts of the generative-AI client: cleaning the prospecting reply
 * before JSON parsing, turning grounding chunks into citations, the failure
 * policy of `prospectNews`, and the prompt `generateImage` sends and returns.
 * The provider itself, and `JSON.parse`, are function parameters.
 */
module GeminiService {
  import opened Wrappers
  import opened JsStrings
  import opened Types
  import Seqs

  // ---------------------------------------------------------------------------
  // Cleaning the reply: text.trim().replace(/^```json\s*|```\s*$/g, '')
  // ---------------------------------------------------------------------------

  const JsonFence: string := "```json"
  const Fence: string := "```"

  /**
   * Where the first alternative of the pattern stops matching: after a leading
   * "```json" and all the whitespace following it; 0 when there is no such fence.
   */
  function LeadingFenceEnd(t: string): (p: nat)
    ensures p <= |t|
    ensures StartsWith(t, JsonFence) ==>
      7 <= p && AllWhitespace(t[7..p]) && (p == |t| || !IsWhitespace(t[p]))
    ensures !StartsWith(t, JsonFence) ==> p == 0
  {
    if StartsWith(t, JsonFence) then
      var p := SkipWhitespace(t, 7);
      assert forall i :: 0 <= i < p - 7 ==> t[7..p][i] == t[7 + i];
      p
    else 0
  }

  /** The second alternative matches at `q`: "```" followed by nothing but whitespace. */
  predicate ClosingFenceAt(t: string, q: nat)
  {
    q + 3 <= |t| && t[q..q + 3] == Fence && AllWhitespace(t[q + 3..])
  }

  /** The leftmost position at or after `from` where the closing alternative matches. */
  function FindClosingFence(t: string, from: nat): (r: Option<nat>)
    requires from <= |t|
    ensures r.Some? ==> from <= r.value && ClosingFenceAt(t, r.value)
    ensures r.Some? ==> forall j :: from <= j < r.value ==> !ClosingFenceAt(t, j)
    ensures r.None? ==> forall j :: from <= j <= |t| ==> !ClosingFenceAt(t, j)
    decreases |t| - from
  {
    if ClosingFenceAt(t, from) then Some(from)
    else if from == |t| then None
    else FindClosingFence(t, from + 1)
  }

  /**
   * The global replace: the leading alternative can only match at position 0;
   * scanning then resumes where it stopped, and the first match of the closing
   * alternative runs to the end of the text.
   */
  function StripFences(t: string): (r: string)
    ensures LeadingFenceEnd(t) + |r| <= |t|
    ensures r == t[LeadingFenceEnd(t)..LeadingFenceEnd(t) + |r|]
    ensures LeadingFenceEnd(t) + |r| < |t| ==> ClosingFenceAt(t, LeadingFenceEnd(t) + |r|)
    ensures forall q :: LeadingFenceEnd(t) <= q < LeadingFenceEnd(t) + |r| ==> !ClosingFenceAt(t, q)
  {
    var p := LeadingFenceEnd(t);
    match FindClosingFence(t, p)
    case Some(q) => t[p..q]
    case None => t[p..]
  }

  /** The text handed to the JSON parser. */
  function CleanResponseText(text: string): (r: string)
    ensures LeadingFenceEnd(Trim(text)) + |r| <= |Trim(text)|
    ensures r == Trim(text)[LeadingFenceEnd(Trim(text))..LeadingFenceEnd(Trim(text)) + |r|]
  {
    StripFences(Trim(text))
  }

  /**
   * The cleaned text for every reply: after trimming, the leading "```json"
   * and its whitespace are dropped, and so is a final "```" that does not
   * overlap them; nothing else is removed.
   */
  lemma CleanResponseTextValue(text: string)
    ensures var t := Trim(text);
      var p := LeadingFenceEnd(t);
      CleanResponseText(text) == if EndsWith(t, Fence) && p <= |t| - 3 then t[p..|t| - 3] else t[p..]
  {
    var t := Trim(text);
    var p := LeadingFenceEnd(t);
    if EndsWith(t, Fence) && p <= |t| - 3 {
      FirstClosingFence(t, p);
    } else {
      forall j | p <= j <= |t| ensures !ClosingFenceAt(t, j) {
        ClosingFenceOnlyAtEnd(t, j);
      }
    }
  }

  /** In trimmed text the closing alternative can match only at the very end. */
  lemma ClosingFenceOnlyAtEnd(t: string, q: nat)
    requires IsTrimmed(t)
    ensures ClosingFenceAt(t, q) <==> q + 3 == |t| && EndsWith(t, Fence)
  {
    if q + 3 == |t| && EndsWith(t, Fence) {
      assert t[q + 3..] == [];
    }
  }

  /** Text without fences reaches the parser unchanged apart from trimming. */
  lemma CleanUnfenced(text: string)
    requires !StartsWith(Trim(text), JsonFence) && !EndsWith(Trim(text), Fence)
    ensures CleanResponseText(text) == Trim(text)
  {
    var t := Trim(text);
    forall j | 0 <= j <= |t| ensures !ClosingFenceAt(t, j) {
      ClosingFenceOnlyAtEnd(t, j);
    }
  }

  /**
   * A leading bare "```" (no "json") is not removed; only a closing fence is.
   * So when the text is long enough to hold both, the parser still sees the
   * opening fence.
   */
  lemma CleanBareFence(text: string)
    requires StartsWith(Trim(text), Fence) && !StartsWith(Trim(text), JsonFence)
    ensures var t := Trim(text);
      CleanResponseText(text) == if EndsWith(t, Fence) then t[..|t| - 3] else t
    ensures |Trim(text)| >= 6 ==> StartsWith(CleanResponseText(text), Fence)
  {
    var t := Trim(text);
    if EndsWith(t, Fence) {
      ClosingFenceOnlyAtEnd(t, |t| - 3);
      FirstClosingFence(t, 0);
    } else {
      forall j | 0 <= j <= |t| ensures !ClosingFenceAt(t, j) {
        ClosingFenceOnlyAtEnd(t, j);
      }
    }
  }

  /**
   * A reply wrapped as "```json", whitespace, payload, whitespace, "```" is
   * cleaned to the payload. The whitespace before the closing fence stays: the
   * pattern removes only what follows it.
   */
  lemma CleanJsonFenced(lead: string, w1: string, body: string, w2: string, trail: string)
    requires AllWhitespace(lead) && AllWhitespace(w1) && AllWhitespace(w2) && AllWhitespace(trail)
    requires body != [] && !IsWhitespace(body[0])
    ensures CleanResponseText(lead + JsonFence + w1 + body + w2 + Fence + trail) == body + w2
  {
    var core := JsonFence + w1 + body + w2 + Fence;
    assert lead + JsonFence + w1 + body + w2 + Fence + trail == lead + core + trail;
    assert core[..3] == Fence && core[|core| - 3..] == Fence;
    TrimFenced(lead, core, trail);
    StripWrapped(w1, body, w2);
  }

  lemma StripWrapped(w1: string, body: string, w2: string)
    requires AllWhitespace(w1)
    requires body != [] && !IsWhitespace(body[0])
    ensures StripFences(JsonFence + w1 + body + w2 + Fence) == body + w2
  {
    var core := JsonFence + w1 + body + w2 + Fence;
    WrappedSlices(w1, body, w2);
    LeadingFenceOfWrapped(w1, body, w2);
    TrimmedFenced(core);
    FirstClosingFence(core, 7 + |w1|);
  }

  /** Where the pieces of a fenced reply sit. */
  lemma WrappedSlices(w1: string, body: string, w2: string)
    ensures var core := JsonFence + w1 + body + w2 + Fence;
      && StartsWith(core, JsonFence) && StartsWith(core, Fence) && EndsWith(core, Fence)
      && core[7 + |w1|..|core| - 3] == body + w2
      && (forall i :: 0 <= i < |w1| ==> core[7 + i] == w1[i])
      && (body != [] ==> core[7 + |w1|] == body[0])
  {
    var core := JsonFence + w1 + body + w2 + Fence;
    assert core == JsonFence + (w1 + (body + w2) + Fence);
    assert core[..7] == JsonFence;
    assert core[..3] == Fence;
    assert core[|core| - 3..] == Fence;
  }

  lemma TrimmedFenced(core: string)
    requires StartsWith(core, Fence) && EndsWith(core, Fence)
    ensures IsTrimmed(core)
  {
    assert core[0] == core[..3][0] == '`';
    assert core[|core| - 1] == core[|core| - 3..][2] == '`';
  }

  lemma TrimFenced(lead: string, core: string, trail: string)
    requires AllWhitespace(lead) && AllWhitespace(trail)
    requires StartsWith(core, Fence) && EndsWith(core, Fence)
    ensures Trim(lead + core + trail) == core
  {
    TrimmedFenced(core);
    TrimPadded(lead, core, trail);
  }

  lemma LeadingFenceOfWrapped(w1: string, body: string, w2: string)
    requires AllWhitespace(w1)
    requires body != [] && !IsWhitespace(body[0])
    ensures LeadingFenceEnd(JsonFence + w1 + body + w2 + Fence) == 7 + |w1|
  {
    var core := JsonFence + w1 + body + w2 + Fence;
    WrappedSlices(w1, body, w2);
    SkipWhitespaceAt(core, 7, 7 + |w1|);
  }

  /** In trimmed text ending with a fence, the scan from `p` finds the final fence. */
  lemma FirstClosingFence(t: string, p: nat)
    requires IsTrimmed(t) && EndsWith(t, Fence) && p <= |t| - 3
    ensures FindClosingFence(t, p) == Some(|t| - 3)
  {
    ClosingFenceOnlyAtEnd(t, |t| - 3);
    forall j | p <= j < |t| - 3 ensures !ClosingFenceAt(t, j) {
      ClosingFenceOnlyAtEnd(t, j);
    }
  }

  // ---------------------------------------------------------------------------
  // Grounding sources
  // ---------------------------------------------------------------------------

  /** The `web` part of a grounding chunk; either property may be missing. */
  datatype WebInfo = WebInfo(uri: Option<string>, title: Option<string>)

  datatype GroundingChunk = GroundingChunk(web: Option<WebInfo>)

  const UnknownSourceTitle: string := "Fonte desconhecida"

  /** JavaScript's `v || d` on an optional string: a missing or empty value gives `d`. */
  function OrDefault(v: Option<string>, d: string): (r: string)
    ensures v.Some? && v.value != "" ==> r == v.value
    ensures v.None? || v.value == "" ==> r == d
  {
    if v.Some? && v.value != "" then v.value else d
  }

  function WebUri(c: GroundingChunk): Option<string>
  {
    if c.web.Some? then c.web.value.uri else None
  }

  function WebTitle(c: GroundingChunk): Option<string>
  {
    if c.web.Some? then c.web.value.title else None
  }

  /** `{ uri: chunk.web?.uri || '', title: chunk.web?.title || 'Fonte desconhecida' }`. */
  function ToSource(c: GroundingChunk): (s: SourceUrl)
    ensures s.title != ""
    ensures s.uri == "" <==> WebUri(c).None? || WebUri(c) == Some("")
    ensures WebUri(c).Some? && WebUri(c).value != "" ==> s.uri == WebUri(c).value
    ensures s.title == if WebTitle(c).Some? && WebTitle(c).value != "" then WebTitle(c).value else UnknownSourceTitle
    ensures c.web.None? ==> s == SourceUrl("", UnknownSourceTitle)
  {
    SourceUrl(OrDefault(WebUri(c), ""), OrDefault(WebTitle(c), UnknownSourceTitle))
  }

  /** Whether a citation survives the `filter(source => source.uri)`. */
  predicate HasUri(s: SourceUrl)
  {
    s.uri != ""
  }

  /** Citations from grounding chunks: map each chunk, then drop those with an empty uri. */
  function ExtractSources(chunks: seq<GroundingChunk>): (r: seq<SourceUrl>)
    ensures |r| <= |chunks|
    ensures forall i :: 0 <= i < |r| ==> r[i].uri != ""
  {
    Seqs.Filter(Seqs.Map(chunks, ToSource), HasUri)
  }

  /** Every extracted citation has a uri and a title. */
  lemma ExtractedSourcesWellFormed(chunks: seq<GroundingChunk>, s: SourceUrl)
    requires s in ExtractSources(chunks)
    ensures s.uri != "" && s.title != ""
    ensures exists i :: 0 <= i < |chunks| && ToSource(chunks[i]) == s
  {
    Seqs.FilterMembership(Seqs.Map(chunks, ToSource), HasUri, s);
  }

  /** Extraction works chunk by chunk: order is kept and repeated chunks repeat. */
  lemma ExtractSourcesConcat(a: seq<GroundingChunk>, b: seq<GroundingChunk>)
    ensures ExtractSources(a + b) == ExtractSources(a) + ExtractSources(b)
  {
    Seqs.MapConcat(a, b, ToSource);
    Seqs.FilterConcat(Seqs.Map(a, ToSource), Seqs.Map(b, ToSource), HasUri);
  }

  /** A single chunk yields its citation when it has a non-empty uri, and nothing otherwise. */
  lemma ExtractSourcesSingle(c: GroundingChunk)
    ensures ExtractSources([c]) ==
      if WebUri(c).Some? && WebUri(c).value != "" then [ToSource(c)] else []
  {
    assert Seqs.Map([c], ToSource) == [ToSource(c)];
    assert [ToSource(c)][1..] == [];
  }

  // ---------------------------------------------------------------------------
  // prospectNews: reply handling and failure policy
  // ---------------------------------------------------------------------------

  /** One prospected topic, as the parsed reply lists it. */
  datatype Topic = Topic(topic: string)

  /** What the search-grounded generation call returns: the reply text and the grounding chunks. */
  datatype RawResponse = RawResponse(text: Option<string>, groundingChunks: Option<seq<GroundingChunk>>)

  datatype ProspectResult = ProspectResult(topics: seq<Topic>, sources: seq<SourceUrl>)

  const ProspectFailure: string := "Falha ao buscar notícias. A resposta da IA pode não ser um JSON válido."

  /**
   * The body of the `try` in `prospectNews`, given the outcome of the provider
   * call and the JSON parser: every failure inside it becomes `ProspectFailure`.
   */
  function ProspectNews(response: Result<RawResponse, string>, parse: string -> Option<seq<Topic>>)
    : (r: Result<ProspectResult, string>)
    ensures r.Err? ==> r.error == ProspectFailure
    ensures r.Ok? <==>
      response.Ok? && response.value.text.Some? && parse(CleanResponseText(response.value.text.value)).Some?
    ensures r.Ok? ==>
      && r.value.topics == parse(CleanResponseText(response.value.text.value)).value
      && r.value.sources == ExtractSources(
        if response.value.groundingChunks.Some? then response.value.groundingChunks.value else [])
  {
    match response
    case Err(_) => Err(ProspectFailure)
    case Ok(raw) =>
      if raw.text.None? then Err(ProspectFailure)
      else
        match parse(CleanResponseText(raw.text.value))
        case None => Err(ProspectFailure)
        case Some(topics) =>
          var chunks := if raw.groundingChunks.Some? then raw.groundingChunks.value else [];
          Ok(ProspectResult(topics, ExtractSources(chunks)))
  }

  // ---------------------------------------------------------------------------
  // generateImage
  // ---------------------------------------------------------------------------

  const ImagePromptPrefix: string := "Foto jornalística minimalista e elegante para uma notícia com o título: \""
  const ImagePromptSuffix: string :=
    "\". A imagem deve ser relevante para o contexto de Foz do Iguaçu. Estilo fotorrealista."

  /** The prompt `generateImage` builds around an article title. */
  function ImagePrompt(title: string): (p: string)
    ensures Contains(p, title)
  {
    var p := ImagePromptPrefix + title + ImagePromptSuffix;
    assert StartsWith(p[|ImagePromptPrefix|..], title);
    p
  }

  /** Different titles give different prompts, so a prompt names the title it was built from. */
  lemma ImagePromptInjective(t1: string, t2: string)
    requires ImagePrompt(t1) == ImagePrompt(t2)
    ensures t1 == t2
  {
    var n := |ImagePromptPrefix|;
    assert |t1| == |t2|;
    assert t1 == ImagePrompt(t1)[n..n + |t1|];
    assert t2 == ImagePrompt(t2)[n..n + |t2|];
  }

  /** The image bytes, base64-encoded, and the prompt that produced them. */
  datatype GeneratedImage = GeneratedImage(base64Image: string, prompt: string)

  /**
   * `generateImage(title)` with the image model as `render`: it returns as its
   * prompt exactly the string it sent, and fails when the model call fails.
   */
  function GenerateImage(title: string, render: string -> Result<string, string>): (r: Result<GeneratedImage, string>)
    ensures r.Ok? <==> render(ImagePrompt(title)).Ok?
    ensures r.Ok? ==> r.value == GeneratedImage(render(ImagePrompt(title)).value, ImagePrompt(title))
    ensures r.Ok? ==> Contains(r.value.prompt, title)
    ensures r.Err? ==> r.error == render(ImagePrompt(title)).error
  {
    var prompt := ImagePrompt(title);
    match render(prompt)
    case Ok(bytes) => Ok(GeneratedImage(bytes, prompt))
    case Err(e) => Err(e)
  }

  // ---------------------------------------------------------------------------
  // The argument binding of prospectNews(city, keywords, timeRange)
  // ---------------------------------------------------------------------------

  /** The JavaScript values that can be bound to `prospectNews`'s parameters here. */
  datatype JsValue = JsString(s: string) | JsStringArray(items: seq<string>) | JsUndefined

  const JoinTypeError: string := "keywords.join is not a function"

  /**
   * `keywords.join(', ')` in the prompt template, evaluated before the `try`:
   * only an array has `join`; any other value throws a TypeError.
   */
  function JoinKeywords(keywords: JsValue): (r: Result<string, string>)
    ensures r.Ok? <==> keywords.JsStringArray?
    ensures r.Err? ==> r.error == JoinTypeError
  {
    match keywords
    case JsStringArray(xs) => Ok(Join(xs, ", "))
    case _ => Err(JoinTypeError)
  }

  /** The parameters of `prospectNews` as bound by a call. */
  datatype ProspectArgs = ProspectArgs(city: JsValue, keywords: JsValue, timeRange: JsValue)

  /**
   * The call `prospectNews(activeKeywords, timeRange)`: with two arguments for
   * three parameters, the keywords land in `city`, the time range in `keywords`
   * and `timeRange` is undefined.
   */
  function ProspectArgsAsCalled(activeKeywords: seq<string>, timeRange: string): (a: ProspectArgs)
    ensures a.keywords == JsString(timeRange)
  {
    ProspectArgs(JsStringArray(activeKeywords), JsString(timeRange), JsUndefined)
  }
}
