/** The dashboard's record types: article status, tone, citation and article. */
module Types {
  import opened Wrappers
  import Seqs

  /** The editorial status of an article. */
  datatype ArticleStatus = DRAFT | REVIEW | APPROVED | PUBLISHED | CANCELLED

  /** The string value of each status; the enum spells each value as its member's name. */
  function StatusValue(s: ArticleStatus): string
  {
    match s
    case DRAFT => "DRAFT"
    case REVIEW => "REVIEW"
    case APPROVED => "APPROVED"
    case PUBLISHED => "PUBLISHED"
    case CANCELLED => "CANCELLED"
  }

  /** The status a string value denotes, if any (the inverse of `StatusValue`). */
  function ParseStatus(v: string): (r: Option<ArticleStatus>)
  {
    if v == "DRAFT" then Some(DRAFT)
    else if v == "REVIEW" then Some(REVIEW)
    else if v == "APPROVED" then Some(APPROVED)
    else if v == "PUBLISHED" then Some(PUBLISHED)
    else if v == "CANCELLED" then Some(CANCELLED)
    else None
  }

  /** Every status, in declaration order. */
  const AllStatuses: seq<ArticleStatus> := [DRAFT, REVIEW, APPROVED, PUBLISHED, CANCELLED]

  /** Status values and their strings are in one-to-one correspondence. */
  lemma StatusValueRoundTrip(s: ArticleStatus, v: string)
    ensures ParseStatus(StatusValue(s)) == Some(s)
    ensures ParseStatus(v) == Some(s) <==> StatusValue(s) == v
  {
  }

  /** There are exactly five statuses, all distinct and all listed. */
  lemma StatusEnumeration(s: ArticleStatus)
    ensures |AllStatuses| == 5
    ensures s in AllStatuses
    ensures forall i, j :: 0 <= i < j < |AllStatuses| ==> AllStatuses[i] != AllStatuses[j]
    ensures forall i, j :: 0 <= i < j < |AllStatuses| ==> StatusValue(AllStatuses[i]) != StatusValue(AllStatuses[j])
  {
  }

  /** The voice requested from the article writer. */
  datatype Tone = Neutral | Optimistic | Critical | Serious | Animated

  /** The string each tone is sent as. */
  function ToneValue(t: Tone): string
  {
    match t
    case Neutral => "Neutral"
    case Optimistic => "Optimistic"
    case Critical => "Critical"
    case Serious => "Serious"
    case Animated => "Animated"
  }

  /** Distinct tones are sent as distinct strings. */
  lemma ToneValueInjective(t: Tone, u: Tone)
    ensures ToneValue(t) == ToneValue(u) <==> t == u
  {
  }

  /** A citation: where a topic's information came from. */
  datatype SourceUrl = SourceUrl(uri: string, title: string)

  /**
   * An article record. `publishedUrl` and `publishedAt` are optional properties;
   * the record type in the source declares only the former, but the dashboard
   * reads and writes both.
   */
  datatype Article = Article(
    id: string,
    title: string,
    content: string,
    imageUrl: string,
    imagePrompt: string,
    status: ArticleStatus,
    sourceUrls: seq<SourceUrl>,
    topic: string,
    publishedUrl: Option<string>,
    publishedAt: Option<string>)

  /** The publication fields are present exactly while the article is PUBLISHED. */
  predicate PublishedConsistent(a: Article)
  {
    && (a.publishedUrl.Some? <==> a.status == PUBLISHED)
    && (a.publishedAt.Some? <==> a.status == PUBLISHED)
  }

  /** Every article of a collection satisfies `PublishedConsistent`. */
  predicate AllConsistent(articles: seq<Article>)
  {
    forall i :: 0 <= i < |articles| ==> PublishedConsistent(articles[i])
  }

  /** The articles currently in status `s`, in collection order. */
  function WithStatus(articles: seq<Article>, s: ArticleStatus): seq<Article>
  {
    Seqs.Filter(articles, (a: Article) => a.status == s)
  }

  /** The number of articles in each of the statuses `ss`, added up. */
  function SumCounts(articles: seq<Article>, ss: seq<ArticleStatus>): nat
  {
    if ss == [] then 0 else |WithStatus(articles, ss[0])| + SumCounts(articles, ss[1..])
  }

  /** How many times `s` is listed in `ss`. */
  function Occurrences(ss: seq<ArticleStatus>, s: ArticleStatus): nat
  {
    if ss == [] then 0 else (if ss[0] == s then 1 else 0) + Occurrences(ss[1..], s)
  }

  /** One more article adds one to the sum for each time its status is listed. */
  lemma {:induction false} SumCountsCons(a: Article, rest: seq<Article>, ss: seq<ArticleStatus>)
    ensures SumCounts([a] + rest, ss) == Occurrences(ss, a.status) + SumCounts(rest, ss)
  {
    if ss != [] {
      assert ([a] + rest)[1..] == rest;
      SumCountsCons(a, rest, ss[1..]);
    }
  }

  lemma {:induction false} SumCountsEmpty(ss: seq<ArticleStatus>)
    ensures SumCounts([], ss) == 0
  {
    if ss != [] {
      SumCountsEmpty(ss[1..]);
    }
  }

  /** The per-status counts of a collection add up to its size. */
  lemma {:induction false} StatusCountsSum(articles: seq<Article>)
    ensures SumCounts(articles, AllStatuses) == |articles|
  {
    if articles == [] {
      SumCountsEmpty(AllStatuses);
    } else {
      var a := articles[0];
      assert articles == [a] + articles[1..];
      SumCountsCons(a, articles[1..], AllStatuses);
      StatusCountsSum(articles[1..]);
      assert Occurrences(AllStatuses, a.status) == 1;
    }
  }

  /** The five per-status counts of a collection add up to its size. */
  lemma StatusCountsAddUp(articles: seq<Article>)
    ensures |WithStatus(articles, DRAFT)| + |WithStatus(articles, REVIEW)| + |WithStatus(articles, APPROVED)|
      + |WithStatus(articles, PUBLISHED)| + |WithStatus(articles, CANCELLED)| == |articles|
  {
    StatusCountsSum(articles);
    var ss := AllStatuses;
    assert SumCounts(articles, ss[4..]) == |WithStatus(articles, CANCELLED)| + SumCounts(articles, ss[5..]);
    assert SumCounts(articles, ss[3..]) == |WithStatus(articles, PUBLISHED)| + SumCounts(articles, ss[4..]);
    assert SumCounts(articles, ss[2..]) == |WithStatus(articles, APPROVED)| + SumCounts(articles, ss[3..]);
    assert SumCounts(articles, ss[1..]) == |WithStatus(articles, REVIEW)| + SumCounts(articles, ss[2..]);
    assert SumCounts(articles, ss) == |WithStatus(articles, DRAFT)| + SumCounts(articles, ss[1..]);
  }

  /** Extending a collection by one article adds it to the list for its own status only. */
  lemma WithStatusSnoc(articles: seq<Article>, a: Article, s: ArticleStatus)
    ensures WithStatus(articles + [a], s) == WithStatus(articles, s) + (if a.status == s then [a] else [])
  {
    Seqs.FilterConcat(articles, [a], (x: Article) => x.status == s);
    assert [a][1..] == [];
  }
}
