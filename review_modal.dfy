/**
 * The review modal: two edit buffers for the title and content of the
 * article under review, and the buttons that save, change status or close.
 * The article it shows is the dashboard's current article.
 */
module ReviewModal {
  import opened Wrappers
  import opened Types
  import opened GeminiService
  import opened Workflow
  import opened DashboardPage

  /** `handleSave`'s record: the article with the buffers as its title and content, all else kept. */
  function Edited(a: Article, title: string, content: string): (r: Article)
    ensures r.title == title && r.content == content
    ensures r.(title := a.title, content := a.content) == a
  {
    a.(title := title, content := content)
  }

  /** The footer buttons of the modal, and the image button beside the picture. */
  datatype Button = MoveToReview | Approve | Publish | Cancel | Close | SaveChanges | NewImage

  /** The status a status button sets, if it is one. */
  function ButtonStatus(b: Button): Option<ArticleStatus>
  {
    match b
    case MoveToReview => Some(REVIEW)
    case Approve => Some(APPROVED)
    case Publish => Some(PUBLISHED)
    case Cancel => Some(CANCELLED)
    case _ => None
  }

  /**
   * The collection after pressing `b` while `a` is shown with buffers
   * `title` and `content`: only Approve saves before setting its status.
   */
  function AfterPress(b: Button, articles: seq<Article>, a: Article, title: string, content: string, now: string,
                      render: string -> Result<string, string>): (r: seq<Article>)
    ensures |r| == |articles|
    ensures forall i :: 0 <= i < |r| ==> r[i].id == articles[i].id
    ensures forall i :: 0 <= i < |r| && articles[i].id != a.id ==> r[i] == articles[i]
    ensures b == Close ==> r == articles
  {
    match b
    case Approve => UpdateStatusIn(SaveIn(articles, Edited(a, title, content)), a.id, APPROVED, now)
    case MoveToReview => UpdateStatusIn(articles, a.id, REVIEW, now)
    case Publish => UpdateStatusIn(articles, a.id, PUBLISHED, now)
    case Cancel => UpdateStatusIn(articles, a.id, CANCELLED, now)
    case Close => articles
    case SaveChanges => SaveIn(articles, Edited(a, title, content))
    case NewImage => RegenerateImageIn(articles, a, render)
  }

  /**
   * Approve leaves the shown article's record with the edited title and
   * content and status APPROVED, without publication fields; every other
   * record is as it was.
   */
  lemma ApproveAppliesEdits(articles: seq<Article>, a: Article, title: string, content: string, now: string,
                            render: string -> Result<string, string>)
    ensures var r := AfterPress(Approve, articles, a, title, content, now, render);
      && |r| == |articles|
      && (forall i :: 0 <= i < |r| && articles[i].id != a.id ==> r[i] == articles[i])
      && (forall i :: 0 <= i < |r| && articles[i].id == a.id ==>
            && r[i].title == title && r[i].content == content && r[i].status == APPROVED
            && r[i].publishedUrl.None? && r[i].publishedAt.None?
            && r[i].(title := a.title, content := a.content, status := a.status,
                     publishedUrl := a.publishedUrl, publishedAt := a.publishedAt) == a)
  {
    var saved := SaveIn(articles, Edited(a, title, content));
    UpdateStatusFrame(saved, a.id, APPROVED, now);
  }

  /**
   * Move-to-review, Publish and Cancel set the status without saving: every
   * title and content stays as stored, whatever the buffers hold.
   */
  lemma StatusButtonDropsEdits(b: Button, articles: seq<Article>, a: Article, title: string, content: string,
                               now: string, render: string -> Result<string, string>)
    requires b == MoveToReview || b == Publish || b == Cancel
    ensures var r := AfterPress(b, articles, a, title, content, now, render);
      && |r| == |articles|
      && (forall i :: 0 <= i < |r| ==> r[i].title == articles[i].title && r[i].content == articles[i].content)
      && (forall i :: 0 <= i < |r| && articles[i].id == a.id ==> Some(r[i].status) == ButtonStatus(b))
      && (forall i :: 0 <= i < |r| && articles[i].id != a.id ==> r[i] == articles[i])
  {
    UpdateStatusFrame(articles, a.id, ButtonStatus(b).value, now);
  }

  /**
   * A new image is saved over the shown article as the modal received it:
   * the record gets that article's title and content, not the buffers.
   */
  lemma NewImageIgnoresBuffers(articles: seq<Article>, a: Article, title: string, content: string, now: string,
                               render: string -> Result<string, string>)
    ensures var r := AfterPress(NewImage, articles, a, title, content, now, render);
      && |r| == |articles|
      && (forall i :: 0 <= i < |r| && articles[i].id != a.id ==> r[i] == articles[i])
      && (render(ImagePrompt(a.title)).Ok? ==>
            forall i :: 0 <= i < |r| && articles[i].id == a.id ==>
              r[i].title == a.title && r[i].content == a.content && r[i].imagePrompt == ImagePrompt(a.title))
  {
    RegenerateReplacesPair(articles, a, render);
  }

  class Modal {
    var editedTitle: string
    var editedContent: string

    constructor ()
      ensures editedTitle == "" && editedContent == ""
    {
      editedTitle := "";
      editedContent := "";
    }

    /** The effect on a change of article: the buffers take the new article's text; none leaves them. */
    method ArticleChanged(article: Option<Article>)
      modifies this
      ensures article.Some? ==> editedTitle == article.value.title && editedContent == article.value.content
      ensures article.None? ==> editedTitle == old(editedTitle) && editedContent == old(editedContent)
    {
      if article.Some? {
        editedTitle := article.value.title;
        editedContent := article.value.content;
      }
    }

    /**
     * Clicking a card: the dashboard opens the modal on the article, and the
     * effect then loads the article's title and content into the buffers.
     */
    method Show(dash: Dashboard, article: Article)
      modifies this, dash
      ensures dash.current == Some(article) && dash.articles == old(dash.articles) && dash.error == old(dash.error)
      ensures editedTitle == article.title && editedContent == article.content
      ensures old(dash.Valid()) && article in old(dash.articles) ==> dash.Valid()
    {
      dash.ReviewArticle(article);
      ArticleChanged(dash.current);
    }

    /** Typing into the title input. */
    method EditTitle(title: string)
      modifies this
      ensures editedTitle == title && editedContent == old(editedContent)
    {
      editedTitle := title;
    }

    /** Typing into the content textarea. */
    method EditContent(content: string)
      modifies this
      ensures editedContent == content && editedTitle == old(editedTitle)
    {
      editedContent := content;
    }

    /**
     * Pressing a button while the dashboard's current article is shown: the
     * handler runs against the dashboard, then the effect runs if the current
     * article was replaced. Nothing is shown, and nothing happens, without one.
     */
    method Press(b: Button, dash: Dashboard, now: string, render: string -> Result<string, string>)
      modifies this, dash
      ensures old(dash.current).None? ==>
        && dash.articles == old(dash.articles) && dash.current == old(dash.current)
        && editedTitle == old(editedTitle) && editedContent == old(editedContent)
      ensures old(dash.current).Some? ==>
        var a := old(dash.current).value;
        && dash.articles == AfterPress(b, old(dash.articles), a, old(editedTitle), old(editedContent), now, render)
        && (b == SaveChanges ==> dash.current == Some(Edited(a, old(editedTitle), old(editedContent))))
        && (ButtonStatus(b).Some? || b == Close ==> dash.current == None)
        && (b == NewImage ==> match GenerateImage(a.title, render)
              case Ok(image) => dash.current == Some(WithImage(a, image)) && editedTitle == a.title
                                && editedContent == a.content
              case Err(_) => dash.current == old(dash.current) && editedTitle == old(editedTitle)
                             && editedContent == old(editedContent))
      ensures old(dash.current).Some? && b != NewImage ==>
        editedTitle == old(editedTitle) && editedContent == old(editedContent)
      ensures dash.error == old(dash.error)
      ensures old(dash.Valid()) ==> dash.Valid()
    {
      if dash.current.None? {
        return;
      }
      var a := dash.current.value;
      match b
      case Approve =>
        dash.SaveArticle(Edited(a, editedTitle, editedContent));
        dash.UpdateStatus(a.id, APPROVED, now);
      case MoveToReview =>
        dash.UpdateStatus(a.id, REVIEW, now);
      case Publish =>
        dash.UpdateStatus(a.id, PUBLISHED, now);
      case Cancel =>
        dash.UpdateStatus(a.id, CANCELLED, now);
      case Close =>
        dash.CloseModal();
      case SaveChanges =>
        dash.SaveArticle(Edited(a, editedTitle, editedContent));
        ArticleChanged(dash.current);
      case NewImage =>
        var saved := dash.RegenerateImage(a, render);
        if saved {
          ArticleChanged(dash.current);
        }
    }
  }
}
