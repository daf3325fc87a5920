/** The kanban board: one column per entry of `KanbanColumns`, each showing the articles in its status. */
module KanbanBoard {
  import opened Types
  import opened Constants
  import Seqs

  /** A rendered column: its title, its status and the articles it lists. */
  datatype ColumnView = ColumnView(title: string, status: ArticleStatus, articles: seq<Article>)

  /** The board for `articles`: `KanbanColumns` mapped to columns, each filtered by status. */
  function Board(articles: seq<Article>): (board: seq<ColumnView>)
    ensures |board| == |KanbanColumns|
    ensures forall i :: 0 <= i < |board| ==>
      board[i].title == KanbanColumns[i].title && board[i].status == KanbanColumns[i].status
  {
    seq(|KanbanColumns|, i requires 0 <= i < |KanbanColumns| =>
      ColumnView(KanbanColumns[i].title, KanbanColumns[i].status, WithStatus(articles, KanbanColumns[i].status)))
  }

  /** The number of article cards over all columns. */
  function TotalSize(board: seq<ColumnView>): nat
  {
    if board == [] then 0 else |board[0].articles| + TotalSize(board[1..])
  }

  /** A column holds exactly the articles whose status is the column's. */
  lemma ColumnContents(articles: seq<Article>, i: nat, a: Article)
    requires i < |KanbanColumns|
    ensures a in Board(articles)[i].articles <==> a in articles && a.status == KanbanColumns[i].status
  {
    Seqs.FilterMembership(articles, (x: Article) => x.status == KanbanColumns[i].status, a);
  }

  /** Within a column, articles keep their relative order from the input. */
  lemma ColumnKeepsOrder(articles: seq<Article>, i: nat)
    requires i < |KanbanColumns|
    ensures Seqs.SubsequenceOf(Board(articles)[i].articles, articles)
  {
    Seqs.FilterIsSubsequence(articles, (x: Article) => x.status == KanbanColumns[i].status);
  }

  /** Every article of the input lands in one column and in no other. */
  lemma ExactlyOneColumn(articles: seq<Article>, a: Article)
    requires a in articles
    ensures exists i :: 0 <= i < |KanbanColumns| && a in Board(articles)[i].articles
    ensures forall i, j ::
      (0 <= i < |KanbanColumns| && 0 <= j < |KanbanColumns| &&
       a in Board(articles)[i].articles && a in Board(articles)[j].articles) ==> i == j
  {
    ColumnsPartitionStatuses(a.status);
    var k :| 0 <= k < |KanbanColumns| && KanbanColumns[k].status == a.status;
    ColumnContents(articles, k, a);
    forall i, j | 0 <= i < |KanbanColumns| && 0 <= j < |KanbanColumns| &&
      a in Board(articles)[i].articles && a in Board(articles)[j].articles
      ensures i == j
    {
      ColumnContents(articles, i, a);
      ColumnContents(articles, j, a);
    }
  }

  lemma {:induction false} TotalSizeSuffix(articles: seq<Article>, k: nat)
    requires k <= |KanbanColumns|
    ensures TotalSize(Board(articles)[k..]) == SumCounts(articles, ColumnStatuses()[k..])
    decreases |KanbanColumns| - k
  {
    var board := Board(articles);
    if k < |KanbanColumns| {
      TotalSizeSuffix(articles, k + 1);
      assert board[k..][1..] == board[k + 1..];
      assert ColumnStatuses()[k..][1..] == ColumnStatuses()[k + 1..];
    }
  }

  /** The column sizes add up to the number of input articles. */
  lemma ColumnSizesSum(articles: seq<Article>)
    ensures TotalSize(Board(articles)) == |articles|
  {
    TotalSizeSuffix(articles, 0);
    ColumnsPartitionStatuses(DRAFT);
    assert Board(articles)[0..] == Board(articles);
    StatusCountsSum(articles);
  }
}
