/** The kanban column list: which statuses get a column, under what title, in what order. */
module Constants {
  import opened Types

  datatype KanbanColumn = KanbanColumn(title: string, status: ArticleStatus)

  const KanbanColumns: seq<KanbanColumn> := [
    KanbanColumn("Novos Rascunhos", DRAFT),
    KanbanColumn("Em Revisão", REVIEW),
    KanbanColumn("Aprovadas", APPROVED),
    KanbanColumn("Publicadas", PUBLISHED),
    KanbanColumn("Canceladas", CANCELLED)
  ]

  /** The statuses of the columns, in column order. */
  function ColumnStatuses(): (ss: seq<ArticleStatus>)
    ensures |ss| == |KanbanColumns|
    ensures forall i :: 0 <= i < |ss| ==> ss[i] == KanbanColumns[i].status
  {
    seq(|KanbanColumns|, i requires 0 <= i < |KanbanColumns| => KanbanColumns[i].status)
  }

  /**
   * There are five columns, for DRAFT, REVIEW, APPROVED, PUBLISHED and CANCELLED
   * in that order; so every status has exactly one column.
   */
  lemma ColumnsPartitionStatuses(s: ArticleStatus)
    ensures |KanbanColumns| == 5
    ensures ColumnStatuses() == AllStatuses
    ensures forall i, j :: 0 <= i < j < |KanbanColumns| ==> KanbanColumns[i].status != KanbanColumns[j].status
    ensures exists i :: 0 <= i < |KanbanColumns| && KanbanColumns[i].status == s
  {
    var i := match s
      case DRAFT => 0
      case REVIEW => 1
      case APPROVED => 2
      case PUBLISHED => 3
      case CANCELLED => 4;
    assert KanbanColumns[i].status == s;
  }
}
