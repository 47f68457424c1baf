/** The fixed column table of the task board (KanbanColumn.tsx): five columns in a
    fixed order, each accepting a set of task statuses, and the map from a column
    to the status a task dropped on it receives. */
module KanbanColumn {
  import opened Types

  /** ColumnId: the six status spellings; only five of them name a column of the table. */
  datatype ColumnId = InboxColumn | AssignedColumn | InProgressColumn | ReviewColumn | DoneColumn | BlockedColumn

  /** One entry of COLUMNS (emoji and colour are rendering only). */
  datatype Column = Column(id: ColumnId, title: string, statuses: seq<Status>)

  /** The wire spelling of a column id. */
  function ColumnName(c: ColumnId): string {
    match c
    case InboxColumn => "inbox"
    case AssignedColumn => "assigned"
    case InProgressColumn => "in_progress"
    case ReviewColumn => "review"
    case DoneColumn => "done"
    case BlockedColumn => "blocked"
  }

  /** COLUMNS, in display order: there is no column for `assigned`, and every column
      accepts some status. */
  function Columns(): (cols: seq<Column>)
    ensures forall i :: 0 <= i < |cols| ==> cols[i].id != AssignedColumn && cols[i].statuses != []
  {
    [ Column(InboxColumn, "Inbox", [Inbox, Assigned]),
      Column(InProgressColumn, "In Progress", [InProgress]),
      Column(ReviewColumn, "Review", [Review]),
      Column(BlockedColumn, "Blocked", [Blocked]),
      Column(DoneColumn, "Done", [Done]) ]
  }

  /** getStatusForColumn: the status spelled like the column id. */
  function StatusForColumn(c: ColumnId): (s: Status)
    ensures StatusName(s) == ColumnName(c)
  {
    match c
    case InboxColumn => Inbox
    case AssignedColumn => Assigned
    case InProgressColumn => InProgress
    case ReviewColumn => Review
    case DoneColumn => Done
    case BlockedColumn => Blocked
  }

  /** `cols.find(col => col.statuses.includes(s))`. */
  function FirstAccepting(cols: seq<Column>, s: Status): (r: Option<Column>)
    ensures r.None? <==> forall i :: 0 <= i < |cols| ==> s !in cols[i].statuses
    ensures r.Some? ==> exists i :: 0 <= i < |cols| && cols[i] == r.value && s in r.value.statuses
                                    && forall j :: 0 <= j < i ==> s !in cols[j].statuses
  {
    if cols == [] then None
    else if s in cols[0].statuses then Some(cols[0])
    else
      var r := FirstAccepting(cols[1..], s);
      assert r.Some? ==> exists i :: 1 <= i < |cols| && cols[i] == r.value && s in r.value.statuses
                                     && forall j :: 0 <= j < i ==> s !in cols[j].statuses by {
        if r.Some? {
          var k :| 0 <= k < |cols[1..]| && cols[1..][k] == r.value && s in r.value.statuses
                   && forall j :: 0 <= j < k ==> s !in cols[1..][j].statuses;
          assert forall j :: 0 <= j < k + 1 ==> s !in cols[j].statuses by {
            forall j | 0 <= j < k + 1 ensures s !in cols[j].statuses {
              if j > 0 { assert cols[j] == cols[1..][j - 1]; }
            }
          }
        }
      }
      r
  }

  /** The column whose card list shows a task of status s on the board. */
  function ColumnOf(s: Status): Option<Column> {
    FirstAccepting(Columns(), s)
  }

  /** Independent reference: where each status is meant to be shown. */
  function HomeColumn(s: Status): ColumnId {
    match s
    case Inbox => InboxColumn
    case Assigned => InboxColumn
    case InProgress => InProgressColumn
    case Review => ReviewColumn
    case Done => DoneColumn
    case Blocked => BlockedColumn
  }

  /** Every status belongs to the status set of exactly one column. */
  lemma EachStatusInExactlyOneColumn(s: Status)
    ensures exists i :: 0 <= i < |Columns()| && s in Columns()[i].statuses
    ensures forall i, j ::
              0 <= i < |Columns()| && 0 <= j < |Columns()| && s in Columns()[i].statuses && s in Columns()[j].statuses
              ==> i == j
  {
    var cols := Columns();
    var k := match s
      case Inbox => 0 case Assigned => 0 case InProgress => 1
      case Review => 2 case Blocked => 3 case Done => 4;
    assert s in cols[k].statuses;
  }

  /** The column of a status is always found, and it is its home column. */
  lemma ColumnOfIsHome(s: Status)
    ensures ColumnOf(s).Some?
    ensures ColumnOf(s).value.id == HomeColumn(s)
    ensures s in ColumnOf(s).value.statuses
  {
    EachStatusInExactlyOneColumn(s);
    var cols := Columns();
    var r := ColumnOf(s);
    var i :| 0 <= i < |cols| && cols[i] == r.value && s in r.value.statuses;
    match s
    case Inbox => assert i == 0;
    case Assigned => assert i == 0;
    case InProgress => assert i == 1;
    case Review => assert i == 2;
    case Blocked => assert i == 3;
    case Done => assert i == 4;
  }

  /** The inbox column accepts inbox and assigned; every other column exactly its own
      status; the columns come in the order inbox, in_progress, review, blocked, done. */
  lemma ColumnTableShape()
    ensures |Columns()| == 5
    ensures Columns()[0].id == InboxColumn && Columns()[1].id == InProgressColumn
         && Columns()[2].id == ReviewColumn && Columns()[3].id == BlockedColumn
         && Columns()[4].id == DoneColumn
    ensures forall i :: 0 <= i < 5 ==>
              Columns()[i].statuses == if Columns()[i].id == InboxColumn then [Inbox, Assigned]
                                       else [StatusForColumn(Columns()[i].id)]
  {
  }

  /** For every column of the table, the status a drop assigns is one it accepts, and
      a task with that status is shown in that very column. */
  lemma DropStatusStaysInColumn(i: int)
    requires 0 <= i < |Columns()|
    ensures StatusForColumn(Columns()[i].id) in Columns()[i].statuses
    ensures ColumnOf(StatusForColumn(Columns()[i].id)) == Some(Columns()[i])
  {
    var c := Columns()[i];
    var s := StatusForColumn(c.id);
    ColumnOfIsHome(s);
    EachStatusInExactlyOneColumn(s);
  }
}
