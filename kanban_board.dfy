/** The decision procedures of the task board (KanbanBoard.tsx): the search and
    priority filter, the grouping of the visible tasks into columns, the status
    update decided at the end of a drag, and the summary counters. */
module KanbanBoard {
  import opened Types
  import opened KanbanColumn

  // ---------------------------------------------------------------- filtering

  /** filterPriority: "all" or one priority. */
  datatype PriorityFilter = AllPriorities | OnlyPriority(priority: Priority)

  /** The search test: empty query, or the lower-cased query occurs in the lower-cased
      title, or the description is non-null and its lower-cased form contains it. */
  predicate MatchesSearch(t: Task, query: string) {
    || query == ""
    || Contains(Lower(t.title), Lower(query))
    || (t.description.Some? && Contains(Lower(t.description.value), Lower(query)))
  }

  predicate MatchesPriority(t: Task, filter: PriorityFilter) {
    filter.AllPriorities? || t.priority == filter.priority
  }

  predicate Visible(t: Task, query: string, filter: PriorityFilter) {
    MatchesSearch(t, query) && MatchesPriority(t, filter)
  }

  /** `tasks.filter(keep)`. */
  function Keep(tasks: seq<Task>, keep: Task -> bool): (r: seq<Task>)
    ensures |r| <= |tasks|
  {
    if tasks == [] then []
    else (if keep(tasks[0]) then [tasks[0]] else []) + Keep(tasks[1..], keep)
  }

  lemma {:induction false} KeepMembership(tasks: seq<Task>, keep: Task -> bool, t: Task)
    ensures t in Keep(tasks, keep) <==> t in tasks && keep(t)
  {
    if tasks != [] {
      KeepMembership(tasks[1..], keep, t);
      assert tasks == [tasks[0]] + tasks[1..];
    }
  }

  /** Filtering keeps relative order: it distributes over concatenation. */
  lemma {:induction false} KeepAppend(a: seq<Task>, b: seq<Task>, keep: Task -> bool)
    ensures Keep(a + b, keep) == Keep(a, keep) + Keep(b, keep)
  {
    if a == [] {
      assert a + b == b;
    } else {
      var head := if keep(a[0]) then [a[0]] else [];
      assert (a + b)[0] == a[0] && (a + b)[1..] == a[1..] + b;
      KeepAppend(a[1..], b, keep);
      calc {
        Keep(a + b, keep);
        head + Keep(a[1..] + b, keep);
        head + (Keep(a[1..], keep) + Keep(b, keep));
        (head + Keep(a[1..], keep)) + Keep(b, keep);
      }
    }
  }

  /** When every task passes, the filter returns the list unchanged. */
  lemma {:induction false} KeepAll(tasks: seq<Task>, keep: Task -> bool)
    requires forall i :: 0 <= i < |tasks| ==> keep(tasks[i])
    ensures Keep(tasks, keep) == tasks
  {
    if tasks != [] {
      KeepAll(tasks[1..], keep);
    }
  }

  /** filteredTasks: exactly the visible tasks of the input. */
  function FilterTasks(tasks: seq<Task>, query: string, filter: PriorityFilter): (r: seq<Task>)
    ensures |r| <= |tasks|
    ensures forall t :: t in r <==> t in tasks && Visible(t, query, filter)
  {
    var r := Keep(tasks, t => Visible(t, query, filter));
    assert forall t :: t in r <==> t in tasks && Visible(t, query, filter) by {
      forall t ensures t in r <==> t in tasks && Visible(t, query, filter) {
        KeepMembership(tasks, t => Visible(t, query, filter), t);
      }
    }
    r
  }

  /** The filter preserves the input order: filtering a list cut in two is filtering
      each part. */
  lemma FilterKeepsOrder(tasks: seq<Task>, query: string, filter: PriorityFilter)
    ensures forall a, b :: a + b == tasks ==>
              FilterTasks(tasks, query, filter) == FilterTasks(a, query, filter) + FilterTasks(b, query, filter)
  {
    forall a, b | a + b == tasks
      ensures FilterTasks(tasks, query, filter) == FilterTasks(a, query, filter) + FilterTasks(b, query, filter)
    {
      KeepAppend(a, b, t => Visible(t, query, filter));
    }
  }

  /** With an empty query and filter "all" the filtered list is the input list. */
  lemma EmptyQueryAllPrioritiesIsIdentity(tasks: seq<Task>)
    ensures FilterTasks(tasks, "", AllPriorities) == tasks
  {
    KeepAll(tasks, t => Visible(t, "", AllPriorities));
  }

  // ---------------------------------------------------------------- grouping

  /** The card list of column c: the tasks whose status belongs in c, in their
      original order. */
  function Bucket(tasks: seq<Task>, c: ColumnId): (r: seq<Task>)
    ensures |r| <= |tasks|
  {
    if tasks == [] then []
    else (if HomeColumn(tasks[0].status) == c then [tasks[0]] else []) + Bucket(tasks[1..], c)
  }

  /** Grouping keeps relative order: it distributes over concatenation. */
  lemma {:induction false} BucketAppend(a: seq<Task>, b: seq<Task>, c: ColumnId)
    ensures Bucket(a + b, c) == Bucket(a, c) + Bucket(b, c)
  {
    if a == [] {
      assert a + b == b;
    } else {
      var head := if HomeColumn(a[0].status) == c then [a[0]] else [];
      assert (a + b)[0] == a[0] && (a + b)[1..] == a[1..] + b;
      BucketAppend(a[1..], b, c);
      calc {
        Bucket(a + b, c);
        head + Bucket(a[1..] + b, c);
        head + (Bucket(a[1..], c) + Bucket(b, c));
        (head + Bucket(a[1..], c)) + Bucket(b, c);
      }
    }
  }

  /** Appending a task extends its home column's bucket and no other. */
  lemma BucketSnoc(tasks: seq<Task>, t: Task)
    ensures forall c :: Bucket(tasks + [t], c) == Bucket(tasks, c) + (if HomeColumn(t.status) == c then [t] else [])
  {
    forall c ensures Bucket(tasks + [t], c) == Bucket(tasks, c) + (if HomeColumn(t.status) == c then [t] else []) {
      BucketAppend(tasks, [t], c);
      assert [t][1..] == [];
    }
  }

  /** Each task lies in exactly one bucket: the one of its home column. */
  lemma {:induction false} BucketPlacement(tasks: seq<Task>, t: Task, c: ColumnId)
    ensures t in Bucket(tasks, c) <==> t in tasks && HomeColumn(t.status) == c
  {
    if tasks != [] {
      BucketPlacement(tasks[1..], t, c);
      assert tasks == [tasks[0]] + tasks[1..];
    }
  }

  /** The `assigned` bucket stays empty; assigned tasks are shown in the inbox. */
  lemma {:induction false} AssignedBucketEmpty(tasks: seq<Task>)
    ensures Bucket(tasks, AssignedColumn) == []
    ensures forall t :: t in tasks && t.status == Assigned ==> t in Bucket(tasks, InboxColumn)
  {
    if tasks != [] {
      AssignedBucketEmpty(tasks[1..]);
    }
    forall t | t in tasks && t.status == Assigned
      ensures t in Bucket(tasks, InboxColumn)
    {
      BucketPlacement(tasks, t, InboxColumn);
    }
  }

  function TotalBucketSize(tasks: seq<Task>): nat {
    |Bucket(tasks, InboxColumn)| + |Bucket(tasks, AssignedColumn)| + |Bucket(tasks, InProgressColumn)|
    + |Bucket(tasks, ReviewColumn)| + |Bucket(tasks, BlockedColumn)| + |Bucket(tasks, DoneColumn)|
  }

  /** The buckets partition the filtered tasks: their sizes sum to the filtered count. */
  lemma {:induction false} BucketSizesSum(tasks: seq<Task>)
    ensures TotalBucketSize(tasks) == |tasks|
  {
    if tasks != [] {
      BucketSizesSum(tasks[1..]);
    }
  }

  /** Every column id, the keys of the `grouped` record. */
  predicate HasAllColumns(grouped: map<ColumnId, seq<Task>>) {
    forall c: ColumnId :: c in grouped
  }

  /** One push onto the home column's list keeps every list equal to its bucket. */
  lemma PushStep(grouped: map<ColumnId, seq<Task>>, tasks: seq<Task>, task: Task)
    requires HasAllColumns(grouped)
    requires forall c: ColumnId :: grouped[c] == Bucket(tasks, c)
    ensures var home := HomeColumn(task.status);
            var pushed := grouped[home := grouped[home] + [task]];
            HasAllColumns(pushed) && forall c: ColumnId :: pushed[c] == Bucket(tasks + [task], c)
  {
    BucketSnoc(tasks, task);
  }

  /** tasksByColumn: start from six empty lists and push each filtered task onto the
      list of the first column that accepts its status. */
  method GroupByColumn(filtered: seq<Task>) returns (grouped: map<ColumnId, seq<Task>>)
    ensures HasAllColumns(grouped)
    ensures forall c: ColumnId :: grouped[c] == Bucket(filtered, c)
  {
    grouped := map[InboxColumn := [], AssignedColumn := [], InProgressColumn := [],
                   ReviewColumn := [], BlockedColumn := [], DoneColumn := []];
    forall c: ColumnId ensures c in grouped && grouped[c] == [] {
      match c
      case InboxColumn =>
      case AssignedColumn =>
      case InProgressColumn =>
      case ReviewColumn =>
      case BlockedColumn =>
      case DoneColumn =>
    }
    var i := 0;
    while i < |filtered|
      invariant 0 <= i <= |filtered|
      invariant HasAllColumns(grouped)
      invariant forall c: ColumnId :: grouped[c] == Bucket(filtered[..i], c)
    {
      var task := filtered[i];
      var column := ColumnOf(task.status);
      ColumnOfIsHome(task.status);
      PushStep(grouped, filtered[..i], task);
      if column.Some? {
        grouped := grouped[column.value.id := grouped[column.value.id] + [task]];
      }
      assert filtered[..i + 1] == filtered[..i] + [task];
      i := i + 1;
    }
    assert filtered[..i] == filtered;
  }

  // ---------------------------------------------------------------- drag and drop

  /** The drop target: its id, and the column id its data carries when it is a column. */
  datatype Over = Over(id: Id, columnId: Option<ColumnId>)

  /** The one call `onTaskUpdate(taskId, {status})`. */
  datatype StatusUpdate = StatusUpdate(taskId: Id, status: Status)

  /** `tasks.find(t => t.id === id)`. */
  function FirstWithId(tasks: seq<Task>, id: Id): (r: Option<Task>)
    ensures r.None? <==> forall i :: 0 <= i < |tasks| ==> tasks[i].id != id
    ensures r.Some? ==> exists i :: 0 <= i < |tasks| && tasks[i] == r.value && r.value.id == id
                                    && forall j :: 0 <= j < i ==> tasks[j].id != id
  {
    if tasks == [] then None
    else if tasks[0].id == id then Some(tasks[0])
    else
      var r := FirstWithId(tasks[1..], id);
      assert r.Some? ==> exists i :: 1 <= i < |tasks| && tasks[i] == r.value && r.value.id == id
                                     && forall j :: 0 <= j < i ==> tasks[j].id != id by {
        if r.Some? {
          var k :| 0 <= k < |tasks[1..]| && tasks[1..][k] == r.value && r.value.id == id
                   && forall j :: 0 <= j < k ==> tasks[1..][j].id != id;
          assert tasks[k + 1] == tasks[1..][k];
          forall j | 0 <= j < k + 1 ensures tasks[j].id != id {
            if j > 0 { assert tasks[j] == tasks[1..][j - 1]; }
          }
        }
      }
      r
  }

  /** The target column: the drop target's column id if it carries one; otherwise,
      when some task of the unfiltered list has the drop target's id, the column of
      the first such task, and nothing when none has. */
  function TargetColumn(tasks: seq<Task>, over: Over): (r: Option<ColumnId>)
    ensures over.columnId.Some? ==> r == over.columnId
    ensures over.columnId.None? ==> (r.Some? <==> exists i :: 0 <= i < |tasks| && tasks[i].id == over.id)
    ensures over.columnId.None? && r.Some? ==> r.value == HomeColumn(FirstWithId(tasks, over.id).value.status)
  {
    if over.columnId.Some? then over.columnId
    else match FirstWithId(tasks, over.id)
      case None => None
      case Some(overTask) =>
        ColumnOfIsHome(overTask.status);
        match ColumnOf(overTask.status)
        case None => None
        case Some(col) => Some(col.id)
  }

  /** handleDragEnd: no drop target, no dragged task or no resolvable column means no
      update; otherwise exactly one update to the column's status, issued only when it
      differs from the task's current status. */
  method DragEnd(tasks: seq<Task>, over: Option<Over>, active: Option<Task>)
    returns (update: Option<StatusUpdate>)
    ensures over.None? || active.None? ==> update.None?
    ensures over.Some? && active.Some? ==>
              (update.Some? <==> TargetColumn(tasks, over.value).Some?
                                 && StatusForColumn(TargetColumn(tasks, over.value).value) != active.value.status)
    ensures update.Some? ==>
              update.value == StatusUpdate(active.value.id, StatusForColumn(TargetColumn(tasks, over.value).value))
  {
    if over.None? {
      return None;
    }
    if active.None? {
      return None;
    }
    var task := active.value;
    var targetColumnId: Option<ColumnId> := None;
    if over.value.columnId.Some? {
      targetColumnId := over.value.columnId;
    } else {
      var overTask := FirstWithId(tasks, over.value.id);
      if overTask.Some? {
        var column := ColumnOf(overTask.value.status);
        if column.Some? {
          targetColumnId := Some(column.value.id);
        }
      }
    }
    if targetColumnId.None? {
      return None;
    }
    var newStatus := StatusForColumn(targetColumnId.value);
    if task.status != newStatus {
      update := Some(StatusUpdate(task.id, newStatus));
    } else {
      update := None;
    }
  }

  /** A review task dropped on the done column issues one update to done; dropped back
      on the review column it issues none. */
  method DragReviewExamples(t: Task)
    requires t.status == Review
  {
    var u := DragEnd([t], Some(Over(t.id + 1, Some(DoneColumn))), Some(t));
    assert u == Some(StatusUpdate(t.id, Done));
    u := DragEnd([t], Some(Over(t.id + 1, Some(ReviewColumn))), Some(t));
    assert u == None;
    u := DragEnd([t], Some(Over(t.id, None)), Some(t));
    assert u == None;
  }

  // ---------------------------------------------------------------- stats

  datatype Stats = Stats(total: nat, done: nat, blocked: nat, urgent: nat, overdue: nat)

  /** `tasks.filter(p).length`. */
  function CountWhere(tasks: seq<Task>, p: Task -> bool): (n: nat)
    ensures n <= |tasks|
    ensures n == 0 <==> forall i :: 0 <= i < |tasks| ==> !p(tasks[i])
    ensures n == |tasks| <==> forall i :: 0 <= i < |tasks| ==> p(tasks[i])
  {
    if tasks == [] then 0
    else
      var rest := CountWhere(tasks[1..], p);
      assert forall i :: 1 <= i < |tasks| ==> tasks[i] == tasks[1..][i - 1];
      (if p(tasks[0]) then 1 else 0) + rest
  }

  /** The count is the length of the filtered list: `filter(p).length`. */
  lemma {:induction false} CountIsFilterLength(tasks: seq<Task>, p: Task -> bool)
    ensures CountWhere(tasks, p) == |Keep(tasks, p)|
  {
    if tasks != [] {
      CountIsFilterLength(tasks[1..], p);
    }
  }

  /** Two tests no task passes together count at most the whole list. */
  lemma {:induction false} CountDisjoint(tasks: seq<Task>, p: Task -> bool, q: Task -> bool)
    requires forall i :: 0 <= i < |tasks| ==> !(p(tasks[i]) && q(tasks[i]))
    ensures CountWhere(tasks, p) + CountWhere(tasks, q) <= |tasks|
  {
    if tasks != [] {
      assert forall i :: 1 <= i < |tasks| ==> tasks[i] == tasks[1..][i - 1];
      CountDisjoint(tasks[1..], p, q);
    }
  }

  /** A task is overdue when it has a due date strictly before now and is not done. */
  predicate IsOverdue(t: Task, now: int) {
    t.dueDate.Some? && t.dueDate.value < now && t.status != Done
  }

  /** stats: total, done, blocked, urgent and overdue counts of the unfiltered list. */
  function BoardStats(tasks: seq<Task>, now: int): (s: Stats)
    ensures s.total == |tasks|
    ensures s.done <= s.total && s.blocked <= s.total && s.urgent <= s.total
    ensures s.done + s.blocked <= s.total
    ensures s.done + s.overdue <= s.total
    ensures s.overdue == 0 <==> forall i :: 0 <= i < |tasks| ==> !IsOverdue(tasks[i], now)
  {
    var isDone := (t: Task) => t.status == Done;
    var isBlocked := (t: Task) => t.status == Blocked;
    var isOverdue := (t: Task) => IsOverdue(t, now);
    CountDisjoint(tasks, isDone, isBlocked);
    CountDisjoint(tasks, isDone, isOverdue);
    Stats(|tasks|, CountWhere(tasks, isDone), CountWhere(tasks, isBlocked),
          CountWhere(tasks, (t: Task) => t.priority == Urgent), CountWhere(tasks, isOverdue))
  }
}
