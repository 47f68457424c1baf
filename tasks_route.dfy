/** The task list and task creation handlers (api/tasks/route.ts) over the in-memory
    store. The list is the store's `order("created_at", desc).limit(100)` query with
    optional equality filters, narrowed to an agent's assigned tasks when the
    assignee session resolves; creation inserts the task and, as the case may be, the
    assignee row, a notification to the assignee and one activity entry. */
module TasksRoute {
  import opened Types
  import opened Store

  /** `.limit(100)`. */
  const ListLimit: nat := 100

  // ------------------------------------------------------------ listing

  /** `.eq("status", status)` and `.eq("priority", priority)` when given. */
  predicate MatchesQuery(t: Task, status: Option<Status>, priority: Option<Priority>) {
    (status.None? || t.status == status.value) && (priority.None? || t.priority == priority.value)
  }

  /** The matching rows, newest first: rows are inserted in creation order, so the
      last inserted row comes first. */
  function NewestMatching(tasks: seq<Task>, status: Option<Status>, priority: Option<Priority>): (r: seq<Task>)
    ensures |r| <= |tasks|
  {
    if tasks == [] then []
    else NewestMatching(tasks[1..], status, priority)
         + (if MatchesQuery(tasks[0], status, priority) then [tasks[0]] else [])
  }

  lemma {:induction false} NewestMatchingMembership(tasks: seq<Task>, status: Option<Status>,
                                                    priority: Option<Priority>, t: Task)
    ensures t in NewestMatching(tasks, status, priority) <==> t in tasks && MatchesQuery(t, status, priority)
  {
    if tasks != [] {
      NewestMatchingMembership(tasks[1..], status, priority, t);
      assert tasks == [tasks[0]] + tasks[1..];
    }
  }

  /** Rows inserted later are listed before rows inserted earlier. */
  lemma {:induction false} NewestMatchingAppend(a: seq<Task>, b: seq<Task>, status: Option<Status>,
                                                priority: Option<Priority>)
    ensures NewestMatching(a + b, status, priority)
            == NewestMatching(b, status, priority) + NewestMatching(a, status, priority)
  {
    if a == [] {
      assert a + b == b;
    } else {
      var tail := if MatchesQuery(a[0], status, priority) then [a[0]] else [];
      assert (a + b)[0] == a[0] && (a + b)[1..] == a[1..] + b;
      NewestMatchingAppend(a[1..], b, status, priority);
      calc {
        NewestMatching(a + b, status, priority);
        NewestMatching(a[1..] + b, status, priority) + tail;
        (NewestMatching(b, status, priority) + NewestMatching(a[1..], status, priority)) + tail;
        NewestMatching(b, status, priority) + (NewestMatching(a[1..], status, priority) + tail);
      }
    }
  }

  /** The rows the list query returns: the newest min(n, 100) of the n matching rows,
      each a matching row of the table; when no more than 100 rows match, all of them. */
  function Listed(tasks: seq<Task>, status: Option<Status>, priority: Option<Priority>): (r: seq<Task>)
    ensures r <= NewestMatching(tasks, status, priority)
    ensures |r| <= ListLimit
    ensures |r| == if |NewestMatching(tasks, status, priority)| <= ListLimit
                   then |NewestMatching(tasks, status, priority)| else ListLimit
    ensures forall t :: t in r ==> t in tasks && MatchesQuery(t, status, priority)
    ensures |NewestMatching(tasks, status, priority)| <= ListLimit ==>
              forall t :: t in tasks && MatchesQuery(t, status, priority) ==> t in r
  {
    var m := NewestMatching(tasks, status, priority);
    assert forall t :: t in m <==> t in tasks && MatchesQuery(t, status, priority) by {
      forall t ensures t in m <==> t in tasks && MatchesQuery(t, status, priority) {
        NewestMatchingMembership(tasks, status, priority, t);
      }
    }
    if |m| <= ListLimit then m else m[..ListLimit]
  }

  /** A newly inserted matching task heads the list. */
  lemma NewTaskListedFirst(tasks: seq<Task>, t: Task, status: Option<Status>, priority: Option<Priority>)
    requires MatchesQuery(t, status, priority)
    ensures |Listed(tasks + [t], status, priority)| > 0
    ensures Listed(tasks + [t], status, priority)[0] == t
  {
    NewestMatchingAppend(tasks, [t], status, priority);
    assert NewestMatching([t], status, priority) == [t] by {
      assert [t][1..] == [];
    }
  }

  /** `tasks.filter(t => assignedTaskIds.has(t.id))`. */
  function AssignedOnly(tasks: seq<Task>, ids: set<Id>): (r: seq<Task>)
    ensures |r| <= |tasks|
  {
    if tasks == [] then []
    else (if tasks[0].id in ids then [tasks[0]] else []) + AssignedOnly(tasks[1..], ids)
  }

  lemma {:induction false} AssignedOnlyMembership(tasks: seq<Task>, ids: set<Id>, t: Task)
    ensures t in AssignedOnly(tasks, ids) <==> t in tasks && t.id in ids
  {
    if tasks != [] {
      AssignedOnlyMembership(tasks[1..], ids, t);
      assert tasks == [tasks[0]] + tasks[1..];
    }
  }

  /** The assignee filter keeps the list order: it distributes over concatenation. */
  lemma {:induction false} AssignedOnlyAppend(a: seq<Task>, b: seq<Task>, ids: set<Id>)
    ensures AssignedOnly(a + b, ids) == AssignedOnly(a, ids) + AssignedOnly(b, ids)
  {
    if a == [] {
      assert a + b == b;
    } else {
      var head := if a[0].id in ids then [a[0]] else [];
      assert (a + b)[0] == a[0] && (a + b)[1..] == a[1..] + b;
      AssignedOnlyAppend(a[1..], b, ids);
      calc {
        AssignedOnly(a + b, ids);
        head + AssignedOnly(a[1..] + b, ids);
        head + (AssignedOnly(a[1..], ids) + AssignedOnly(b, ids));
        (head + AssignedOnly(a[1..], ids)) + AssignedOnly(b, ids);
      }
    }
  }

  /** A task created for an agent, when it matches the filters, heads that agent's list. */
  lemma CreatedTaskHeadsAssigneeList(tasks: seq<Task>, t: Task, assignees: seq<Assignment>, agentId: Id,
                                     status: Option<Status>, priority: Option<Priority>)
    requires MatchesQuery(t, status, priority)
    requires Assignment(t.id, agentId) in assignees
    ensures |AssignedOnly(Listed(tasks + [t], status, priority), AssignedTaskIds(assignees, agentId))| > 0
    ensures AssignedOnly(Listed(tasks + [t], status, priority), AssignedTaskIds(assignees, agentId))[0] == t
  {
    NewTaskListedFirst(tasks, t, status, priority);
    assert t.id in AssignedTaskIds(assignees, agentId);
  }

  /** GET /api/tasks: always 200. With an assignee session that resolves, only the
      listed tasks assigned to that agent, in list order; otherwise (absent, empty or
      unknown session) the list unfiltered. */
  method Get(db: Database, status: Option<Status>, priority: Option<Priority>, assigneeSession: Option<string>)
    returns (code: int, tasks: seq<Task>)
    ensures code == 200
    ensures |tasks| <= ListLimit
    ensures forall t :: t in tasks ==> t in db.tasks && MatchesQuery(t, status, priority)
    ensures ResolveSession(db.agents, assigneeSession).None? ==> tasks == Listed(db.tasks, status, priority)
    ensures ResolveSession(db.agents, assigneeSession).Some? ==>
              tasks == AssignedOnly(Listed(db.tasks, status, priority),
                                    AssignedTaskIds(db.assignees, ResolveSession(db.agents, assigneeSession).value))
              && forall t :: t in tasks ==> t.id in AssignedTaskIds(db.assignees, ResolveSession(db.agents, assigneeSession).value)
  {
    var listed := Listed(db.tasks, status, priority);
    code := 200;
    if Present(assigneeSession) {
      var agent := AgentBySession(db.agents, assigneeSession.value);
      if agent.Some? {
        var assignedTaskIds := AssignedTaskIds(db.assignees, agent.value.id);
        tasks := AssignedOnly(listed, assignedTaskIds);
        forall t | t in tasks ensures t in listed && t.id in assignedTaskIds {
          AssignedOnlyMembership(listed, assignedTaskIds, t);
        }
        return;
      }
    }
    tasks := listed;
  }

  // ------------------------------------------------------------ creation

  /** The body of POST /api/tasks; absent and null fields are None. */
  datatype CreateRequest = CreateRequest(
    title: Option<string>,
    description: Option<string>,
    priority: Option<Priority>,
    assigneeSession: Option<string>,
    createdBySession: Option<string>)

  /** `priority || "medium"`. */
  function PriorityOrDefault(p: Option<Priority>): (r: Priority)
    ensures p.Some? ==> r == p.value
    ensures p.None? ==> r == Medium
  {
    if p.Some? then p.value else Medium
  }

  /** `assignee_session ? "assigned" : "inbox"`: decided by the session's presence alone,
      whether or not it names a known agent. */
  function InitialStatus(assigneeSession: Option<string>): (r: Status)
    ensures r == Assigned <==> Present(assigneeSession)
    ensures r == Inbox <==> !Present(assigneeSession)
  {
    if Present(assigneeSession) then Assigned else Inbox
  }

  /** The agent an assignee session names, when it is present and known. */
  function Assignee(agents: seq<Agent>, assigneeSession: Option<string>): (r: Option<Agent>)
    ensures r.Some? ==> Present(assigneeSession) && r.value in agents && r.value.sessionKey == assigneeSession.value
    ensures r.None? <==> !Present(assigneeSession) || AgentBySession(agents, assigneeSession.value).None?
  {
    if Present(assigneeSession) then AgentBySession(agents, assigneeSession.value) else None
  }

  /** POST /api/tasks: 400 without a title, and nothing written. Otherwise 201 and the
      new task (fresh id, description or null, priority or medium, assigned or inbox,
      creator resolved from its session, no due date); one assignee row and one
      notification when the assignee session resolves, none otherwise; and always one
      `task_created` activity carrying the task's id. Agents are untouched. */
  method Post(db: Database, req: CreateRequest, now: int) returns (code: int, task: Option<Task>)
    requires db.Valid()
    modifies db`tasks, db`assignees, db`notifications, db`activity, db`nextId
    ensures db.Valid()
    ensures !Present(req.title) ==> code == 400 && task.None?
    ensures !Present(req.title) ==>
              && db.tasks == old(db.tasks) && db.assignees == old(db.assignees)
              && db.notifications == old(db.notifications) && db.activity == old(db.activity)
    ensures Present(req.title) ==> code == 201 && task.Some?
    ensures task.Some? ==>
              var t := task.value;
              var creator := ResolveSession(old(db.agents), req.createdBySession);
              && t == Task(t.id, req.title.value, OrNull(req.description), InitialStatus(req.assigneeSession),
                           PriorityOrDefault(req.priority), creator, now, now, None)
              && (forall i :: 0 <= i < |old(db.tasks)| ==> old(db.tasks)[i].id != t.id)
              && db.tasks == old(db.tasks) + [t]
              && AddsActivity(old(db.activity), db.activity, creator, "task_created",
                              "Nueva tarea: \"" + req.title.value + "\"", Some(t.id), now)
    ensures task.Some? ==>
              var t := task.value;
              var assignee := Assignee(old(db.agents), req.assigneeSession);
              && (assignee.Some? ==>
                    && db.assignees == old(db.assignees) + [Assignment(t.id, assignee.value.id)]
                    && AddsNotification(old(db.notifications), db.notifications, assignee.value.id,
                                        ResolveSession(old(db.agents), req.createdBySession), Some(t.id),
                                        "Nueva tarea asignada: \"" + req.title.value + "\"", now))
              && (assignee.None? ==> db.assignees == old(db.assignees) && db.notifications == old(db.notifications))
  {
    if !Present(req.title) {
      return 400, None;
    }
    var title := req.title.value;
    var creatorId := ResolveSession(db.agents, req.createdBySession);
    var t := db.InsertTask(title, OrNull(req.description), PriorityOrDefault(req.priority),
                           InitialStatus(req.assigneeSession), creatorId, now);
    if Present(req.assigneeSession) {
      var assignee := AgentBySession(db.agents, req.assigneeSession.value);
      if assignee.Some? {
        db.InsertAssignment(t.id, assignee.value.id);
        var _ := db.InsertNotification(assignee.value.id, creatorId, Some(t.id),
                                       "Nueva tarea asignada: \"" + title + "\"", now);
      }
    }
    db.LogActivity(creatorId, "task_created", "Nueva tarea: \"" + title + "\"", Some(t.id), now);
    return 201, Some(t);
  }
}
