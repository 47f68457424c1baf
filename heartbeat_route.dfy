/** The heartbeat handler (api/agents/heartbeat/route.ts) over the in-memory store:
    an agent checks in by session key, its row is refreshed, one activity entry is
    logged, its pending notifications are handed over and marked delivered, and its
    open assigned tasks are returned. */
module HeartbeatRoute {
  import opened Types
  import opened Store

  /** The statuses a task handed to an agent may have: every one but review and done. */
  predicate IsOpen(s: Status) {
    s == Inbox || s == Assigned || s == InProgress || s == Blocked
  }

  /** `.in("id", taskIds).in("status", [...open statuses])`, in table order. */
  function OpenAssigned(tasks: seq<Task>, ids: set<Id>): (r: seq<Task>)
    ensures |r| <= |tasks|
  {
    if tasks == [] then []
    else (if tasks[0].id in ids && IsOpen(tasks[0].status) then [tasks[0]] else [])
         + OpenAssigned(tasks[1..], ids)
  }

  lemma {:induction false} OpenAssignedMembership(tasks: seq<Task>, ids: set<Id>, t: Task)
    ensures t in OpenAssigned(tasks, ids) <==> t in tasks && t.id in ids && IsOpen(t.status)
  {
    if tasks != [] {
      OpenAssignedMembership(tasks[1..], ids, t);
      assert tasks == [tasks[0]] + tasks[1..];
    }
  }

  /** The row after the update: heartbeat and update time set to now, the status
      replaced only when one was sent, the current task replaced whenever the key was
      sent (a sent null clears it); every other column kept. */
  function Beat(a: Agent, status: Option<AgentStatus>, currentTaskId: Option<Option<Id>>, now: int): (r: Agent)
    ensures r.lastHeartbeat == Some(now) && r.updatedAt == now
    ensures status.Some? ==> r.status == status.value
    ensures status.None? ==> r.status == a.status
    ensures currentTaskId.Some? ==> r.currentTaskId == currentTaskId.value
    ensures currentTaskId.None? ==> r.currentTaskId == a.currentTaskId
    ensures r.id == a.id && r.name == a.name && r.role == a.role && r.sessionKey == a.sessionKey
    ensures r.createdAt == a.createdAt
  {
    var b := a.(lastHeartbeat := Some(now), updatedAt := now);
    var b := if status.Some? then b.(status := status.value) else b;
    if currentTaskId.Some? then b.(currentTaskId := currentTaskId.value) else b
  }

  /** The activity message: `<name> checked in (<status>)`. */
  function CheckInMessage(name: string, status: AgentStatus): string {
    name + " checked in (" + AgentStatusName(status) + ")"
  }

  /** The 200 answer: the updated row, the notifications handed over, the open tasks. */
  datatype Reply = Reply(agent: Agent, notifications: seq<Notification>, tasks: seq<Task>)

  /** POST /api/agents/heartbeat: 400 without a session key, 404 when no agent holds
      it, and in both cases nothing is written. Otherwise 200: the agent's row (and no
      other) is refreshed, one `heartbeat` activity is logged for it, its undelivered
      notifications are returned oldest first and then marked delivered so that none
      stays pending, and its assigned tasks with an open status are returned. */
  method Post(db: Database, sessionKey: Option<string>, status: Option<AgentStatus>,
              currentTaskId: Option<Option<Id>>, now: int)
    returns (code: int, reply: Option<Reply>)
    requires db.Valid()
    modifies db`agents, db`activity, db`notifications, db`nextId
    ensures db.Valid()
    ensures !Present(sessionKey) ==> code == 400
    ensures Present(sessionKey) && AgentBySession(old(db.agents), sessionKey.value).None? ==> code == 404
    ensures Present(sessionKey) && AgentBySession(old(db.agents), sessionKey.value).Some? ==> code == 200
    ensures code != 200 ==>
              && reply.None?
              && db.agents == old(db.agents) && db.notifications == old(db.notifications)
              && db.activity == old(db.activity)
    ensures code == 200 ==>
              var idx := SessionIndex(old(db.agents), sessionKey.value);
              var agent := Beat(old(db.agents)[idx], status, currentTaskId, now);
              && 0 <= idx
              && old(db.agents)[idx] == AgentBySession(old(db.agents), sessionKey.value).value
              && reply.Some? && reply.value.agent == agent
              && db.agents == old(db.agents)[idx := agent]
              && AddsActivity(old(db.activity), db.activity, Some(agent.id), "heartbeat",
                              CheckInMessage(agent.name, agent.status), None, now)
              && reply.value.notifications == Undelivered(old(db.notifications), agent.id)
              && db.notifications == MarkAll(old(db.notifications), IdsOf(reply.value.notifications))
              && Undelivered(db.notifications, agent.id) == []
              && reply.value.tasks == OpenAssigned(db.tasks, AssignedTaskIds(db.assignees, agent.id))
  {
    if !Present(sessionKey) {
      return 400, None;
    }
    var idx := SessionIndex(db.agents, sessionKey.value);
    SessionIndexFinds(db.agents, sessionKey.value);
    if idx == -1 {
      return 404, None;
    }
    var agent := Beat(db.agents[idx], status, currentTaskId, now);
    db.ReplaceAgent(idx, agent);

    var shown := if status.Some? then status.value else agent.status;
    db.LogActivity(Some(agent.id), "heartbeat", CheckInMessage(agent.name, shown), None, now);

    var notifications := db.TakePending(agent.id, true);

    var taskAssignments := AssignmentsOf(db.assignees, agent.id);
    var tasks: seq<Task> := [];
    AssignedTaskIdsOfRows(db.assignees, agent.id);
    if |taskAssignments| > 0 {
      var taskIds := set a | a in taskAssignments :: a.taskId;
      tasks := OpenAssigned(db.tasks, taskIds);
    } else {
      NoIdsNoTasks(db.tasks, AssignedTaskIds(db.assignees, agent.id));
    }
    return 200, Some(Reply(agent, notifications, tasks));
  }

  /** With no ids nothing is selected. */
  lemma {:induction false} NoIdsNoTasks(tasks: seq<Task>, ids: set<Id>)
    requires ids == {}
    ensures OpenAssigned(tasks, ids) == []
  {
    if tasks != [] {
      NoIdsNoTasks(tasks[1..], ids);
    }
  }

  /** The handed-over tasks are exactly the agent's assigned tasks that are still
      open: review and done tasks are never handed over. */
  lemma HandedOverTasks(tasks: seq<Task>, assignees: seq<Assignment>, agentId: Id, t: Task)
    ensures t in OpenAssigned(tasks, AssignedTaskIds(assignees, agentId)) <==>
              t in tasks && IsOpen(t.status) && Assignment(t.id, agentId) in assignees
  {
    OpenAssignedMembership(tasks, AssignedTaskIds(assignees, agentId), t);
    if Assignment(t.id, agentId) in assignees {
      assert t.id in AssignedTaskIds(assignees, agentId);
    }
  }
}
