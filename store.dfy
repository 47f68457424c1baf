/** An in-memory model of the hosted database the API routes talk to: the agents,
    tasks, task-assignee, notification and activity tables, held in insertion order
    (oldest row first), with the queries and the in-place update the routes issue. */
module Store {
  import opened Types

  /** A row of mc_task_assignees. */
  datatype Assignment = Assignment(taskId: Id, agentId: Id)

  /** A row of mc_notifications. */
  datatype Notification = Notification(
    id: Id,
    mentionedAgentId: Id,
    fromAgentId: Option<Id>,
    taskId: Option<Id>,
    content: string,
    delivered: bool,
    createdAt: int)

  /** A row of mc_activity. */
  datatype Activity = Activity(
    id: Id,
    agentId: Option<Id>,
    activityType: string,
    message: string,
    taskId: Option<Id>,
    createdAt: int)

  // ------------------------------------------------------------ queries

  predicate UniqueSessionKeys(agents: seq<Agent>) {
    forall i, j :: 0 <= i < j < |agents| ==> agents[i].sessionKey != agents[j].sessionKey
  }

  /** `from("mc_agents").select().eq("session_key", key).single()`: the agent holding the
      key (unique by the table's constraint), or nothing. */
  function AgentBySession(agents: seq<Agent>, key: string): (r: Option<Agent>)
    ensures r.None? <==> forall i :: 0 <= i < |agents| ==> agents[i].sessionKey != key
    ensures r.Some? ==> exists i :: 0 <= i < |agents| && agents[i] == r.value && r.value.sessionKey == key
  {
    if agents == [] then None
    else if agents[0].sessionKey == key then Some(agents[0])
    else
      var r := AgentBySession(agents[1..], key);
      assert r.Some? ==> agents[1..] <= agents[1..] && r.value in agents[1..];
      r
  }

  /** With unique keys the lookup returns the one row that holds the key. */
  lemma AgentBySessionUnique(agents: seq<Agent>, key: string, i: int)
    requires UniqueSessionKeys(agents)
    requires 0 <= i < |agents| && agents[i].sessionKey == key
    ensures AgentBySession(agents, key) == Some(agents[i])
  {
  }

  /** An optional session parameter resolved to an agent id: absent, empty or
      unknown sessions give no id. */
  function ResolveSession(agents: seq<Agent>, session: Option<string>): (r: Option<Id>)
    ensures r.Some? <==> Present(session) && AgentBySession(agents, session.value).Some?
  {
    if Present(session) then
      match AgentBySession(agents, session.value)
      case Some(a) => Some(a.id)
      case None => None
    else None
  }

  /** The position of the row holding the key, or -1: the row an
      `.eq("session_key", key)` update or upsert conflict touches. */
  function SessionIndex(agents: seq<Agent>, key: string): (r: int)
    ensures -1 <= r < |agents|
    ensures r == -1 <==> forall i :: 0 <= i < |agents| ==> agents[i].sessionKey != key
    ensures r >= 0 ==> agents[r].sessionKey == key && forall j :: 0 <= j < r ==> agents[j].sessionKey != key
  {
    if agents == [] then -1
    else if agents[0].sessionKey == key then 0
    else
      var r := SessionIndex(agents[1..], key);
      assert forall i :: 1 <= i < |agents| ==> agents[i] == agents[1..][i - 1];
      if r == -1 then -1 else r + 1
  }

  /** With unique keys the position and the lookup agree. */
  lemma SessionIndexFinds(agents: seq<Agent>, key: string)
    requires UniqueSessionKeys(agents)
    ensures SessionIndex(agents, key) >= 0 ==> AgentBySession(agents, key) == Some(agents[SessionIndex(agents, key)])
    ensures SessionIndex(agents, key) == -1 <==> AgentBySession(agents, key).None?
  {
    var r := SessionIndex(agents, key);
    if r >= 0 {
      AgentBySessionUnique(agents, key, r);
    }
  }

  /** The agent's undelivered notifications, oldest first. */
  function Undelivered(ns: seq<Notification>, agentId: Id): (r: seq<Notification>)
    ensures |r| <= |ns|
  {
    if ns == [] then []
    else (if ns[0].mentionedAgentId == agentId && !ns[0].delivered then [ns[0]] else [])
         + Undelivered(ns[1..], agentId)
  }

  /** A row is pending for the agent iff it is the agent's and not delivered. */
  lemma {:induction false} UndeliveredMembership(ns: seq<Notification>, agentId: Id)
    ensures forall n :: n in Undelivered(ns, agentId) <==> n in ns && n.mentionedAgentId == agentId && !n.delivered
  {
    if ns != [] {
      UndeliveredMembership(ns[1..], agentId);
      assert ns == [ns[0]] + ns[1..];
    }
  }

  function IdsOf(ns: seq<Notification>): set<Id> {
    set n | n in ns :: n.id
  }

  /** `update({ delivered: true }).in("id", ids)` on one row. */
  function MarkRow(n: Notification, ids: set<Id>): Notification {
    if n.id in ids then n.(delivered := true) else n
  }

  function MarkAll(ns: seq<Notification>, ids: set<Id>): (r: seq<Notification>)
    ensures |r| == |ns|
    ensures forall k :: 0 <= k < |ns| ==> r[k] == MarkRow(ns[k], ids)
  {
    seq(|ns|, k requires 0 <= k < |ns| => MarkRow(ns[k], ids))
  }

  /** The ids of the agent's assigned tasks: a task id is in it iff some assignee row
      pairs that task with the agent. */
  function AssignedTaskIds(assignees: seq<Assignment>, agentId: Id): (r: set<Id>)
    ensures forall id :: id in r <==> Assignment(id, agentId) in assignees
  {
    set a | a in assignees && a.agentId == agentId :: a.taskId
  }

  function AssignmentsOf(assignees: seq<Assignment>, agentId: Id): (r: seq<Assignment>)
    ensures forall a :: a in r <==> a in assignees && a.agentId == agentId
  {
    if assignees == [] then []
    else
      var rest := AssignmentsOf(assignees[1..], agentId);
      assert forall a :: a in assignees <==> a == assignees[0] || a in assignees[1..];
      (if assignees[0].agentId == agentId then [assignees[0]] else []) + rest
  }

  /** The id set is the set of task ids of the agent's assignment rows. */
  lemma AssignedTaskIdsOfRows(assignees: seq<Assignment>, agentId: Id)
    ensures AssignedTaskIds(assignees, agentId) == set a | a in AssignmentsOf(assignees, agentId) :: a.taskId
  {
  }

  // ------------------------------------------------------------ facts about delivery

  predicate DistinctIds(ns: seq<Notification>) {
    forall i, j :: 0 <= i < j < |ns| ==> ns[i].id != ns[j].id
  }

  /** Marking the returned notifications leaves the agent nothing undelivered. */
  lemma MarkingEmptiesPending(ns: seq<Notification>, agentId: Id, ids: set<Id>)
    requires IdsOf(Undelivered(ns, agentId)) <= ids
    ensures Undelivered(MarkAll(ns, ids), agentId) == []
  {
    var marked := MarkAll(ns, ids);
    UndeliveredMembership(ns, agentId);
    UndeliveredMembership(marked, agentId);
    forall k | 0 <= k < |marked|
      ensures marked[k].delivered || marked[k].mentionedAgentId != agentId
    {
      if ns[k].mentionedAgentId == agentId && !ns[k].delivered {
        assert ns[k] in Undelivered(ns, agentId);
        assert ns[k].id in IdsOf(Undelivered(ns, agentId));
      }
    }
    var rest := Undelivered(marked, agentId);
    assert forall n :: n !in rest;
    HeadIsMember(rest);
  }

  lemma HeadIsMember<T>(s: seq<T>)
    ensures s != [] ==> s[0] in s
  {
  }

  /** Marking the agent's pending notifications delivers each of them, clears no flag,
      and leaves every other row as it was. */
  lemma MarkingTouchesOnlyPending(ns: seq<Notification>, agentId: Id, k: int)
    requires DistinctIds(ns)
    requires 0 <= k < |ns|
    ensures ns[k] in Undelivered(ns, agentId) ==> MarkAll(ns, IdsOf(Undelivered(ns, agentId)))[k].delivered
    ensures ns[k].delivered ==> MarkAll(ns, IdsOf(Undelivered(ns, agentId)))[k].delivered
    ensures ns[k] !in Undelivered(ns, agentId) ==> MarkAll(ns, IdsOf(Undelivered(ns, agentId)))[k] == ns[k]
  {
    var pending := Undelivered(ns, agentId);
    UndeliveredMembership(ns, agentId);
    var ids := IdsOf(pending);
    var n := ns[k];
    if n in pending {
      assert n.id in ids;
    } else if !n.delivered {
      assert n.mentionedAgentId != agentId;
      if n.id in ids {
        var p :| p in pending && p.id == n.id;
        assert p in ns && p.mentionedAgentId == agentId;
        var j :| 0 <= j < |ns| && ns[j] == p;
        assert false;
      }
    }
  }

  /** `after` is `before` with one notification appended: unseen id, given fields,
      not yet delivered. */
  predicate AddsNotification(before: seq<Notification>, after: seq<Notification>, mentioned: Id,
                             from: Option<Id>, taskId: Option<Id>, content: string, now: int)
  {
    && |after| == |before| + 1
    && after[..|before|] == before
    && after[|before|] == Notification(after[|before|].id, mentioned, from, taskId, content, false, now)
    && forall i :: 0 <= i < |before| ==> before[i].id != after[|before|].id
  }

  /** `after` is `before` with one activity entry appended under an unseen id. */
  predicate AddsActivity(before: seq<Activity>, after: seq<Activity>, agentId: Option<Id>,
                         activityType: string, message: string, taskId: Option<Id>, now: int)
  {
    && |after| == |before| + 1
    && after[..|before|] == before
    && after[|before|] == Activity(after[|before|].id, agentId, activityType, message, taskId, now)
    && forall i :: 0 <= i < |before| ==> before[i].id != after[|before|].id
  }

  // ------------------------------------------------------------ the database

  /** The five tables and the source of fresh row ids. */
  class Database {
    var agents: seq<Agent>
    var tasks: seq<Task>
    var assignees: seq<Assignment>
    var notifications: seq<Notification>
    var activity: seq<Activity>
    var nextId: nat

    /** session_key is unique; every row id was issued below nextId; notification
        ids are distinct. */
    ghost predicate Valid()
      reads this
    {
      && UniqueSessionKeys(agents)
      && (forall i :: 0 <= i < |agents| ==> agents[i].id < nextId)
      && (forall i :: 0 <= i < |tasks| ==> tasks[i].id < nextId)
      && (forall i :: 0 <= i < |notifications| ==> notifications[i].id < nextId)
      && DistinctIds(notifications)
      && (forall i :: 0 <= i < |activity| ==> activity[i].id < nextId)
    }

    constructor ()
      ensures Valid()
      ensures agents == [] && tasks == [] && assignees == [] && notifications == [] && activity == []
    {
      agents, tasks, assignees, notifications, activity := [], [], [], [], [];
      nextId := 0;
    }

    /** A row id never issued before. */
    method FreshId() returns (id: Id)
      requires Valid()
      modifies this`nextId
      ensures Valid()
      ensures id == old(nextId) && nextId == id + 1
    {
      id := nextId;
      nextId := nextId + 1;
    }

    /** Appends a notification under a fresh id. */
    method InsertNotification(mentioned: Id, from: Option<Id>, taskId: Option<Id>, content: string, now: int)
      returns (n: Notification)
      requires Valid()
      modifies this`notifications, this`nextId
      ensures Valid()
      ensures AddsNotification(old(notifications), notifications, mentioned, from, taskId, content, now)
      ensures n == notifications[|old(notifications)|]
    {
      var id := FreshId();
      n := Notification(id, mentioned, from, taskId, content, false, now);
      notifications := notifications + [n];
      assert notifications[..|old(notifications)|] == old(notifications);
    }

    /** Appends an activity entry under a fresh id. */
    method LogActivity(agentId: Option<Id>, activityType: string, message: string, taskId: Option<Id>, now: int)
      requires Valid()
      modifies this`activity, this`nextId
      ensures Valid()
      ensures AddsActivity(old(activity), activity, agentId, activityType, message, taskId, now)
    {
      var id := FreshId();
      activity := activity + [Activity(id, agentId, activityType, message, taskId, now)];
      assert activity[..|old(activity)|] == old(activity);
    }

    /** Inserts a task row under a fresh id; it has no due date. */
    method InsertTask(title: string, description: Option<string>, priority: Priority, status: Status,
                      createdBy: Option<Id>, now: int)
      returns (t: Task)
      requires Valid()
      modifies this`tasks, this`nextId
      ensures Valid()
      ensures t == Task(t.id, title, description, status, priority, createdBy, now, now, None)
      ensures forall i :: 0 <= i < |old(tasks)| ==> old(tasks)[i].id != t.id
      ensures tasks == old(tasks) + [t]
    {
      var id := FreshId();
      t := Task(id, title, description, status, priority, createdBy, now, now, None);
      tasks := tasks + [t];
    }

    /** Inserts a task-assignee pair. */
    method InsertAssignment(taskId: Id, agentId: Id)
      modifies this`assignees
      ensures assignees == old(assignees) + [Assignment(taskId, agentId)]
    {
      assignees := assignees + [Assignment(taskId, agentId)];
    }

    /** Inserts an agent row under a fresh id; its key must be new. */
    method InsertAgent(name: string, role: Option<string>, sessionKey: string, status: AgentStatus,
                       lastHeartbeat: Option<int>, now: int)
      returns (a: Agent)
      requires Valid()
      requires forall i :: 0 <= i < |agents| ==> agents[i].sessionKey != sessionKey
      modifies this`agents, this`nextId
      ensures Valid()
      ensures a == Agent(a.id, name, role, sessionKey, status, None, lastHeartbeat, now, now)
      ensures forall i :: 0 <= i < |old(agents)| ==> old(agents)[i].id != a.id
      ensures agents == old(agents) + [a]
    {
      var id := FreshId();
      a := Agent(id, name, role, sessionKey, status, None, lastHeartbeat, now, now);
      agents := agents + [a];
    }

    /** Overwrites the row at position idx, keeping its id and its key. */
    method ReplaceAgent(idx: int, a: Agent)
      requires Valid()
      requires 0 <= idx < |agents| && a.id == agents[idx].id && a.sessionKey == agents[idx].sessionKey
      modifies this`agents
      ensures Valid()
      ensures agents == old(agents)[idx := a]
    {
      agents := agents[idx := a];
    }

    /** Reads the agent's undelivered notifications, oldest first, and, when `mark`
        holds and there are any, marks exactly those delivered; afterwards none is
        pending. Without `mark` the table is untouched. */
    method TakePending(agentId: Id, mark: bool) returns (pending: seq<Notification>)
      requires Valid()
      modifies this`notifications
      ensures Valid()
      ensures pending == Undelivered(old(notifications), agentId)
      ensures mark ==> notifications == MarkAll(old(notifications), IdsOf(pending))
      ensures mark ==> Undelivered(notifications, agentId) == []
      ensures !mark ==> notifications == old(notifications)
    {
      pending := Undelivered(notifications, agentId);
      if mark && |pending| > 0 {
        MarkDelivered(IdsOf(pending));
      } else if mark {
        assert MarkAll(notifications, IdsOf(pending)) == notifications;
      }
      MarkingEmptiesPending(old(notifications), agentId, IdsOf(pending));
    }

    /** `update({ delivered: true }).in("id", ids)`: sets the flag, in place, on every
        notification row whose id is listed. */
    method MarkDelivered(ids: set<Id>)
      requires Valid()
      modifies this`notifications
      ensures Valid()
      ensures notifications == MarkAll(old(notifications), ids)
    {
      var i := 0;
      while i < |notifications|
        invariant 0 <= i <= |notifications| == |old(notifications)|
        invariant forall k :: 0 <= k < i ==> notifications[k] == MarkRow(old(notifications)[k], ids)
        invariant forall k :: i <= k < |notifications| ==> notifications[k] == old(notifications)[k]
      {
        if notifications[i].id in ids {
          notifications := notifications[i := notifications[i].(delivered := true)];
        }
        i := i + 1;
      }
    }
  }
}
