/** The agent registry handlers (api/agents/route.ts) over the in-memory store: the
    list of agents ordered by name and optionally filtered by status, and the
    registration that inserts an agent or updates the one holding the same session
    key. */
module AgentsRoute {
  import opened Types
  import opened Store

  // ------------------------------------------------------------ listing

  /** `.eq("status", status)` when a status is given. */
  predicate HasStatus(a: Agent, status: Option<AgentStatus>) {
    status.None? || a.status == status.value
  }

  function WithStatus(agents: seq<Agent>, status: Option<AgentStatus>): (r: seq<Agent>)
    ensures |r| <= |agents|
  {
    if agents == [] then []
    else (if HasStatus(agents[0], status) then [agents[0]] else []) + WithStatus(agents[1..], status)
  }

  lemma {:induction false} WithStatusMembership(agents: seq<Agent>, status: Option<AgentStatus>, a: Agent)
    ensures a in WithStatus(agents, status) <==> a in agents && HasStatus(a, status)
  {
    if agents != [] {
      WithStatusMembership(agents[1..], status, a);
      assert agents == [agents[0]] + agents[1..];
    }
  }

  /** Names compared character by character by code point; a prefix comes first. */
  predicate NameLe(a: string, b: string)
    decreases |a|
  {
    a == [] || (b != [] && (a[0] < b[0] || (a[0] == b[0] && NameLe(a[1..], b[1..]))))
  }

  /** Any two names are ordered one way or the other. */
  lemma {:induction false} NameLeTotal(a: string, b: string)
    ensures NameLe(a, b) || NameLe(b, a)
    decreases |a|
  {
    if a != [] && b != [] && a[0] == b[0] {
      NameLeTotal(a[1..], b[1..]);
    }
  }

  /** Each agent's name is at or before the next one's. */
  predicate SortedByName(agents: seq<Agent>) {
    forall i :: 0 < i < |agents| ==> NameLe(agents[i - 1].name, agents[i].name)
  }

  /** Puts a before the first agent of a sorted list whose name it does not exceed. */
  function InsertByName(a: Agent, agents: seq<Agent>): (r: seq<Agent>)
    ensures |r| == |agents| + 1
    ensures r[0] == a || (agents != [] && r[0] == agents[0])
    ensures multiset(r) == multiset(agents) + multiset{a}
  {
    if agents == [] then [a]
    else if NameLe(a.name, agents[0].name) then [a] + agents
    else
      var rest := InsertByName(a, agents[1..]);
      assert agents == [agents[0]] + agents[1..];
      [agents[0]] + rest
  }

  lemma {:induction false} InsertByNameSorted(a: Agent, agents: seq<Agent>)
    requires SortedByName(agents)
    ensures SortedByName(InsertByName(a, agents))
  {
    if agents != [] && !NameLe(a.name, agents[0].name) {
      NameLeTotal(a.name, agents[0].name);
      InsertByNameSorted(a, agents[1..]);
    }
  }

  /** `.order("name", { ascending: true })`. */
  function SortByName(agents: seq<Agent>): (r: seq<Agent>)
    ensures multiset(r) == multiset(agents)
  {
    if agents == [] then []
    else
      var r := InsertByName(agents[0], SortByName(agents[1..]));
      assert agents == [agents[0]] + agents[1..];
      r
  }

  lemma {:induction false} SortByNameSorted(agents: seq<Agent>)
    ensures SortedByName(SortByName(agents))
  {
    if agents != [] {
      SortByNameSorted(agents[1..]);
      InsertByNameSorted(agents[0], SortByName(agents[1..]));
    }
  }

  /** GET /api/agents: always 200; the agents with the requested status (all of them
      when none is requested), each exactly once, ordered by name. */
  method Get(db: Database, status: Option<AgentStatus>) returns (code: int, agents: seq<Agent>)
    ensures code == 200
    ensures SortedByName(agents)
    ensures multiset(agents) == multiset(WithStatus(db.agents, status))
    ensures forall a :: a in agents <==> a in db.agents && HasStatus(a, status)
  {
    var filtered := WithStatus(db.agents, status);
    agents := SortByName(filtered);
    SortByNameSorted(filtered);
    forall a ensures a in agents <==> a in db.agents && HasStatus(a, status) {
      WithStatusMembership(db.agents, status, a);
      assert a in agents <==> a in multiset(agents);
      assert a in filtered <==> a in multiset(filtered);
    }
    code := 200;
  }

  // ------------------------------------------------------------ registration

  /** `status = "idle"`: the default applies when no status is sent. */
  function StatusOrIdle(status: Option<AgentStatus>): (r: AgentStatus)
    ensures status.Some? ==> r == status.value
    ensures status.None? ==> r == Idle
  {
    if status.Some? then status.value else Idle
  }

  /** POST /api/agents: 400 when the name or the session key is missing or empty, and
      nothing written. Otherwise 201. If an agent holds the key, that row (and no other)
      gets the sent name, role or null, status or idle, and a fresh heartbeat and update
      time, keeping its id, its current task and its creation time; otherwise a new row
      with a fresh id is appended. Either way the key then finds the returned row, and
      keys stay unique. */
  method Post(db: Database, name: Option<string>, role: Option<string>, sessionKey: Option<string>,
              status: Option<AgentStatus>, now: int)
    returns (code: int, agent: Option<Agent>)
    requires db.Valid()
    modifies db`agents, db`nextId
    ensures db.Valid()
    ensures !Present(name) || !Present(sessionKey) ==> code == 400 && agent.None? && db.agents == old(db.agents)
    ensures Present(name) && Present(sessionKey) ==> code == 201 && agent.Some?
    ensures agent.Some? ==>
              var a := agent.value;
              && a.name == name.value && a.role == OrNull(role) && a.sessionKey == sessionKey.value
              && a.status == StatusOrIdle(status) && a.lastHeartbeat == Some(now) && a.updatedAt == now
              && AgentBySession(db.agents, sessionKey.value) == agent
    ensures agent.Some? ==>
              var a := agent.value;
              var idx := SessionIndex(old(db.agents), sessionKey.value);
              && (idx >= 0 ==>
                    && db.agents == old(db.agents)[idx := a]
                    && a.id == old(db.agents)[idx].id
                    && a.currentTaskId == old(db.agents)[idx].currentTaskId
                    && a.createdAt == old(db.agents)[idx].createdAt)
              && (idx == -1 ==>
                    && db.agents == old(db.agents) + [a]
                    && (forall i :: 0 <= i < |old(db.agents)| ==> old(db.agents)[i].id != a.id)
                    && a.currentTaskId.None? && a.createdAt == now)
  {
    if !Present(name) || !Present(sessionKey) {
      return 400, None;
    }
    var key := sessionKey.value;
    var idx := SessionIndex(db.agents, key);
    var a: Agent;
    if idx >= 0 {
      a := db.agents[idx].(name := name.value, role := OrNull(role), status := StatusOrIdle(status),
                           lastHeartbeat := Some(now), updatedAt := now);
      db.ReplaceAgent(idx, a);
    } else {
      a := db.InsertAgent(name.value, OrNull(role), key, StatusOrIdle(status), Some(now), now);
    }
    assert db.agents[if idx >= 0 then idx else |db.agents| - 1] == a;
    AgentBySessionUnique(db.agents, key, if idx >= 0 then idx else |db.agents| - 1);
    return 201, Some(a);
  }
}
