/** The agent-gateway client's local logic (openclaw.ts). The HTTP calls are
    abstracted: the answer of `getConfig()` is an input, and the argument handed to
    `patchConfig(...)` or the reason sent with a restart is an output. */
module OpenClaw {
  import opened Types

  /** An arbitrary JSON value of the gateway's configuration. */
  datatype Json = JNull | JBool(b: bool) | JNum(n: int) | JStr(s: string)
                | JArr(items: seq<Json>) | JObj(fields: map<string, Json>)

  /** One entry of `config.agents.list`: an object with (normally) an "id" key. */
  type AgentConfig = map<string, Json>

  /** `config.agents`: its `list` and every other key it carries (such as `defaults`). */
  datatype AgentsSection = AgentsSection(others: map<string, Json>, list: Option<seq<AgentConfig>>)

  /** The gateway configuration: the optional `agents` section and all other keys. */
  datatype Config = Config(agents: Option<AgentsSection>, others: map<string, Json>)

  /** What `getConfig()` answered: `ok` and `result.config` when present. */
  datatype ConfigRead = ConfigRead(ok: bool, config: Option<Config>)

  /** The outcome of updateAgent: an error answered locally, or the patch sent. */
  datatype UpdateOutcome = UpdateFailed(error: string) | PatchSent(agents: AgentsSection)

  predicate HasId(a: AgentConfig, id: string) {
    "id" in a && a["id"] == JStr(id)
  }

  /** The read succeeded and carried a configuration. */
  predicate Usable(read: ConfigRead) {
    read.ok && read.config.Some?
  }

  /** `config.agents?.list || []`. */
  function ListOf(config: Config): (r: seq<AgentConfig>)
    ensures config.agents.None? || config.agents.value.list.None? ==> r == []
    ensures config.agents.Some? && config.agents.value.list.Some? ==> r == config.agents.value.list.value
  {
    match config.agents
    case None => []
    case Some(section) => if section.list.Some? then section.list.value else []
  }

  /** getAgents: the configured list, or empty when the read failed or has no list. */
  function GetAgents(read: ConfigRead): (r: seq<AgentConfig>)
    ensures !Usable(read) ==> r == []
    ensures Usable(read) && (read.config.value.agents.None? || read.config.value.agents.value.list.None?) ==> r == []
    ensures Usable(read) && read.config.value.agents.Some? && read.config.value.agents.value.list.Some? ==>
              r == read.config.value.agents.value.list.value
  {
    if !read.ok || read.config.None? then [] else ListOf(read.config.value)
  }

  /** `{ ...entry, ...updates }`: keys of the update win, the entry's other keys stay. */
  function Merge(entry: AgentConfig, updates: AgentConfig): (r: AgentConfig)
    ensures r.Keys == entry.Keys + updates.Keys
    ensures forall k :: k in updates ==> r[k] == updates[k]
    ensures forall k :: k in entry && k !in updates ==> r[k] == entry[k]
  {
    entry + updates
  }

  /** An update that does not mention "id" keeps the entry findable under its id. */
  lemma MergeKeepsId(entry: AgentConfig, updates: AgentConfig, id: string)
    requires HasId(entry, id) && "id" !in updates
    ensures HasId(Merge(entry, updates), id)
  {
  }

  /** idx is the position `findIndex(a => a.id === id)` returns. */
  predicate IsFirstWithId(list: seq<AgentConfig>, id: string, idx: int) {
    && 0 <= idx < |list|
    && HasId(list[idx], id)
    && forall j :: 0 <= j < idx ==> !HasId(list[j], id)
  }

  /** `agents.findIndex(a => a.id === id)`: the first match, or -1. */
  method FindIndex(agents: array<AgentConfig>, id: string) returns (idx: int)
    ensures idx == -1 <==> forall i :: 0 <= i < agents.Length ==> !HasId(agents[i], id)
    ensures idx != -1 ==> IsFirstWithId(agents[..], id, idx)
  {
    var i := 0;
    while i < agents.Length
      invariant 0 <= i <= agents.Length
      invariant forall j :: 0 <= j < i ==> !HasId(agents[j], id)
    {
      if HasId(agents[i], id) {
        return i;
      }
      i := i + 1;
    }
    return -1;
  }

  /** updateAgent: read the configuration, find the entry by id, replace it in the
      fetched array by the shallow merge, and send the `agents` section back with only
      `list` replaced. */
  method UpdateAgent(read: ConfigRead, agentId: string, updates: AgentConfig) returns (out: UpdateOutcome)
    ensures !Usable(read) ==> out == UpdateFailed("Failed to get current config")
    ensures Usable(read) ==>
              (out == UpdateFailed("Agent not found")
               <==> forall i :: 0 <= i < |ListOf(read.config.value)| ==> !HasId(ListOf(read.config.value)[i], agentId))
    ensures Usable(read) ==>
              (out.PatchSent?
               <==> exists i :: 0 <= i < |ListOf(read.config.value)| && HasId(ListOf(read.config.value)[i], agentId))
    ensures out.PatchSent? ==>
              var config := read.config.value;
              var list := ListOf(config);
              && Usable(read)
              && config.agents.Some?
              && out.agents.others == config.agents.value.others
              && out.agents.list.Some?
              && |out.agents.list.value| == |list|
              && exists idx :: IsFirstWithId(list, agentId, idx)
                               && out.agents.list.value == list[idx := Merge(list[idx], updates)]
  {
    if !read.ok || read.config.None? {
      return UpdateFailed("Failed to get current config");
    }
    var config := read.config.value;
    var list := ListOf(config);
    var agents := new AgentConfig[|list|](i requires 0 <= i < |list| => list[i]);
    assert agents[..] == list;
    var agentIndex := FindIndex(agents, agentId);
    if agentIndex == -1 {
      assert forall i :: 0 <= i < |list| ==> list[i] == agents[i];
      return UpdateFailed("Agent not found");
    }
    agents[agentIndex] := Merge(agents[agentIndex], updates);
    assert agents[..] == list[agentIndex := Merge(list[agentIndex], updates)];
    out := PatchSent(AgentsSection(config.agents.value.others, Some(agents[..])));
  }

  /** A usable read whose list holds the id sends a patch in which only that entry
      carries the update; a read that failed sends none. */
  method UpdateAgentExamples()
  {
    var entry: AgentConfig := map["id" := JStr("leo"), "model" := JStr("m1")];
    var other: AgentConfig := map["id" := JStr("maya")];
    var updates: AgentConfig := map["model" := JStr("m2")];
    var read := ConfigRead(true, Some(Config(Some(AgentsSection(map[], Some([other, entry]))), map[])));
    assert ListOf(read.config.value) == [other, entry];
    assert HasId(ListOf(read.config.value)[1], "leo");
    var out := UpdateAgent(read, "leo", updates);
    assert out.PatchSent?;
    var list := [other, entry];
    var idx :| IsFirstWithId(list, "leo", idx) && out.agents.list.value == list[idx := Merge(list[idx], updates)];
    assert !HasId(other, "leo");
    assert idx == 1;
    assert out.agents.list.value == [other, Merge(entry, updates)];
    out := UpdateAgent(ConfigRead(false, None), "leo", updates);
    assert out == UpdateFailed("Failed to get current config");
  }

  /** The reason sent with a restart: the given one, or the default when it is
      missing or empty. */
  function RestartReason(reason: Option<string>): (r: string)
    ensures Present(reason) ==> r == reason.value
    ensures !Present(reason) ==> r == "Houston agent management"
    ensures r != ""
  {
    if Present(reason) then reason.value else "Houston agent management"
  }
}
