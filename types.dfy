/** Shared vocabulary of the Mission Control tables: the closed enumerations of
    task status, task priority and agent status, the row shapes of tasks and agents,
    and the few string helpers (JavaScript truthiness, ASCII lower-casing,
    substring search) that the board and the handlers use. */
module Types {

  datatype Option<+T> = None | Some(value: T)

  /** Row identifiers are generated by the store (uuids); only equality matters. */
  type Id = nat

  /** Task["status"]: exactly six values, no others. */
  datatype Status = Inbox | Assigned | InProgress | Review | Done | Blocked

  /** Task["priority"]. */
  datatype Priority = Low | Medium | High | Urgent

  /** Agent["status"]. */
  datatype AgentStatus = Idle | Active | AgentBlocked

  /** A task row; timestamps are integer milliseconds. */
  datatype Task = Task(
    id: Id,
    title: string,
    description: Option<string>,
    status: Status,
    priority: Priority,
    createdBy: Option<Id>,
    createdAt: int,
    updatedAt: int,
    dueDate: Option<int>)

  /** An agent row; `sessionKey` is the agent's identity. */
  datatype Agent = Agent(
    id: Id,
    name: string,
    role: Option<string>,
    sessionKey: string,
    status: AgentStatus,
    currentTaskId: Option<Id>,
    lastHeartbeat: Option<int>,
    createdAt: int,
    updatedAt: int)

  /** The wire spelling of a status. */
  function StatusName(s: Status): (r: string)
    ensures r != ""
  {
    match s
    case Inbox => "inbox"
    case Assigned => "assigned"
    case InProgress => "in_progress"
    case Review => "review"
    case Done => "done"
    case Blocked => "blocked"
  }

  lemma StatusNameInjective(a: Status, b: Status)
    ensures StatusName(a) == StatusName(b) <==> a == b
  {
  }

  function AgentStatusName(s: AgentStatus): (r: string)
    ensures r != ""
  {
    match s
    case Idle => "idle"
    case Active => "active"
    case AgentBlocked => "blocked"
  }

  /** JavaScript truthiness of an optional string: absent, null and "" are falsy. */
  predicate Present(o: Option<string>) {
    o.Some? && o.value != ""
  }

  /** `x || null` on an optional string. */
  function OrNull(o: Option<string>): (r: Option<string>)
    ensures Present(o) ==> r == o
    ensures !Present(o) ==> r == None
  {
    if Present(o) then o else None
  }

  /** ASCII model of `toLowerCase`: upper-case Latin letters map to lower case. */
  function LowerChar(c: char): (r: char)
    ensures 'A' <= c <= 'Z' ==> 'a' <= r <= 'z' && r as int == c as int + 32
    ensures !('A' <= c <= 'Z') ==> r == c
  {
    if 'A' <= c <= 'Z' then (c as int + 32) as char else c
  }

  function Lower(s: string): (r: string)
    ensures |r| == |s|
    ensures forall i :: 0 <= i < |s| ==> r[i] == LowerChar(s[i])
  {
    if s == [] then [] else [LowerChar(s[0])] + Lower(s[1..])
  }

  /** s has no upper-case Latin letter. */
  predicate IsLowerCase(s: string) {
    forall i :: 0 <= i < |s| ==> !('A' <= s[i] <= 'Z')
  }

  /** Lower-casing a string without upper-case letters gives it back. */
  lemma {:induction false} LowerCaseFixed(s: string)
    requires IsLowerCase(s)
    ensures Lower(s) == s
  {
    if s != [] {
      LowerCaseFixed(s[1..]);
    }
  }

  /** needle occurs in hay starting at position i. */
  predicate OccursAt(hay: string, needle: string, i: int) {
    0 <= i <= |hay| - |needle| && hay[i..i + |needle|] == needle
  }

  /** `hay.includes(needle)`: needle occurs as a contiguous block of hay. */
  predicate Contains(hay: string, needle: string) {
    exists i :: 0 <= i <= |hay| && OccursAt(hay, needle, i)
  }
}
