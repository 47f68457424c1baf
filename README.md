# Mission Control — a verified model of its decision logic

Mission Control is a dashboard for a team of AI agents. It has a kanban board of tasks, a panel of per-agent tool permissions, and agent cards showing the last heartbeat. A small HTTP API backs it: agents register, check in by heartbeat, receive notifications and pick up tasks. The API stores everything in a hosted database. A separate agent gateway holds the agents' runtime configuration.

This project models the logic inside that glue, in Dafny, and proves what it promises:

- **`Types`** (`types.dfy`): the row shapes of tasks and agents. It also holds the closed enumerations of task status, priority and agent status, JavaScript truthiness of optional strings (`Present`), and ASCII lower-casing and substring search.
- **`KanbanColumn`** (`kanban_column.dfy`): the fixed five-column table and the column-to-status map.
- **`KanbanBoard`** (`kanban_board.dfy`): the search/priority filter, the grouping of visible tasks into columns (a loop that pushes into a map of lists), the drag-end decision, and the summary counters.
- **`ToolAccess`** (`tool_access.dfy`): the 21-tool catalogue and the four presets. The panel is a class whose `tools` dictionary and `hasChanges` flag are updated by toggle, preset, enable-all, disable-all and save. The dictionary fills are nested loops.
- **`AgentCard`** (`agent_card.dfy`): the heartbeat age buckets ("just now", minutes, hours, days), their text (with a parser proving that no two ages print alike), the "never" fallback and the emoji lookup.
- **`OpenClaw`** (`openclaw.ts` logic, `openclaw.dfy`): `getAgents`' fallback, and `updateAgent`'s in-place replacement of the first entry with a given id by a shallow merge, over an array. The gateway's answer is an input and the patch sent is an output.
- **`Store`** (`store.dfy`): an in-memory database class. It has the agents, tasks, task-assignee, notification and activity tables, and a counter issuing fresh row ids. It also has the queries the routes issue and the in-place "mark delivered" update.
- **`TasksRoute`, `NotifyRoute`, `HeartbeatRoute`, `AgentsRoute`**: the four API handlers, as methods on the store. Each returns the HTTP status code and changes exactly the tables its `modifies` clause names. Its `ensures` clauses state every table's new contents.

Wall-clock time is a parameter `now` (integer milliseconds). Row ids are natural numbers issued by the store.

## Model

| member | source | states |
|---|---|---|
| Types.StatusName | src/lib/supabase.ts:27 | every task status has a non-empty wire spelling |
| Types.StatusNameInjective | src/lib/supabase.ts:27 | two statuses share a spelling only when they are the same status |
| Types.OrNull | src/app/api/tasks/route.ts:87 | `x \|\| null`: a present string is kept, an absent, null or empty one becomes null |
| Types.Lower | src/components/kanban/KanbanBoard.tsx:62-63 | lower-casing keeps the length and maps each character by the ASCII rule |
| Types.LowerCaseFixed | src/components/agents/AgentCard.tsx:40 | lower-casing a string without upper-case letters gives it back, so each emoji key is its own lookup key |
| KanbanColumn.Columns | src/components/kanban/KanbanColumn.tsx:86-128 | `COLUMNS`: no column is the `assigned` one, and every column accepts some status (distinct ids follow from `ColumnTableShape`, which fixes each id) |
| KanbanColumn.StatusForColumn | src/components/kanban/KanbanColumn.tsx:130-141 | the status returned is the one spelled exactly like the column id |
| KanbanColumn.FirstAccepting | src/components/kanban/KanbanBoard.tsx:85 | `COLUMNS.find(...)`: no result iff no column accepts the status; otherwise the first column that accepts it |
| KanbanColumn.EachStatusInExactlyOneColumn | src/components/kanban/KanbanColumn.tsx:86-128 | each of the six statuses is in the status set of exactly one column |
| KanbanColumn.ColumnOfIsHome | src/components/kanban/KanbanColumn.tsx:86-128 | the column found for a status always exists and is that status's intended column |
| KanbanColumn.ColumnTableShape | src/components/kanban/KanbanColumn.tsx:86-128 | five columns in the order inbox, in_progress, review, blocked, done; inbox accepts inbox and assigned, every other column exactly its own status |
| KanbanColumn.DropStatusStaysInColumn | src/components/kanban/KanbanColumn.tsx:98-141 | for each column of the table, the status a drop assigns is accepted by that column, and a task with it is shown in that same column |
| KanbanBoard.KeepMembership | src/components/kanban/KanbanBoard.tsx:59-69 | a task survives a filter iff it is in the input and passes the test |
| KanbanBoard.KeepAppend | src/components/kanban/KanbanBoard.tsx:59-69 | filtering distributes over concatenation, so relative order is preserved |
| KanbanBoard.FilterTasks | src/components/kanban/KanbanBoard.tsx:58-70 | `filteredTasks`: a task is kept iff it is in the input and matches the search (empty query, title, or non-null description) and the priority filter |
| KanbanBoard.FilterKeepsOrder | src/components/kanban/KanbanBoard.tsx:58-70 | the filter preserves the input order: filtering a list cut in two is filtering each part |
| KanbanBoard.EmptyQueryAllPrioritiesIsIdentity | src/components/kanban/KanbanBoard.tsx:59-69 | with an empty query and filter "all" the filtered list is the input list, in order |
| KanbanBoard.Bucket | src/components/kanban/KanbanBoard.tsx:83-89 | a column's card list: never longer than the filtered list (its members are given by BucketPlacement) |
| KanbanBoard.BucketAppend | src/components/kanban/KanbanBoard.tsx:83-89 | grouping distributes over concatenation: each column keeps the tasks' relative order |
| KanbanBoard.BucketSnoc | src/components/kanban/KanbanBoard.tsx:83-89 | pushing one task extends its own column's list and no other |
| KanbanBoard.BucketPlacement | src/components/kanban/KanbanBoard.tsx:83-89 | a task is in a column's list iff it is a filtered task whose status belongs to that column |
| KanbanBoard.AssignedBucketEmpty | src/components/kanban/KanbanBoard.tsx:74-87 | the `assigned` list is always empty; assigned tasks land in the inbox list |
| KanbanBoard.BucketSizesSum | src/components/kanban/KanbanBoard.tsx:83-89 | the six list sizes sum to the number of filtered tasks |
| KanbanBoard.GroupByColumn | src/components/kanban/KanbanBoard.tsx:73-92 | the loop produces all six keys, and each list is exactly that column's bucket of the filtered tasks, in order |
| KanbanBoard.FirstWithId | src/components/kanban/KanbanBoard.tsx:124 | `tasks.find(t => t.id === id)`: none iff no task has the id; otherwise the first task carrying it |
| KanbanBoard.TargetColumn | src/components/kanban/KanbanBoard.tsx:117-131 | the drop target's column id when it carries one; otherwise a column iff some task of the unfiltered list has the target's id, and then the column of the first such task |
| KanbanBoard.DragEnd | src/components/kanban/KanbanBoard.tsx:106-148 | no update without a drop target, without a dragged task, or when the target column is unresolved; otherwise exactly one update to the column's status, iff it differs from the current status |
| KanbanBoard.CountWhere | src/components/kanban/KanbanBoard.tsx:173-183 | a count is at most the list length; it is zero iff no task passes and the full length iff all pass |
| KanbanBoard.CountIsFilterLength | src/components/kanban/KanbanBoard.tsx:173-183 | each counter is `filter(p).length`: the length of the order-preserving filter whose members are exactly the passing tasks (`KeepMembership`) |
| KanbanBoard.CountDisjoint | src/components/kanban/KanbanBoard.tsx:173-183 | two tests no task passes together count at most the list length together |
| KanbanBoard.BoardStats | src/components/kanban/KanbanBoard.tsx:173-183 | total is the list length; done, blocked and urgent are each at most total; done + blocked and done + overdue are at most total; overdue is zero iff no task is past due and not done |
| ToolAccess.Categories | src/components/agents/ToolAccessPanel.tsx:13-49 | `TOOL_CATEGORIES`: seven categories, none empty |
| ToolAccess.PresetTools | src/components/agents/ToolAccessPanel.tsx:51-56 | `PRESETS`: every tool a preset names is a catalogue tool |
| ToolAccess.TotalCount | src/components/agents/ToolAccessPanel.tsx:106 | `totalCount` (the reduce over category sizes) equals the length of the flattened catalogue |
| ToolAccess.EnabledCount | src/components/agents/ToolAccessPanel.tsx:105 | `enabledCount` is at most the number of keys, and zero iff no key is mapped to true |
| ToolAccess.CountEnabled | src/components/agents/ToolAccessPanel.tsx:154 | a category's enabled count is at most its size, and equals it iff every tool of it is enabled |
| ToolAccess.CountEnabledAppend | src/components/agents/ToolAccessPanel.tsx:154 | the count of a list cut in two is the sum of the counts of the parts, so it is the number of enabled entries, one per enabled tool |
| ToolAccess.FlattenLength | src/components/agents/ToolAccessPanel.tsx:106 | the flattened catalogue is as long as the sum of the category sizes |
| ToolAccess.DistinctSetSize | src/components/agents/ToolAccessPanel.tsx:13-49 | a list without repeats has as many distinct names as entries |
| ToolAccess.CatalogueHas21Tools | src/components/agents/ToolAccessPanel.tsx:13-49 | `totalCount` is 21, and the catalogue lists 21 distinct tools |
| ToolAccess.FillCatalogue | src/components/agents/ToolAccessPanel.tsx:68-74 | the nested loops build a dictionary whose keys are exactly the catalogue tools, each mapped to the chosen value |
| ToolAccess.ToolAccessPanel.constructor | src/components/agents/ToolAccessPanel.tsx:58-60 | the panel starts from the initial dictionary with no unsaved changes |
| ToolAccess.ToolAccessPanel.ToggleTool | src/components/agents/ToolAccessPanel.tsx:62-65 | only key `tool` is set to the given value; every other key is unchanged; changes are flagged |
| ToolAccess.ToolAccessPanel.ApplyPreset | src/components/agents/ToolAccessPanel.tsx:67-76 | keys are exactly the catalogue tools, each enabled iff the preset lists it; changes are flagged |
| ToolAccess.ToolAccessPanel.EnableAll | src/components/agents/ToolAccessPanel.tsx:78-87 | every catalogue tool is enabled and nothing else is a key; enabledCount equals totalCount |
| ToolAccess.ToolAccessPanel.DisableAll | src/components/agents/ToolAccessPanel.tsx:89-98 | every catalogue tool is disabled and nothing else is a key; enabledCount is 0 |
| ToolAccess.ToolAccessPanel.HandleSave | src/components/agents/ToolAccessPanel.tsx:100-103 | the current dictionary is handed over unchanged, and the unsaved-changes flag clears |
| ToolAccess.EnableAllCount | src/components/agents/ToolAccessPanel.tsx:78-87 | after enabling all, enabledCount equals totalCount, which is 21 |
| ToolAccess.DisableAllCount | src/components/agents/ToolAccessPanel.tsx:89-98 | after disabling all, enabledCount is 0 |
| ToolAccess.FullPresetIsEnableAll | src/components/agents/ToolAccessPanel.tsx:55 | the "full" preset yields the same dictionary as enableAll |
| ToolAccess.PresetCount | src/components/agents/ToolAccessPanel.tsx:67-76 | after a preset, enabledCount is the number of distinct tools the preset lists |
| AgentCard.DecimalString | src/components/agents/AgentCard.tsx:87-89 | the printed count is a non-empty string of decimal digits |
| AgentCard.DecimalRoundTrip | src/components/agents/AgentCard.tsx:87-89 | reading the printed count back gives the count |
| AgentCard.ElapsedSeconds | src/components/agents/AgentCard.tsx:84 | the result is `floor((now - then) / 1000)`: the whole seconds elapsed, rounding down also for future times |
| AgentCard.AgeOf | src/components/agents/AgentCard.tsx:86-89 | under 60 s (negative included) is "just now"; below an hour, minutes in 1..59; below a day, hours in 1..23; otherwise days ≥ 1; each count is the floor of the elapsed time in its unit |
| AgentCard.AgeTextRoundTrip | src/components/agents/AgentCard.tsx:86-89 | the text determines the bucket and its count: parsing the text gives back the age |
| AgentCard.TimeSince | src/components/agents/AgentCard.tsx:83-90 | `getTimeSince`: the text of the bucket of the elapsed whole seconds; the bucket and its count can be read back from it |
| AgentCard.TimeSinceBuckets | src/components/agents/AgentCard.tsx:83-90 | "just now" iff less than 60 000 ms have elapsed; otherwise the whole minutes, hours or days elapsed followed by "m ago", "h ago" or "d ago" |
| AgentCard.HeartbeatLabel | src/components/agents/AgentCard.tsx:41-43 | "never" without a heartbeat, else the age text of that heartbeat: it reads back as the bucket of the seconds elapsed since it |
| AgentCard.AgentEmojis | src/components/agents/AgentCard.tsx:27-36 | `agentEmojis`: no key has an upper-case letter, so a lower-cased name can reach it, and every emoji is non-empty, so a listed name never falls back |
| AgentCard.EmojiFor | src/components/agents/AgentCard.tsx:27-40 | the table entry of the lower-cased name, or the robot default for an unknown name |
| OpenClaw.ListOf | src/lib/openclaw.ts:87 | `config.agents?.list \|\| []`: the list when the section and the list exist, else empty |
| OpenClaw.GetAgents | src/lib/openclaw.ts:82-88 | the configured agent list; empty when the read failed, carried no config or has no list |
| OpenClaw.Merge | src/lib/openclaw.ts:107 | keys of the update win, every other key of the entry is kept, no other key appears |
| OpenClaw.MergeKeepsId | src/lib/openclaw.ts:100-107 | an update without an "id" key keeps the entry findable under its id |
| OpenClaw.FindIndex | src/lib/openclaw.ts:100-101 | -1 iff no entry has the id; otherwise the first entry carrying it |
| OpenClaw.UpdateAgent | src/lib/openclaw.ts:93-115 | "Failed to get current config" iff the read fails; on a usable read, "Agent not found" iff no entry has the id, and a patch is sent iff some entry has it; the patch keeps every other field of `agents` and replaces only the first matching entry by the merge, with the list length unchanged |
| OpenClaw.RestartReason | src/lib/openclaw.ts:130 | the given reason, or "Houston agent management" when it is missing or empty |
| Store.AgentBySession | src/app/api/notify/route.ts:18-22 | the lookup by session key finds nothing iff no agent holds the key, else an agent holding it |
| Store.AgentBySessionUnique | src/app/api/notify/route.ts:18-22 | with unique keys the lookup returns the one agent holding the key |
| Store.ResolveSession | src/app/api/tasks/route.ts:72-80 | an optional session yields an agent id iff it is present and known |
| Store.SessionIndex | src/app/api/agents/heartbeat/route.ts:26-30 | the position of the row an `.eq("session_key", key)` update touches: -1 iff no agent holds the key, else the first row holding it |
| Store.SessionIndexFinds | src/app/api/agents/heartbeat/route.ts:26-35 | with unique keys the updated position and the lookup agree |
| Store.Undelivered | src/app/api/notify/route.ts:87-92 | the agent's undelivered notifications in table order: never more rows than the table (members given by UndeliveredMembership) |
| Store.UndeliveredMembership | src/app/api/notify/route.ts:87-92 | a notification is pending for an agent iff it is in the table, addressed to the agent and not delivered |
| Store.MarkAll | src/app/api/notify/route.ts:99-104 | marking keeps the length; a row becomes delivered when its id is listed, and stays unchanged otherwise |
| Store.AssignedTaskIds | src/app/api/tasks/route.ts:39-44 | a task id is in the agent's assigned set iff some assignee row pairs that task with the agent |
| Store.AssignmentsOf | src/app/api/agents/heartbeat/route.ts:61-64 | the agent's assignment rows are exactly the rows that name the agent |
| Store.AssignedTaskIdsOfRows | src/app/api/agents/heartbeat/route.ts:66-68 | the assigned task ids are the task ids of those rows |
| Store.MarkingEmptiesPending | src/app/api/notify/route.ts:98-104 | marking every returned notification leaves the agent nothing undelivered |
| Store.MarkingTouchesOnlyPending | src/app/api/notify/route.ts:98-104 | marking delivers each pending notification, never clears a flag, and leaves every other row as it was |
| Store.Database.constructor | src/lib/supabase.ts:11-50 | the store starts with five empty tables and satisfies its invariant |
| Store.Database.FreshId | src/app/api/tasks/route.ts:83-93 | each insert receives an id never issued before |
| Store.Database.InsertNotification | src/app/api/notify/route.ts:40-49 | one notification is appended with the given fields, undelivered, under an unseen id; older rows are kept |
| Store.Database.LogActivity | src/app/api/tasks/route.ts:124-129 | one activity entry is appended with the given fields under an unseen id; older entries are kept |
| Store.Database.InsertTask | src/app/api/tasks/route.ts:83-93 | one task is appended with the given fields, no due date, under an unseen id |
| Store.Database.InsertAssignment | src/app/api/tasks/route.ts:108-111 | one task-assignee pair is appended |
| Store.Database.InsertAgent | src/app/api/agents/route.ts:50-64 | one agent is appended under an unseen id with no current task; keys stay unique |
| Store.Database.ReplaceAgent | src/app/api/agents/heartbeat/route.ts:26-30 | only the row at the given position is replaced, keeping its id and key |
| Store.Database.TakePending | src/app/api/notify/route.ts:87-104 | returns exactly the agent's undelivered notifications, oldest first; when marking, exactly those become delivered and none stays pending; otherwise the table is untouched |
| Store.Database.MarkDelivered | src/app/api/notify/route.ts:99-104 | the in-place loop sets the delivered flag on exactly the rows whose id is listed |
| TasksRoute.NewestMatching | src/app/api/tasks/route.ts:15-22 | the matching rows, last inserted first: never more rows than the table |
| TasksRoute.NewestMatchingMembership | src/app/api/tasks/route.ts:15-22 | a task is listed iff it is in the table and matches the status and priority filters |
| TasksRoute.NewestMatchingAppend | src/app/api/tasks/route.ts:15-16 | rows inserted later are listed before rows inserted earlier |
| TasksRoute.Listed | src/app/api/tasks/route.ts:15-22 | the newest min(n, 100) of the n matching rows: a prefix of the newest-first matching rows of exactly that length, each a matching row of the table |
| TasksRoute.NewTaskListedFirst | src/app/api/tasks/route.ts:15-16 | a newly created matching task heads the list |
| TasksRoute.AssignedOnly | src/app/api/tasks/route.ts:44-47 | `tasks.filter(t => assignedTaskIds.has(t.id))`: never more rows than its input |
| TasksRoute.AssignedOnlyMembership | src/app/api/tasks/route.ts:44-48 | a listed task survives the assignee filter iff its id is assigned to the agent |
| TasksRoute.AssignedOnlyAppend | src/app/api/tasks/route.ts:44-48 | the assignee filter keeps the list order: filtering a list cut in two is filtering each part |
| TasksRoute.CreatedTaskHeadsAssigneeList | src/app/api/tasks/route.ts:15-51 | a task just created for an agent, when it matches the filters, heads that agent's list |
| TasksRoute.Get | src/app/api/tasks/route.ts:6-56 | 200; at most 100 matching tasks, newest first; with a known assignee session only that agent's tasks, in list order (`AssignedOnlyAppend`); with an absent or unknown session the list unfiltered |
| TasksRoute.PriorityOrDefault | src/app/api/tasks/route.ts:88 | the sent priority, or medium when omitted |
| TasksRoute.InitialStatus | src/app/api/tasks/route.ts:89 | assigned iff an assignee session is supplied, even an unknown one; inbox otherwise |
| TasksRoute.Assignee | src/app/api/tasks/route.ts:100-107 | the assignee is found iff its session is present and held by an agent |
| TasksRoute.Post | src/app/api/tasks/route.ts:60-136 | 400 and nothing written without a title; otherwise 201 and one new task with the defaults applied; one assignee row and one notification iff the assignee resolves; always one `task_created` activity with the task's id |
| NotifyRoute.Post | src/app/api/notify/route.ts:6-60 | 400 without a target session or content; 404 and nothing written for an unknown target; otherwise 201 and exactly one undelivered notification to the target, sender resolved or null |
| NotifyRoute.MarkRequested | src/app/api/notify/route.ts:67 | marking is off exactly when `mark_delivered` is the literal "false" |
| NotifyRoute.Get | src/app/api/notify/route.ts:63-111 | 400 without a session, 404 for an unknown one; otherwise 200 and exactly the agent's undelivered notifications, oldest first, all delivered afterwards when marking is on, and the table untouched when it is off |
| NotifyRoute.SentIsPending | src/app/api/notify/route.ts:40-49 | a notification just sent is the newest pending one of its target |
| NotifyRoute.UndeliveredSnoc | src/app/api/notify/route.ts:87-92 | appending a notification adds it at the end of its target's pending list and to no other list |
| HeartbeatRoute.OpenAssigned | src/app/api/agents/heartbeat/route.ts:69-73 | the listed tasks with an open status, in table order: never more rows than the table |
| HeartbeatRoute.OpenAssignedMembership | src/app/api/agents/heartbeat/route.ts:69-73 | a task is selected iff it is in the table, its id is listed and its status is open |
| HeartbeatRoute.Beat | src/app/api/agents/heartbeat/route.ts:18-24 | heartbeat and update time always set; status changed only when sent; current task changed whenever sent, null included; every other column kept |
| HeartbeatRoute.CheckInMessage | src/app/api/agents/heartbeat/route.ts:41 | the activity text `<name> checked in (<status>)`; it has no contract of its own and is pinned by HeartbeatRoute.Post |
| HeartbeatRoute.Post | src/app/api/agents/heartbeat/route.ts:6-87 | 400 without a key; 404 and nothing written for an unknown key; otherwise 200: only the agent's row refreshed, one `heartbeat` activity, all its pending notifications returned oldest first and marked delivered, and its open assigned tasks returned |
| HeartbeatRoute.NoIdsNoTasks | src/app/api/agents/heartbeat/route.ts:61-76 | with no assignments no task is returned |
| HeartbeatRoute.HandedOverTasks | src/app/api/agents/heartbeat/route.ts:61-76 | the returned tasks are exactly the agent's assigned tasks whose status is inbox, assigned, in_progress or blocked |
| AgentsRoute.WithStatus | src/app/api/agents/route.ts:16-18 | the agents with the requested status in table order: never more rows than the table |
| AgentsRoute.WithStatusMembership | src/app/api/agents/route.ts:16-18 | an agent is selected iff it is in the table and has the requested status, when one is given |
| AgentsRoute.NameLeTotal | src/app/api/agents/route.ts:14 | any two names are ordered one way or the other |
| AgentsRoute.InsertByName | src/app/api/agents/route.ts:14 | inserting adds exactly the one agent to the list's contents |
| AgentsRoute.InsertByNameSorted | src/app/api/agents/route.ts:14 | inserting into a name-ordered list keeps it ordered |
| AgentsRoute.SortByName | src/app/api/agents/route.ts:14 | sorting is a permutation |
| AgentsRoute.SortByNameSorted | src/app/api/agents/route.ts:14 | the sorted list is ordered by name |
| AgentsRoute.Get | src/app/api/agents/route.ts:5-32 | 200; exactly the agents with the requested status (all when none is given), each once, ordered by name |
| AgentsRoute.StatusOrIdle | src/app/api/agents/route.ts:38 | the sent status, or idle when omitted |
| AgentsRoute.Post | src/app/api/agents/route.ts:35-76 | 400 and nothing written without a name or key; otherwise 201; an agent holding the key is updated in place, keeping its id, current task and creation time, and otherwise one is appended; role or null, status or idle, heartbeat and update time refreshed; the key then finds the returned row and keys stay unique |

## Left out

- Rendering, styling, drag sensors and the DOM: the board's JSX, cards, modals, pages and layout. The board logic is modelled as functions and methods over task lists.
- HTTP, `fetch` and JSON (de)serialisation: a request is a method's parameters and a response is its status code and outputs. The gateway's answers are inputs, and the patch or restart reason sent to it is an output.
- Store failures: the 500 answers on a failed query or insert, and unchecked errors on follow-up inserts. Every store operation is total.
- Concurrency: requests run one at a time and atomically. Races between polling and updates, and lost updates in the gateway read-modify-write, are not modelled.
- Authentication and the middleware: handled by an external identity provider.
- The messages route and the gateway pass-through routes: the first builds a PostgREST filter string with `ilike` patterns, the others have no logic of their own.
- Row ids are natural numbers from a counter, not uuids. Only their equality and freshness matter.
- Timestamps are integer milliseconds and wall-clock time is the parameter `now`. Invalid date strings are not modelled.
- TasksRoute.Get: "newest first" is reverse insertion order. This assumes `created_at` grows with insertion.
- NotifyRoute.Get: the pending notifications come back in insertion order, not ordered by `created_at`. The two agree only while `now` never decreases between inserts, which the model does not require.
- Store.Database.TakePending: "oldest first" is insertion order, under the same assumption about `created_at`.
- HeartbeatRoute.Post: the handed-over notifications are in insertion order, not ordered by `created_at`, under the same assumption.
- NotifyRoute.SentIsPending: "newest pending" means last inserted, which is the latest `created_at` only under the same assumption.
- NotifyRoute.Get: the notification's embedded sender name (a PostgREST join on the agents table) is not returned.
- HeartbeatRoute.Post: the returned tasks are in table order, not in the store's `order("priority")` order. That order depends on the database's column type.
- AgentsRoute.Get: names are ordered by code point, not by the database's collation.
- Types.Lower: lower-casing is ASCII only. Unicode case mapping is not modelled.
- Status, priority and agent-status values are closed enumerations. A request carrying a string outside them, which the database would reject, is not modelled, and a null status is not modelled either.
- AgentCard.EmojiFor: inherited JavaScript object keys (such as `constructor`) are not in the emoji table.
- ToolAccess.ToolAccessPanel.HandleSave: the optional `onSave` callback is modelled as the returned dictionary.
- OpenClaw.UpdateAgent: `findIndex` and the replacement run on a fresh array copy of the fetched list. That the source mutates the fetched configuration object in place is not observable afterwards and is not modelled.
