# Planline in Dafny

Planline is a browser Gantt planner. A project holds tasks, Finish-to-Start
dependencies between tasks, and groups. Each task has an authored start day
and a duration in days, and may belong to a group. The dependency "A before B"
means B cannot start before the day after A ends.

This project models four parts of Planline and proves properties about them:

- **Scheduler.** It computes every task's effective start from the
  dependencies, using Kahn's topological sort. When some tasks sit on or
  behind a cycle, it reports them instead.
- **Project store.** This is the state machine that holds the project and
  applies the editing actions. Actions that change tasks or dependencies
  re-run the scheduler and cache its result.
- **Export and import.** The exporter wraps a project in a version-1
  envelope. The import validator checks only the shape of a parsed file.
- **Sample-project generator.** It builds debug projects whose dependencies
  only point forward in task order.

Modules:

- `Types` holds the entities, the colour palette, the defaults and sequence
  helpers such as `Filter` and `Count`.
- `Scheduler` holds the scheduler as imperative methods, together with
  specification functions that do not depend on Kahn's algorithm:
  - `PredsOf` and `SuccsOf` give the adjacency that the dependencies induce.
  - `HasWalk` and `Blocked` say which tasks have predecessor walks of every
    length, i.e. sit on or behind a cycle.
  - `BlockedIds` lists the blocked tasks in input order.
  - `IsSchedule` says that each start equals the latest of the task's
    authored start and its predecessors' ends.
- `ScheduleFacts` proves that schedules are unique and respect every
  dependency. It also proves how acyclicity behaves when tasks or
  dependencies are removed, added or retimed.
- `SchedulerExamples` and `StoreExamples` restate the repository's test
  scenarios as lemmas and methods proved about the model. Every member
  of these two modules without a row below is a helper that builds or
  unfolds the small task lists, graphs and maps of those scenarios.
- `Store` holds the `ProjectStore` class and the pure helpers its actions
  use.
- `Export` holds a `Json` datatype, the exporter, the validator and the JSON
  encoding of an export.
- `SampleData` holds the generator loops and the three presets.

Every store action that changes tasks, dependencies or groups goes through
`ProjectStore.Commit`. Its precondition is the invariant `Consistent`:

- task, dependency and group ids are distinct;
- the cached `computedStarts`, `scheduleError` and `cycleTaskIds` are exactly
  what `runScheduler` gives for the current tasks and dependencies.

The scheduler skips a dependency when either endpoint is not a supplied task
(src/domain/scheduler.ts:44); `Scheduler.Kept` encodes that test.

## Model

| member | source | states |
|---|---|---|
| Scheduler.TaskEnd | src/domain/scheduler.ts:7-10 | The end day minus the start is the duration; a task of at least one day ends after it starts. |
| Scheduler.Kept | src/domain/scheduler.ts:44 | Defines the test of scheduler.ts:44: both ends must be supplied tasks. Its effect is stated by `Scheduler.DanglingIgnored` (a dependency with a missing end changes no list) and `Scheduler.PredsOfSource` (every predecessor comes from a kept dependency). |
| Scheduler.PredsOf | src/domain/scheduler.ts:42-49 | The predecessor list of a task names only supplied tasks. |
| Scheduler.SuccsOf | src/domain/scheduler.ts:42-49 | The successor list of a task names only supplied tasks. |
| Scheduler.PredsOfSource | src/domain/scheduler.ts:44-46 | Every listed predecessor comes from a kept dependency into that task. |
| Scheduler.PredsSuccsAgree | src/domain/scheduler.ts:46-47 | `f` occurs among `t`'s predecessors exactly as often as `t` occurs among `f`'s successors. |
| Scheduler.DanglingIgnored | src/domain/scheduler.ts:44 | A dependency with a missing endpoint changes no predecessor or successor list. |
| Scheduler.BlockedAmong | src/domain/scheduler.ts:73-78 | The listed ids are exactly the blocked tasks of the list, in list order. |
| Scheduler.BlockedIdsEmpty | src/domain/scheduler.ts:73-74 | No task is reported exactly when no task is blocked. |
| Scheduler.TaskMapOf | src/domain/scheduler.ts:23-26 | The id map has exactly the tasks' ids as keys, and each maps to a task with that id. |
| Scheduler.TaskMapAt | src/domain/scheduler.ts:23-26 | With distinct ids, each task is what the map holds for its id. |
| Scheduler.LatestEnd | src/domain/scheduler.ts:89-98 | The latest end is at least the authored start and at least every predecessor's end. |
| Scheduler.LatestEndAttained | src/domain/scheduler.ts:89-98 | The latest end is the authored start or one predecessor's end. |
| Scheduler.LatestEndDependsOnPreds | src/domain/scheduler.ts:91-97 | The latest end depends only on the predecessors' starts and durations. |
| Scheduler.BuildGraph | src/domain/scheduler.ts:22-49 | The built maps cover every task. Each task's predecessors, successors and in-degree are those of the kept dependencies. |
| Scheduler.BuildTaskMap | src/domain/scheduler.ts:23-26 | The loop builds the id map of the tasks. |
| Scheduler.EmptyAdjacency | src/domain/scheduler.ts:34-39 | Every task starts with empty lists and in-degree 0. |
| Scheduler.AddEdges | src/domain/scheduler.ts:41-49 | After the loop, the adjacency is that of all kept dependencies. |
| Scheduler.SkipEdge | src/domain/scheduler.ts:44 | Skipping a dependency with a missing endpoint preserves the adjacency invariant. |
| Scheduler.AddEdge | src/domain/scheduler.ts:46-48 | Pushing one kept dependency's endpoints and incrementing the in-degree extends the invariant by that dependency. |
| Scheduler.AdjacencyStep | src/domain/scheduler.ts:42-49 | One more dependency adds its endpoints to exactly the two lists it names. |
| Scheduler.PendingNone | src/domain/scheduler.ts:48 | Before anything is sorted, the pending count is the in-degree. |
| Scheduler.PendingMarkDone | src/domain/scheduler.ts:64-66 | Sorting a task lowers each successor's pending count by the number of edges from it. |
| Scheduler.PendingZero | src/domain/scheduler.ts:67 | The pending count is zero exactly when every predecessor is sorted. |
| Scheduler.SeedQueue | src/domain/scheduler.ts:52-57 | The seeded queue is duplicate-free and holds exactly the tasks with in-degree 0. |
| Scheduler.TopologicalOrder | src/domain/scheduler.ts:59-71 | The sorted ids are distinct supplied tasks and at most as many as the tasks. Every sorted task's predecessors are sorted before it. Every unsorted task has an unsorted predecessor. |
| Scheduler.KahnStep | src/domain/scheduler.ts:60-70 | One dequeue appends the queue head to the sorted list and keeps the queue, in-degree and prefix invariants. |
| Scheduler.DequeueStep | src/domain/scheduler.ts:61-62 | Moving the queue head to the sorted list keeps that list a topological prefix. |
| Scheduler.ReleaseSuccessors | src/domain/scheduler.ts:64-70 | After the successor loop, each in-degree has dropped by its edges from the dequeued task. A task is queued exactly when its in-degree reaches 0. |
| Scheduler.ReleaseOne | src/domain/scheduler.ts:65-69 | One decrement keeps the counts and the queue-membership invariant. |
| Scheduler.ReleaseCounts | src/domain/scheduler.ts:65-66 | A decremented in-degree was at least 1 and now counts one edge fewer. |
| Scheduler.ReleaseMembership | src/domain/scheduler.ts:67-69 | A task enters the queue exactly when its in-degree becomes 0, and it enters once. |
| Scheduler.PrefixExtend | src/domain/scheduler.ts:61-62 | A task whose predecessors are all sorted may be appended to a topological prefix. |
| Scheduler.PlacedHasShortWalks | src/domain/scheduler.ts:59-71 | A task at position i of a topological prefix has no predecessor walk longer than i. |
| Scheduler.UnplacedHasAllWalks | src/domain/scheduler.ts:73-78 | A task Kahn never dequeues has predecessor walks of every length. |
| Scheduler.KahnLeavesOutBlocked | src/domain/scheduler.ts:73-78 | A task is left unsorted exactly when it is blocked by a cycle. |
| Scheduler.UnplacedIsBlocked | src/domain/scheduler.ts:75-78 | Filtering the tasks by "not sorted" gives the blocked ids in input order. |
| Scheduler.SettledStays | src/domain/scheduler.ts:100 | Setting another task's start keeps a settled start settled. |
| Scheduler.EffectiveStart | src/domain/scheduler.ts:89-98 | The loop that raises `effectiveStart` computes the latest of the authored start and the predecessors' ends. |
| Scheduler.ComputeStarts | src/domain/scheduler.ts:82-101 | Walking a full topological order produces a schedule: one start per task, each the latest of its authored start and its predecessors' ends. Every `starts` lookup there is defined. |
| Scheduler.SettleNext | src/domain/scheduler.ts:85-100 | Settling the next sorted task keeps every earlier one settled. |
| Scheduler.SettledIsSchedule | src/domain/scheduler.ts:83-103 | Settled starts for every task make a schedule. |
| Scheduler.Propagate | src/domain/scheduler.ts:21-104 | The result is `ok` exactly when no task is blocked. Then the starts are a schedule; otherwise the reported ids are the blocked tasks in input order. |
| ScheduleFacts.PredsOfComplete | src/domain/scheduler.ts:46 | Every kept dependency contributes its source to its target's predecessors. |
| ScheduleFacts.PredsWithin | src/domain/scheduler.ts:42-49 | A subgraph's predecessor is also a predecessor in the larger graph. |
| ScheduleFacts.WalkWithin | src/domain/scheduler.ts:42-49 | A walk in a subgraph is a walk in the larger graph. |
| ScheduleFacts.BlockedWithin | src/domain/scheduler.ts:73-78 | A task blocked in a subgraph is blocked in the larger graph. |
| ScheduleFacts.SubgraphAcyclic | src/domain/scheduler.ts:73-78 | A subgraph of a cycle-free graph is cycle-free. |
| ScheduleFacts.SubgraphWithin | src/domain/scheduler.ts:44 | Fewer tasks and dependencies keep at most the kept dependencies of the larger graph. |
| ScheduleFacts.FreshTaskAcyclic | src/store/useProjectStore.ts:108-109 | Adding a task that no dependency mentions creates no cycle. |
| ScheduleFacts.RankBoundsWalks | src/domain/scheduler.ts:59-71 | If every kept dependency raises a rank, then no walk is longer than the rank. |
| ScheduleFacts.RankedAcyclic | src/domain/scheduler.ts:73-80 | A graph whose dependencies all raise a rank has no cycle, so the scheduler returns `ok`. |
| ScheduleFacts.SelfFeedingWalks | src/domain/scheduler.ts:73-78 | Every task in a set where each member has a predecessor in the set has walks of every length. |
| ScheduleFacts.SelfFeedingBlocked | src/domain/scheduler.ts:73-78 | Such a task is blocked. |
| ScheduleFacts.DownstreamBlocked | src/domain/scheduler.ts:73-78 | A successor of a blocked task is blocked. |
| ScheduleFacts.BackEdgeBlocks | src/store/useProjectStore.ts:186-190 | Adding the reverse of a kept dependency makes the scheduler report a cycle. |
| ScheduleFacts.SchedulesAgreeBelow | src/domain/scheduler.ts:83-101 | Two schedules agree on every task without a walk of length k. |
| ScheduleFacts.SchedulesAgreeStep | src/domain/scheduler.ts:85-100 | Agreement on shorter walks extends to a task of walk depth k. |
| ScheduleFacts.ScheduleAt | src/domain/scheduler.ts:85-100 | A schedule has each task and its predecessors, and each start is their latest end. |
| ScheduleFacts.ScheduleUnique | src/domain/scheduler.ts:82-103 | Without cycles there is exactly one schedule, so the starts do not depend on the queue order. |
| ScheduleFacts.ScheduleNeverEarly | src/domain/scheduler.ts:89-100 | No task is scheduled before its authored start. |
| ScheduleFacts.ScheduleRespectsDependencies | src/domain/scheduler.ts:91-97 | Every kept dependency is respected: the target starts no earlier than the source ends. |
| ScheduleFacts.SameIdsIdSet | src/store/useProjectStore.ts:123 | Lists with the same ids position by position have the same id set, and one has distinct ids iff the other does. |
| ScheduleFacts.SameIdsBlockedAmong | src/domain/scheduler.ts:75-78 | The blocked-id filter depends only on the ids. |
| ScheduleFacts.SameIdsBlocked | src/domain/scheduler.ts:73-78 | Lists with the same ids have the same blocked tasks. |
| ScheduleFacts.SameTimingTaskMap | src/domain/scheduler.ts:23-26 | Lists with the same ids, starts and durations have id maps with the same keys and timing. |
| ScheduleFacts.SameTimingTaskMapAt | src/domain/scheduler.ts:23-26 | For one id, the two maps hold tasks of the same timing. |
| ScheduleFacts.ScheduleTransfers | src/store/useProjectStore.ts:125-141 | A schedule of one list is a schedule of any list with the same timing. |
| ScheduleFacts.SameTimingSchedule | src/store/useProjectStore.ts:125-141 | Changing anything but ids and timing changes neither the cycle report nor the schedule. |
| SchedulerExamples.StartNoPreds | src/domain/__tests__/scheduler.test.ts:67-73 | In a schedule, a task without predecessors starts at its authored start. |
| SchedulerExamples.FreeExample | src/domain/__tests__/scheduler.test.ts:16-20 | Without dependencies, A and B keep starts 0 and 5. |
| SchedulerExamples.ChainExample | src/domain/__tests__/scheduler.test.ts:22-33 | A(0,3) -> B(0,2) -> C(0,1) gives starts 0, 3, 5. |
| SchedulerExamples.ResizeExample | src/domain/__tests__/scheduler.test.ts:34-44 | Lengthening A to 5 days shifts B to 5 and C to 7. |
| SchedulerExamples.MoveExample | src/domain/__tests__/scheduler.test.ts:45-56 | Moving A to day 10 gives 10, 13, 15. |
| SchedulerExamples.JoinExample | src/domain/__tests__/scheduler.test.ts:57-66 | D after both A and X starts at the later end, 7. |
| SchedulerExamples.LoneExample | src/domain/__tests__/scheduler.test.ts:67-73 | An unconnected task stays at its start, 20. |
| SchedulerExamples.LaterStartExample | src/domain/__tests__/scheduler.test.ts:74-80 | A successor authored later than its predecessor's end keeps its own start, 100. |
| SchedulerExamples.LoopExample | src/domain/__tests__/scheduler.test.ts:83-96 | A -> B -> A reports the cycle [A, B]. |
| SchedulerExamples.KnotExample | src/domain/__tests__/scheduler.test.ts:97-110 | A -> B with B <-> C reports [B, C]; the dequeued A is excluded. |
| SchedulerExamples.NoCycleExample | src/domain/__tests__/scheduler.test.ts:112-118 | A chain is reported `ok`. |
| SchedulerExamples.TaskEndExample | src/domain/__tests__/scheduler.test.ts:120-124 | A task starting on day 5 for 3 days ends at day 8. |
| SchedulerExamples.ExpectStarts | src/domain/scheduler.ts:82-103 | On a cycle-free graph with one possible schedule, the scheduler returns it. |
| SchedulerExamples.ExpectCycle | src/domain/scheduler.ts:73-80 | On a graph with blocked tasks, the scheduler reports exactly them. |
| SchedulerExamples.LoopBlocked | src/domain/__tests__/scheduler.test.ts:83-96 | In A <-> B both tasks are blocked, in input order. |
| SchedulerExamples.KnotBlocked | src/domain/__tests__/scheduler.test.ts:97-110 | Only B and C are blocked. |
| Store.RunScheduler | src/store/useProjectStore.ts:47-62 | On `ok` the cache is the schedule with no error and no cycle ids. On a cycle it is no starts, error `"cycle"` and the reported ids. The error is set exactly when some task is blocked. |
| Store.ReflectsUnique | src/store/useProjectStore.ts:47-62 | The cached fields are determined by the tasks and dependencies alone. |
| Store.Reschedules | src/store/useProjectStore.ts:126-127 | Defines `needsReschedule`: the partial gives a start or a duration. Its effect is stated by `Store.ProjectStore.UpdateTask`, whose cache is unchanged when it does not hold. |
| Store.PatchTask | src/store/useProjectStore.ts:123 | Merging a partial task keeps the id, and keeps the timing unless start or duration is given. |
| Store.PatchTaskLaws | src/store/useProjectStore.ts:123 | Merging twice equals merging once; the empty partial changes nothing. |
| Store.PatchTasks | src/store/useProjectStore.ts:123 | Only the task with the given id is merged, the rest are unchanged. The ids stay position-wise equal, and so does the timing when no scheduling field is given. |
| Store.PatchGroup | src/store/useProjectStore.ts:251 | Merging a partial group keeps its id. |
| Store.PatchGroupLaws | src/store/useProjectStore.ts:251 | Merging twice equals merging once; the empty partial changes nothing. |
| Store.PatchGroups | src/store/useProjectStore.ts:251 | Only the matching group is merged, and distinct group ids stay distinct. |
| Store.PatchProject | src/store/useProjectStore.ts:218 | The project id stays unless the partial sets it. |
| Store.PatchProjectLaws | src/store/useProjectStore.ts:218 | Merging twice equals merging once; the empty partial changes nothing. |
| Store.Ungroup | src/store/useProjectStore.ts:265-267 | Exactly the tasks of the group lose their `groupId`. No task remains in it, and ids and timing are unchanged. |
| Store.MaxFrom | src/store/useProjectStore.ts:95 | The fold is an upper bound of the initial value and of every element, and equals one of them. |
| Store.NextTaskSortOrder | src/store/useProjectStore.ts:95-104 | The next task sort order is at least 0 and at least one more than every existing one, and it is 0 or one more than an existing one; so it is the larger of 0 and the maximum plus one. |
| Store.NextGroupSortOrder | src/store/useProjectStore.ts:230-236 | The same rule for groups: the larger of 0 and the maximum group sort order plus one. |
| Store.NewTask | src/store/useProjectStore.ts:93-106 | The new task has the fresh id. Each field is the partial's when given, and otherwise the default: name "New task", start today, duration 3, no group, the palette colour at index `|tasks| mod 10`, and the next task sort order, which puts it after every task. |
| Store.NewGroup | src/store/useProjectStore.ts:228-238 | The new group has the fresh id. Each field is the partial's when given, and otherwise the default: name "New group", expanded, and the next group sort order, which puts it after every group. |
| Store.NextTaskSortOrderAfterAdd | src/store/useProjectStore.ts:95-104 | After a task added without a sort order, the next sort order is one more than that task's. |
| Store.NextGroupSortOrderAfterAdd | src/store/useProjectStore.ts:230-236 | After a group added without a sort order, the next sort order is one more than that group's. |
| Store.NewTaskColorsCycle | src/store/useProjectStore.ts:96-103 | Two tasks added in a row without a colour take consecutive palette entries, wrapping after the tenth. |
| Store.FreshTaskStart | src/store/useProjectStore.ts:108-109 | In a schedule, a task no dependency mentions starts at its authored start. |
| Store.UnmentionedHasNoPreds | src/domain/scheduler.ts:42-49 | A task no dependency points to has no predecessors. |
| Store.HasLink | src/store/useProjectStore.ts:176-178 | Defines the duplicate test: some dependency already runs from the source to the target. Its effect is stated by `Store.ProjectStore.AddDependency`, which refuses such a link as a duplicate and leaves the state unchanged. |
| Store.KeepTask | src/store/useProjectStore.ts:149 | Defines the task filter of `removeTask`: another id. Its effect is stated by `Store.ProjectStore.RemoveTask`, which keeps an old task exactly when its id differs. |
| Store.KeepDependency | src/store/useProjectStore.ts:150-152 | Defines the dependency filter of `removeTask`: neither end is the removed task. Its effect is stated by `Store.ProjectStore.RemoveTask`, which keeps an old dependency exactly when it touches neither end. |
| Store.KeepLink | src/store/useProjectStore.ts:204 | Defines the filter of `removeDependency`: another id. Its effect is stated by `Store.ProjectStore.RemoveDependency`, which keeps an old dependency exactly when its id differs. |
| Store.KeepGroup | src/store/useProjectStore.ts:264 | Defines the filter of `removeGroup`: another id. Its effect is stated by `Store.ProjectStore.RemoveGroup`, which keeps an old group exactly when its id differs. |
| Store.FilterDistinctLinks | src/store/useProjectStore.ts:150-152 | Filtering keeps the (from, to) pairs distinct. |
| Store.AppendDistinctLinks | src/store/useProjectStore.ts:176-184 | Appending a pair that is not present keeps the pairs distinct. |
| Store.RemovalKeeps | src/store/useProjectStore.ts:147-153 | Removing a task and its dependencies keeps ids distinct, pairs distinct and the graph cycle-free. |
| Store.ProjectStore.constructor | src/store/useProjectStore.ts:64-81 | The initial state: no data, the default project, an empty schedule, nothing selected, day zoom, not saved. |
| Store.ProjectStore.Commit | src/store/useProjectStore.ts:111-115 | Writes the new data and a consistent schedule, marks the project saved, and leaves the project and interface fields alone. |
| Store.ProjectStore.AddTask | src/store/useProjectStore.ts:93-119 | Appends the new task and re-runs the scheduler. Without cycles the new task starts at its authored start. A cycle-free project stays cycle-free. |
| Store.ProjectStore.UpdateTask | src/store/useProjectStore.ts:121-145 | Merges the partial into the task with that id. Without a scheduling field the cached schedule is untouched. |
| Store.ProjectStore.RemoveTask | src/store/useProjectStore.ts:147-165 | Removes the task and every dependency touching it, keeping the order of the rest. Clears the selection only if it was that task. Keeps the project cycle-free and its pairs distinct. |
| Store.ProjectStore.AddDependency | src/store/useProjectStore.ts:167-200 | Rejects self-links, then existing pairs, then links that would close a cycle, each with its message and no state change. Otherwise appends the one new dependency and re-schedules. |
| Store.ProjectStore.RemoveDependency | src/store/useProjectStore.ts:202-214 | Removes exactly the dependencies with that id and re-schedules. |
| Store.ProjectStore.UpdateProject | src/store/useProjectStore.ts:216-226 | Merges the partial into the project; everything else is unchanged. |
| Store.ProjectStore.AddGroup | src/store/useProjectStore.ts:228-247 | Appends the new group; tasks and schedule are unchanged. |
| Store.ProjectStore.UpdateGroup | src/store/useProjectStore.ts:249-260 | Merges the partial into the group with that id. |
| Store.ProjectStore.RemoveGroup | src/store/useProjectStore.ts:262-282 | Deletes the group and ungroups its tasks; the cached schedule stays correct without re-running. |
| Store.ProjectStore.SelectTask | src/store/useProjectStore.ts:284-286 | Sets only the selection. |
| Store.ProjectStore.SetEditingTaskId | src/store/useProjectStore.ts:288-290 | Sets only the editing task. |
| Store.ProjectStore.SetLinkingFromTaskId | src/store/useProjectStore.ts:292-294 | Sets only the link source. |
| Store.ProjectStore.SetZoomLevel | src/store/useProjectStore.ts:296-298 | Sets only the zoom level. |
| StoreExamples.CycleRejected | src/store/__tests__/useProjectStore.test.ts:39-54 | Linking A to B succeeds; linking B back to A is refused as a cycle, and one dependency remains. |
| StoreExamples.RemoveCascades | src/store/__tests__/useProjectStore.test.ts:106-129 | Removing the selected task A keeps only B, drops the dependency A -> B and clears the selection. |
| Export.TypeOf | src/db/export.ts:28 | `typeof` is `"object"` exactly for null, arrays and objects. |
| Export.Truthy | src/db/export.ts:28 | Arrays and objects are truthy and null is not. |
| Export.Member | src/db/export.ts:29-35 | Defines a property read `d.key`: a value only on an object holding the key. Its effect is stated by `Export.ValidateImportData`, whose characterisation reads the fields directly. |
| Export.IsArray | src/db/export.ts:30-32 | An array is also truthy and of type `object`, so it would pass the object guard too. |
| Export.IsObjectValue | src/db/export.ts:33 | The guard accepts exactly objects and arrays; `null` is refused although its type is `object`. |
| Export.IsStringValue | src/db/export.ts:35 | The guard accepts exactly strings. |
| Export.ValidateImportData | src/db/export.ts:27-37 | Accepted exactly when the data is an object whose three lists are arrays and whose project is an object with string id and name. |
| Export.BuildExportData | src/db/export.ts:12-25 | Version 1 with all four parts passed through, and the encoded result always passes the validator. |
| Export.TaskJson | src/db/export.ts:12-25 | A task's JSON has a `groupId` key exactly when the task has a group. |
| Export.NonObjectRejected | src/db/export.ts:28 | Null and every non-object are refused. |
| Export.MissingListRejected | src/db/export.ts:30-32 | A missing or non-array list is refused. |
| Export.BadProjectRejected | src/db/export.ts:33-35 | A project without a string id or name is refused. |
| Export.ElementsIgnored | src/db/export.ts:36 | Replacing the list elements or adding keys keeps a valid file valid. |
| Export.ExportValidates | src/db/export.ts:12-37 | Every encoded export passes the validator. |
| Export.ValidatorExamples | src/db/__tests__/export.test.ts:22-39 | The empty envelope is accepted; null, `{}`, a file without project and a partial file are refused. |
| SampleData.TaskNamesShape | src/ui/components/debug/sampleData.ts:13-110 | The fallback category exists and every category has ten names. |
| SampleData.NamesFor | src/ui/components/debug/sampleData.ts:148 | Every group, known category or not, gets a list of ten names. |
| SampleData.BuildGroups | src/ui/components/debug/sampleData.ts:133-141 | Group i has the i-th id, name `pool[i mod |pool|]`, is expanded and has sort order i. |
| SampleData.SampleTask | src/ui/components/debug/sampleData.ts:146-159 | Task i has the i-th id, group `i mod |groups|`, palette colour `i mod 10` and sort order i. With a bounded draw, its start is within [baseline-5, baseline+20] and its duration within [1, 15]. |
| SampleData.SampleTaskNamed | src/ui/components/debug/sampleData.ts:147-153 | Task i is named from its group's category. |
| SampleData.BuildTasks | src/ui/components/debug/sampleData.ts:144-160 | The loop produces exactly the tasks `SampleTask` describes. |
| SampleData.BuildDependencies | src/ui/components/debug/sampleData.ts:163-182 | At most `depCount` dependencies in at most `5 depCount` attempts, and at least one when `depCount > 0`, because the first draw always yields a new forward pair. Each goes from an earlier to a later task, and no index pair repeats. |
| SampleData.AddForward | src/ui/components/debug/sampleData.ts:175-181 | Appends the forward dependency with the next id and keeps pairs distinct. |
| SampleData.IndexOf | src/ui/components/debug/sampleData.ts:163 | The position of an id, if any, holds a task with that id. |
| SampleData.IndexOfAt | src/ui/components/debug/sampleData.ts:163 | With distinct ids, a task's id is found at its own position. |
| SampleData.ForwardAcyclic | src/ui/components/debug/sampleData.ts:162-182 | Dependencies that only point forward never form a cycle, so the scheduler returns `ok`. |
| SampleData.ForwardWellFormed | src/ui/components/debug/sampleData.ts:169-181 | Forward dependencies join two distinct generated tasks, never repeat a pair, and have distinct ids when the ids are distinct. |
| SampleData.SampleProjectName | src/ui/components/debug/sampleData.ts:186 | The name is "Sample Project (" then the label then ")", so the label can be read back. |
| SampleData.BuildProject | src/ui/components/debug/sampleData.ts:122-191 | Counts, at least one dependency when any are requested, group and task shapes, timing ranges, the project `default` named after the label, and a well-formed cycle-free project. |
| SampleData.SampleTasksFit | src/ui/components/debug/sampleData.ts:144-160 | Every generated task has a palette colour, timing in range and an existing group. |
| SampleData.SampleIdsDistinct | src/ui/components/debug/sampleData.ts:136-152 | Distinct fresh ids give distinct group and task ids. |
| SampleData.GenerateSmallProject | src/ui/components/debug/sampleData.ts:193-195 | 2 groups, 8 tasks, between 1 and 5 dependencies, labelled Small, well formed. |
| SampleData.GenerateMediumProject | src/ui/components/debug/sampleData.ts:197-199 | 5 groups, 30 tasks, between 1 and 20 dependencies, labelled Medium, well formed. |
| SampleData.GenerateLargeProject | src/ui/components/debug/sampleData.ts:201-203 | 10 groups, 100 tasks, between 1 and 60 dependencies, labelled Large, well formed. |

## Left out

- Persistence is not modelled. This covers every `repo.*` call, `hydrate`
  and `isLoaded`, `importProject` and the IndexedDB layer. These are
  asynchronous I/O, so `saved` only records that a write would follow.
- `lastSavedAt` is a boolean `saved`, because the clock is outside the model.
- `todayDayIndex()` is the parameter `today` of `AddTask` and `baseline` of
  `BuildProject`, because the calendar is outside the model.
- `nanoid()` is replaced by fresh ids passed as parameters. The store
  actions require that such an id is not already in use. The generator
  requires distinct id lists.
- `Math.random` is a `Draw`: the k-th integer draw for a range. Only the
  bound is assumed, via `Bounded`. Task names are opaque strings.
- The generator's `"from-to"` string keys are modelled as integer pairs.
  The two are equivalent, because the key is injective on index pairs.
- Floating point is not modelled. Sort orders are `real`, and day indices and
  durations are unbounded integers, so no rounding or overflow is modelled.
- React components, hooks, layout maths and keyboard handling are not part
  of this model.
- Scheduler.Propagate: requires distinct task ids. The source does not check
  this, but its map collapses duplicate ids while the cycle test still
  counts list entries. The store keeps ids distinct, as fresh ids do.
- Scheduler.Propagate: only `BlockedIds` is stated, not the FIFO order in
  which the queue dequeues tasks. That order cannot be observed: starts are
  unique (`ScheduleFacts.ScheduleUnique`) and cycle ids keep input order.
- Store.PatchTask: a partial task cannot carry an `id` or clear a `groupId`
  to `undefined`, because no caller in the repository does either. A key
  given with the value `undefined` is modelled as absent.
- Store.PatchGroup: a partial group carries no `id`, so `addGroup` and
  `updateGroup` never replace a group's id. No caller passes one
  (src/ui/components/Sidebar.tsx:39, src/ui/components/SidebarGroupRow.tsx:19-32).
- Store.ProjectStore.AddTask: a partial has no `id`, so the new task always
  keeps the fresh id.
- Store.ProjectStore.UpdateProject: a partial may replace the project id,
  as the source's spread allows, and the model keeps that.
- SampleData.GenerateMediumProject: the test at
  src/ui/components/debug/__tests__/sampleData.test.ts:75 expects at least 10
  dependencies. That holds only with high probability: a draw that repeats
  one index pair on every attempt yields a single dependency, so the model
  promises at least 1.
- SampleData.GenerateLargeProject: the test at
  src/ui/components/debug/__tests__/sampleData.test.ts:86 expects at least 30
  dependencies, which likewise holds only with high probability; the model
  promises at least 1.
- SampleData.BuildProject: requires `groupCount > 0` when there are tasks,
  and `taskCount >= 2` when dependencies are requested. In those cases the
  source indexes past the end of `groups` or `tasks` and crashes. The
  presets satisfy both.
- Export: the import tests in src/db/__tests__/export.test.ts:22-78 read
  `.valid` off the result, and those at :41-78 also read `.error` and expect
  element-level checks, so they expect a `{ valid, error }` result.
  src/db/export.ts:27-37 returns only a boolean and never looks inside the
  lists; read literally, `.valid` of a boolean is `undefined`. The model
  follows the code. `Export.ValidatorExamples` reads the cases of :22-39 as
  the boolean itself, and `Export.ElementsIgnored` states that the elements
  are never inspected.
