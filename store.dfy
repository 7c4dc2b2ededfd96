/** The project store: the tasks, dependencies, groups and project record
    the planner edits, the scheduler's answer cached beside them, and the
    selection state of the user interface.  Every action replaces whole
    fields, as the store's `set` does; writing to the database is not part
    of this model. */
module Store {
  import opened Types
  import opened Scheduler
  import opened ScheduleFacts

  datatype ZoomLevel = Day | Week | Month

  /** The error a failed schedule reports. */
  const CycleError := "cycle"
  const SelfDependencyError := "Cannot create self-dependency"
  const DuplicateDependencyError := "Dependency already exists"
  const CycleDependencyError := "Dependency would create a cycle"
  const DefaultGroupName := "New group"

  // ---------------------------------------------------------------------
  // The cached schedule
  // ---------------------------------------------------------------------

  /** The three fields `runScheduler` fills. */
  datatype Schedule = Schedule(computedStarts: map<string, int>, scheduleError: Option<string>, cycleTaskIds: seq<string>)

  /** The cached fields are the scheduler's answer for these tasks and
      dependencies: the effective starts when nothing is blocked, otherwise
      no starts, the cycle error and the blocked ids in task order. */
  ghost predicate Reflects(tasks: seq<Task>, deps: seq<Dependency>, s: Schedule) {
    if BlockedIds(tasks, deps) == [] then
      s.scheduleError == None && s.cycleTaskIds == [] && IsSchedule(tasks, deps, s.computedStarts)
    else
      s == Schedule(map[], Some(CycleError), BlockedIds(tasks, deps))
  }

  method RunScheduler(tasks: seq<Task>, deps: seq<Dependency>) returns (s: Schedule)
    requires DistinctIds(tasks)
    ensures Reflects(tasks, deps, s)
    ensures s.scheduleError == Some(CycleError) <==> BlockedIds(tasks, deps) != []
  {
    var result := Propagate(tasks, deps);
    match result
    case Ok(starts) =>
      s := Schedule(starts, None, []);
    case Cycle(ids) =>
      s := Schedule(map[], Some(CycleError), ids);
  }

  /** The cache is determined by the data: two schedules that both reflect
      the same tasks and dependencies are equal. */
  lemma ReflectsUnique(tasks: seq<Task>, deps: seq<Dependency>, s1: Schedule, s2: Schedule)
    requires Reflects(tasks, deps, s1) && Reflects(tasks, deps, s2)
    ensures s1 == s2
  {
    if BlockedIds(tasks, deps) == [] {
      ScheduleUnique(tasks, deps, s1.computedStarts, s2.computedStarts);
    }
  }

  // ---------------------------------------------------------------------
  // Partial updates
  // ---------------------------------------------------------------------

  /** The fields a caller may pass to `addTask` or `updateTask`; `None`
      means the key is absent. */
  datatype TaskPatch = TaskPatch(
    name: Option<string>,
    startDayIndex: Option<int>,
    durationDays: Option<int>,
    groupId: Option<string>,
    color: Option<string>,
    sortOrder: Option<real>)

  const NoTaskChange := TaskPatch(None, None, None, None, None, None)

  /** A patch touches a field the scheduler reads. */
  predicate Reschedules(p: TaskPatch) {
    p.startDayIndex.Some? || p.durationDays.Some?
  }

  /** `{ ...t, ...p }`: every field the patch carries replaces the task's. */
  function PatchTask(t: Task, p: TaskPatch): (r: Task)
    ensures r.id == t.id
    ensures !Reschedules(p) ==> r.startDayIndex == t.startDayIndex && r.durationDays == t.durationDays
  {
    Task(t.id, p.name.GetOr(t.name), p.startDayIndex.GetOr(t.startDayIndex), p.durationDays.GetOr(t.durationDays),
         if p.groupId.Some? then p.groupId else t.groupId, p.color.GetOr(t.color), p.sortOrder.GetOr(t.sortOrder))
  }

  /** Applying a patch twice is applying it once, and the empty patch
      changes nothing. */
  lemma PatchTaskLaws(t: Task, p: TaskPatch)
    ensures PatchTask(PatchTask(t, p), p) == PatchTask(t, p)
    ensures PatchTask(t, NoTaskChange) == t
  {
  }

  /** The task list with the task called `id` patched; when no task has
      that id the list is returned as it was. */
  function PatchTasks(tasks: seq<Task>, id: string, p: TaskPatch): (r: seq<Task>)
    ensures SameIds(tasks, r)
    ensures !Reschedules(p) ==> SameTiming(tasks, r)
    ensures forall i :: 0 <= i < |tasks| ==> r[i] == (if tasks[i].id == id then PatchTask(tasks[i], p) else tasks[i])
  {
    seq(|tasks|, i requires 0 <= i < |tasks| => if tasks[i].id == id then PatchTask(tasks[i], p) else tasks[i])
  }

  datatype GroupPatch = GroupPatch(name: Option<string>, collapsed: Option<bool>, sortOrder: Option<real>)

  const NoGroupChange := GroupPatch(None, None, None)

  function PatchGroup(g: Group, p: GroupPatch): (r: Group)
    ensures r.id == g.id
  {
    Group(g.id, p.name.GetOr(g.name), p.collapsed.GetOr(g.collapsed), p.sortOrder.GetOr(g.sortOrder))
  }

  lemma PatchGroupLaws(g: Group, p: GroupPatch)
    ensures PatchGroup(PatchGroup(g, p), p) == PatchGroup(g, p)
    ensures PatchGroup(g, NoGroupChange) == g
  {
  }

  function PatchGroups(groups: seq<Group>, id: string, p: GroupPatch): (r: seq<Group>)
    ensures |r| == |groups|
    ensures forall i :: 0 <= i < |groups| ==> r[i] == (if groups[i].id == id then PatchGroup(groups[i], p) else groups[i])
    ensures DistinctGroupIds(groups) ==> DistinctGroupIds(r)
  {
    seq(|groups|, i requires 0 <= i < |groups| => if groups[i].id == id then PatchGroup(groups[i], p) else groups[i])
  }

  datatype ProjectPatch = ProjectPatch(id: Option<string>, name: Option<string>, epoch: Option<string>)

  function PatchProject(pr: Project, p: ProjectPatch): (r: Project)
    ensures p.id == None ==> r.id == pr.id
  {
    Project(p.id.GetOr(pr.id), p.name.GetOr(pr.name), p.epoch.GetOr(pr.epoch))
  }

  lemma PatchProjectLaws(pr: Project, p: ProjectPatch)
    ensures PatchProject(PatchProject(pr, p), p) == PatchProject(pr, p)
    ensures PatchProject(pr, ProjectPatch(None, None, None)) == pr
  {
  }

  /** The tasks of group `id` moved out of every group; the scheduler
      does not notice. */
  function Ungroup(tasks: seq<Task>, id: string): (r: seq<Task>)
    ensures SameTiming(tasks, r)
    ensures forall t :: t in r ==> t.groupId != Some(id)
    ensures forall i :: 0 <= i < |tasks| ==> r[i] == (if tasks[i].groupId == Some(id) then tasks[i].(groupId := None) else tasks[i])
  {
    seq(|tasks|, i requires 0 <= i < |tasks| => if tasks[i].groupId == Some(id) then tasks[i].(groupId := None) else tasks[i])
  }

  // ---------------------------------------------------------------------
  // New tasks and groups
  // ---------------------------------------------------------------------

  /** `xs.reduce((max, x) => Math.max(max, x), init)`. */
  function MaxFrom(init: real, xs: seq<real>): (m: real)
    ensures m >= init
    ensures forall i :: 0 <= i < |xs| ==> m >= xs[i]
    ensures m == init || exists i :: 0 <= i < |xs| && m == xs[i]
  {
    if xs == [] then init
    else
      var n := |xs| - 1;
      var sofar := MaxFrom(init, xs[..n]);
      assert forall i :: 0 <= i < n ==> xs[..n][i] == xs[i];
      if xs[n] > sofar then xs[n] else sofar
  }

  /** One more than the largest task sort order, 0 for an empty list: a new
      task goes below every existing row. */
  function NextTaskSortOrder(tasks: seq<Task>): (r: real)
    ensures r >= 0.0
    ensures forall t :: t in tasks ==> r >= t.sortOrder + 1.0
    ensures r == 0.0 || exists t :: t in tasks && r == t.sortOrder + 1.0
  {
    var orders := seq(|tasks|, i requires 0 <= i < |tasks| => tasks[i].sortOrder);
    var m := MaxFrom(-1.0, orders);
    forall t | t in tasks ensures m >= t.sortOrder {
      var i :| 0 <= i < |tasks| && tasks[i] == t;
      assert orders[i] == t.sortOrder;
    }
    m + 1.0
  }

  function NextGroupSortOrder(groups: seq<Group>): (r: real)
    ensures r >= 0.0
    ensures forall g :: g in groups ==> r >= g.sortOrder + 1.0
    ensures r == 0.0 || exists g :: g in groups && r == g.sortOrder + 1.0
  {
    var orders := seq(|groups|, i requires 0 <= i < |groups| => groups[i].sortOrder);
    var m := MaxFrom(-1.0, orders);
    forall g | g in groups ensures m >= g.sortOrder {
      var i :| 0 <= i < |groups| && groups[i] == g;
      assert orders[i] == g.sortOrder;
    }
    m + 1.0
  }

  /** The task `addTask` creates: the defaults (today, three days, the next
      palette colour, the next sort order) overridden by the caller's
      fields. */
  function NewTask(id: string, today: int, tasks: seq<Task>, p: TaskPatch): (t: Task)
    ensures t.id == id
    ensures t.startDayIndex == p.startDayIndex.GetOr(today)
    ensures t.durationDays == p.durationDays.GetOr(DefaultTaskDuration)
    ensures t.name == p.name.GetOr(DefaultTaskName)
    ensures t.groupId == p.groupId
    ensures t.color == p.color.GetOr(ColorPalette[|tasks| % |ColorPalette|])
    ensures t.sortOrder == p.sortOrder.GetOr(NextTaskSortOrder(tasks))
    ensures p.sortOrder == None ==> forall u :: u in tasks ==> t.sortOrder > u.sortOrder
  {
    var color := ColorPalette[|tasks| % |ColorPalette|];
    PatchTask(Task(id, DefaultTaskName, today, DefaultTaskDuration, None, color, NextTaskSortOrder(tasks)), p)
  }

  function NewGroup(id: string, groups: seq<Group>, p: GroupPatch): (g: Group)
    ensures g.id == id
    ensures g.name == p.name.GetOr(DefaultGroupName)
    ensures g.collapsed == p.collapsed.GetOr(false)
    ensures g.sortOrder == p.sortOrder.GetOr(NextGroupSortOrder(groups))
    ensures p.sortOrder == None ==> forall h :: h in groups ==> g.sortOrder > h.sortOrder
  {
    PatchGroup(Group(id, DefaultGroupName, false, NextGroupSortOrder(groups)), p)
  }

  /** Tasks added without a sort order count up by one: after appending
      such a task, the next sort order is one more than its own. */
  lemma NextTaskSortOrderAfterAdd(id: string, today: int, tasks: seq<Task>, p: TaskPatch)
    requires p.sortOrder == None
    ensures var t := NewTask(id, today, tasks, p);
            NextTaskSortOrder(tasks + [t]) == t.sortOrder + 1.0
  {
    var t := NewTask(id, today, tasks, p);
    assert t in tasks + [t];
    assert forall u :: u in tasks + [t] ==> u == t || u in tasks;
  }

  /** The same counting for groups added without a sort order. */
  lemma NextGroupSortOrderAfterAdd(id: string, groups: seq<Group>, p: GroupPatch)
    requires p.sortOrder == None
    ensures var g := NewGroup(id, groups, p);
            NextGroupSortOrder(groups + [g]) == g.sortOrder + 1.0
  {
    var g := NewGroup(id, groups, p);
    assert g in groups + [g];
    assert forall h :: h in groups + [g] ==> h == g || h in groups;
  }

  /** Colours go round the palette: a task added without a colour after
      one added without a colour takes the next palette entry. */
  lemma NewTaskColorsCycle(id1: string, id2: string, today: int, tasks: seq<Task>, p1: TaskPatch, p2: TaskPatch)
    requires p1.color == None && p2.color == None
    ensures var t1 := NewTask(id1, today, tasks, p1);
            var t2 := NewTask(id2, today, tasks + [t1], p2);
            t2.color == ColorPalette[(|tasks| + 1) % |ColorPalette|]
  {
  }

  /** A task added with an id no dependency mentions starts where it was
      authored. */
  lemma FreshTaskStart(tasks: seq<Task>, deps: seq<Dependency>, t: Task, starts: map<string, int>)
    requires forall d :: d in deps ==> d.fromTaskId != t.id && d.toTaskId != t.id
    requires DistinctIds(tasks + [t])
    requires IsSchedule(tasks + [t], deps, starts)
    ensures t.id in starts && starts[t.id] == t.startDayIndex
  {
    var ts := tasks + [t];
    assert t in ts;
    ScheduleAt(ts, deps, starts, t.id);
    UnmentionedHasNoPreds(IdSet(ts), deps, t.id);
    TaskMapAt(ts, |ts| - 1);
  }

  lemma {:induction false} UnmentionedHasNoPreds(ids: set<string>, deps: seq<Dependency>, x: string)
    requires forall d :: d in deps ==> d.toTaskId != x
    ensures PredsOf(ids, deps, x) == []
  {
    if deps != [] {
      var n := |deps| - 1;
      assert deps[n] in deps;
      assert forall d :: d in deps[..n] ==> d in deps;
      UnmentionedHasNoPreds(ids, deps[..n], x);
    }
  }

  // ---------------------------------------------------------------------
  // Dependencies between the same two tasks
  // ---------------------------------------------------------------------

  /** Some dependency already runs from `from` to `to`. */
  predicate HasLink(deps: seq<Dependency>, from: string, to: string) {
    exists d :: d in deps && d.fromTaskId == from && d.toTaskId == to
  }

  predicate NoSelfLinks(deps: seq<Dependency>) {
    forall d :: d in deps ==> d.fromTaskId != d.toTaskId
  }

  /** No two dependencies join the same two tasks in the same direction. */
  predicate DistinctLinks(deps: seq<Dependency>) {
    forall i, j :: 0 <= i < j < |deps| ==>
      deps[i].fromTaskId != deps[j].fromTaskId || deps[i].toTaskId != deps[j].toTaskId
  }

  lemma {:induction false} FilterDistinctLinks(deps: seq<Dependency>, keep: Dependency -> bool)
    requires DistinctLinks(deps)
    ensures DistinctLinks(Filter(deps, keep))
  {
    if deps != [] {
      FilterDistinctLinks(deps[1..], keep);
      var rest := Filter(deps[1..], keep);
      forall d | d in rest ensures d.fromTaskId != deps[0].fromTaskId || d.toTaskId != deps[0].toTaskId {
        var j :| 0 <= j < |deps[1..]| && deps[1..][j] == d;
        assert deps[j + 1] == d;
      }
    }
  }

  lemma AppendDistinctLinks(deps: seq<Dependency>, d: Dependency)
    requires DistinctLinks(deps) && !HasLink(deps, d.fromTaskId, d.toTaskId)
    ensures DistinctLinks(deps + [d])
  {
    var r := deps + [d];
    forall i, j | 0 <= i < j < |r| ensures r[i].fromTaskId != r[j].fromTaskId || r[i].toTaskId != r[j].toTaskId {
      if j < |deps| {
        assert r[i] == deps[i] && r[j] == deps[j];
      } else {
        assert r[i] in deps && r[j] == d;
      }
    }
  }

  /** Removing a task and the dependencies touching it keeps ids unique,
      links distinct and a graph without cycles free of them. */
  lemma RemovalKeeps(tasks: seq<Task>, deps: seq<Dependency>, id: string)
    requires DistinctIds(tasks) && DistinctDependencyIds(deps)
    ensures DistinctIds(Filter(tasks, KeepTask(id)))
    ensures DistinctDependencyIds(Filter(deps, KeepDependency(id)))
    ensures DistinctLinks(deps) ==> DistinctLinks(Filter(deps, KeepDependency(id)))
    ensures BlockedIds(tasks, deps) == [] ==> BlockedIds(Filter(tasks, KeepTask(id)), Filter(deps, KeepDependency(id))) == []
  {
    var newTasks, newDeps := Filter(tasks, KeepTask(id)), Filter(deps, KeepDependency(id));
    FilterDistinctIds(tasks, KeepTask(id));
    FilterDistinctDependencyIds(deps, KeepDependency(id));
    if DistinctLinks(deps) {
      FilterDistinctLinks(deps, KeepDependency(id));
    }
    SubgraphWithin(newTasks, newDeps, tasks, deps);
    if BlockedIds(tasks, deps) == [] {
      SubgraphAcyclic(newTasks, newDeps, tasks, deps);
    }
  }

  /** Ids are unique within each list and the cached schedule is the
      scheduler's answer for the tasks and dependencies. */
  ghost predicate Consistent(tasks: seq<Task>, deps: seq<Dependency>, groups: seq<Group>, s: Schedule) {
    && DistinctIds(tasks) && DistinctDependencyIds(deps) && DistinctGroupIds(groups)
    && Reflects(tasks, deps, s)
  }

  datatype LinkResult = LinkResult(ok: bool, error: Option<string>)

  /** What `removeTask` keeps of the tasks. */
  function KeepTask(id: string): Task -> bool {
    (t: Task) => t.id != id
  }

  /** What `removeTask` keeps of the dependencies. */
  function KeepDependency(id: string): Dependency -> bool {
    (d: Dependency) => d.fromTaskId != id && d.toTaskId != id
  }

  /** What `removeDependency` keeps. */
  function KeepLink(id: string): Dependency -> bool {
    (d: Dependency) => d.id != id
  }

  /** What `removeGroup` keeps. */
  function KeepGroup(id: string): Group -> bool {
    (g: Group) => g.id != id
  }

  // ---------------------------------------------------------------------
  // The store
  // ---------------------------------------------------------------------

  class ProjectStore {
    var tasks: seq<Task>
    var dependencies: seq<Dependency>
    var groups: seq<Group>
    var project: Project
    var computedStarts: map<string, int>
    var scheduleError: Option<string>
    var cycleTaskIds: seq<string>
    var selectedTaskId: Option<string>
    var editingTaskId: Option<string>
    var linkingFromTaskId: Option<string>
    var zoomLevel: ZoomLevel
    /** Some change has been made since the store was created. */
    var saved: bool

    function Cached(): Schedule
      reads this
    {
      Schedule(computedStarts, scheduleError, cycleTaskIds)
    }

    /** Ids are unique within each list and the cache matches the data. */
    ghost predicate Valid()
      reads this
    {
      Consistent(tasks, dependencies, groups, Cached())
    }

    /** No task is on or behind a cycle. */
    ghost predicate Acyclic()
      reads this
    {
      BlockedIds(tasks, dependencies) == []
    }

    /** No dependency loops on one task and none is repeated. */
    predicate WellLinked()
      reads this
    {
      NoSelfLinks(dependencies) && DistinctLinks(dependencies)
    }

    /** An id no task has and no dependency mentions, as `nanoid` gives. */
    predicate FreshTaskId(id: string)
      reads this
    {
      && id !in IdSet(tasks)
      && forall d :: d in dependencies ==> d.fromTaskId != id && d.toTaskId != id
    }

    constructor ()
      ensures tasks == [] && dependencies == [] && groups == []
      ensures project == Project(DefaultProjectId, DefaultProjectName, ProjectEpoch)
      ensures Cached() == Schedule(map[], None, [])
      ensures selectedTaskId == None && editingTaskId == None && linkingFromTaskId == None
      ensures zoomLevel == Day && !saved
      ensures Valid() && Acyclic() && WellLinked()
    {
      tasks, dependencies, groups := [], [], [];
      project := Project(DefaultProjectId, DefaultProjectName, ProjectEpoch);
      computedStarts, scheduleError, cycleTaskIds := map[], None, [];
      selectedTaskId, editingTaskId, linkingFromTaskId := None, None, None;
      zoomLevel := Day;
      saved := false;
      BlockedIdsEmpty([], []);
    }

    /** The `set` that every editing action ends with: new data, its
        schedule, and the saved flag. */
    method Commit(newTasks: seq<Task>, newDeps: seq<Dependency>, newGroups: seq<Group>, s: Schedule)
      requires Consistent(newTasks, newDeps, newGroups, s)
      modifies this
      ensures tasks == newTasks && dependencies == newDeps && groups == newGroups && Cached() == s
      ensures Valid() && saved
      ensures project == old(project) && zoomLevel == old(zoomLevel)
      ensures selectedTaskId == old(selectedTaskId) && editingTaskId == old(editingTaskId)
      ensures linkingFromTaskId == old(linkingFromTaskId)
    {
      tasks, dependencies, groups := newTasks, newDeps, newGroups;
      computedStarts, scheduleError, cycleTaskIds := s.computedStarts, s.scheduleError, s.cycleTaskIds;
      saved := true;
    }

    method AddTask(p: TaskPatch, id: string, today: int) returns (task: Task)
      requires Valid() && FreshTaskId(id)
      modifies this
      ensures task == NewTask(id, today, old(tasks), p)
      ensures tasks == old(tasks) + [task]
      ensures Valid() && saved
      ensures Acyclic() ==> task.id in computedStarts && computedStarts[task.id] == task.startDayIndex
      ensures old(Acyclic()) ==> Acyclic()
      ensures dependencies == old(dependencies) && groups == old(groups) && project == old(project)
      ensures selectedTaskId == old(selectedTaskId) && editingTaskId == old(editingTaskId)
      ensures linkingFromTaskId == old(linkingFromTaskId) && zoomLevel == old(zoomLevel)
    {
      task := NewTask(id, today, tasks, p);
      var newTasks := tasks + [task];
      assert DistinctIds(newTasks) by {
        forall i | 0 <= i < |tasks| ensures tasks[i].id != id {
          assert tasks[i] in tasks;
        }
      }
      var s := RunScheduler(newTasks, dependencies);
      if BlockedIds(tasks, dependencies) == [] {
        FreshTaskAcyclic(tasks, dependencies, task);
      }
      if BlockedIds(newTasks, dependencies) == [] {
        FreshTaskStart(tasks, dependencies, task, s.computedStarts);
      }
      Commit(newTasks, dependencies, groups, s);
    }

    method UpdateTask(id: string, p: TaskPatch)
      requires Valid()
      modifies this
      ensures tasks == PatchTasks(old(tasks), id, p)
      ensures !Reschedules(p) ==> Cached() == old(Cached())
      ensures Valid() && saved
      ensures old(Acyclic()) ==> Acyclic()
      ensures dependencies == old(dependencies) && groups == old(groups) && project == old(project)
      ensures selectedTaskId == old(selectedTaskId) && editingTaskId == old(editingTaskId)
      ensures linkingFromTaskId == old(linkingFromTaskId) && zoomLevel == old(zoomLevel)
    {
      var newTasks := PatchTasks(tasks, id, p);
      SameIdsIdSet(tasks, newTasks);
      SameIdsBlocked(tasks, newTasks, dependencies);
      if Reschedules(p) {
        var s := RunScheduler(newTasks, dependencies);
        Commit(newTasks, dependencies, groups, s);
      } else {
        SameTimingSchedule(tasks, newTasks, dependencies, computedStarts);
        Commit(newTasks, dependencies, groups, Cached());
      }
    }

    method RemoveTask(id: string)
      requires Valid()
      modifies this
      ensures tasks == Filter(old(tasks), KeepTask(id))
      ensures dependencies == Filter(old(dependencies), KeepDependency(id))
      ensures forall t :: t in old(tasks) ==> (t in tasks <==> t.id != id)
      ensures forall d :: d in old(dependencies) ==> (d in dependencies <==> d.fromTaskId != id && d.toTaskId != id)
      ensures selectedTaskId == (if old(selectedTaskId) == Some(id) then None else old(selectedTaskId))
      ensures Valid() && saved
      ensures old(Acyclic()) ==> Acyclic()
      ensures old(WellLinked()) ==> WellLinked()
      ensures groups == old(groups) && project == old(project)
      ensures editingTaskId == old(editingTaskId) && linkingFromTaskId == old(linkingFromTaskId)
      ensures zoomLevel == old(zoomLevel)
    {
      var newTasks := Filter(tasks, KeepTask(id));
      var newDeps := Filter(dependencies, KeepDependency(id));
      RemovalKeeps(tasks, dependencies, id);
      var s := RunScheduler(newTasks, newDeps);
      if selectedTaskId == Some(id) {
        selectedTaskId := None;
      }
      Commit(newTasks, newDeps, groups, s);
    }

    /** Links `from` to `to` unless that is a self-dependency, a duplicate or
        would close a cycle; a rejected link leaves the store as it was. */
    method AddDependency(from: string, to: string, depId: string) returns (res: LinkResult)
      requires Valid()
      requires forall d :: d in dependencies ==> d.id != depId
      modifies this
      ensures from == to ==> res == LinkResult(false, Some(SelfDependencyError))
      ensures from != to && HasLink(old(dependencies), from, to) ==> res == LinkResult(false, Some(DuplicateDependencyError))
      ensures from != to && !HasLink(old(dependencies), from, to) ==>
                res == (if BlockedIds(old(tasks), old(dependencies) + [Dependency(depId, from, to)]) == []
                        then LinkResult(true, None) else LinkResult(false, Some(CycleDependencyError)))
      ensures !res.ok ==> unchanged(this)
      ensures res.ok ==> dependencies == old(dependencies) + [Dependency(depId, from, to)] && saved && Acyclic()
      ensures Valid()
      ensures old(Acyclic()) ==> Acyclic()
      ensures old(WellLinked()) ==> WellLinked()
      ensures tasks == old(tasks) && groups == old(groups) && project == old(project)
      ensures selectedTaskId == old(selectedTaskId) && editingTaskId == old(editingTaskId)
      ensures linkingFromTaskId == old(linkingFromTaskId) && zoomLevel == old(zoomLevel)
    {
      if from == to {
        return LinkResult(false, Some(SelfDependencyError));
      }
      if HasLink(dependencies, from, to) {
        return LinkResult(false, Some(DuplicateDependencyError));
      }
      var dep := Dependency(depId, from, to);
      var newDeps := dependencies + [dep];
      var s := RunScheduler(tasks, newDeps);
      if s.scheduleError == Some(CycleError) {
        return LinkResult(false, Some(CycleDependencyError));
      }
      assert DistinctDependencyIds(newDeps) by {
        forall i | 0 <= i < |dependencies| ensures dependencies[i].id != depId {
          assert dependencies[i] in dependencies;
        }
      }
      if DistinctLinks(dependencies) {
        AppendDistinctLinks(dependencies, dep);
      }
      Commit(tasks, newDeps, groups, s);
      res := LinkResult(true, None);
    }

    method RemoveDependency(id: string)
      requires Valid()
      modifies this
      ensures dependencies == Filter(old(dependencies), KeepLink(id))
      ensures forall d :: d in old(dependencies) ==> (d in dependencies <==> d.id != id)
      ensures Valid() && saved
      ensures old(Acyclic()) ==> Acyclic()
      ensures old(WellLinked()) ==> WellLinked()
      ensures tasks == old(tasks) && groups == old(groups) && project == old(project)
      ensures selectedTaskId == old(selectedTaskId) && editingTaskId == old(editingTaskId)
      ensures linkingFromTaskId == old(linkingFromTaskId) && zoomLevel == old(zoomLevel)
    {
      var newDeps := Filter(dependencies, KeepLink(id));
      FilterDistinctDependencyIds(dependencies, KeepLink(id));
      if DistinctLinks(dependencies) {
        FilterDistinctLinks(dependencies, KeepLink(id));
      }
      SubgraphWithin(tasks, newDeps, tasks, dependencies);
      if BlockedIds(tasks, dependencies) == [] {
        SubgraphAcyclic(tasks, newDeps, tasks, dependencies);
      }
      var s := RunScheduler(tasks, newDeps);
      Commit(tasks, newDeps, groups, s);
    }

    method UpdateProject(p: ProjectPatch)
      requires Valid()
      modifies this
      ensures project == PatchProject(old(project), p)
      ensures Valid() && saved
      ensures tasks == old(tasks) && dependencies == old(dependencies) && groups == old(groups)
      ensures Cached() == old(Cached())
      ensures selectedTaskId == old(selectedTaskId) && editingTaskId == old(editingTaskId)
      ensures linkingFromTaskId == old(linkingFromTaskId) && zoomLevel == old(zoomLevel)
    {
      project, saved := PatchProject(project, p), true;
    }

    method AddGroup(p: GroupPatch, id: string) returns (group: Group)
      requires Valid()
      requires forall g :: g in groups ==> g.id != id
      modifies this
      ensures group == NewGroup(id, old(groups), p)
      ensures groups == old(groups) + [group]
      ensures Valid() && saved
      ensures tasks == old(tasks) && dependencies == old(dependencies) && project == old(project)
      ensures Cached() == old(Cached())
      ensures selectedTaskId == old(selectedTaskId) && editingTaskId == old(editingTaskId)
      ensures linkingFromTaskId == old(linkingFromTaskId) && zoomLevel == old(zoomLevel)
    {
      group := NewGroup(id, groups, p);
      assert DistinctGroupIds(groups + [group]) by {
        forall i | 0 <= i < |groups| ensures groups[i].id != id {
          assert groups[i] in groups;
        }
      }
      Commit(tasks, dependencies, groups + [group], Cached());
    }

    method UpdateGroup(id: string, p: GroupPatch)
      requires Valid()
      modifies this
      ensures groups == PatchGroups(old(groups), id, p)
      ensures Valid() && saved
      ensures tasks == old(tasks) && dependencies == old(dependencies) && project == old(project)
      ensures Cached() == old(Cached())
      ensures selectedTaskId == old(selectedTaskId) && editingTaskId == old(editingTaskId)
      ensures linkingFromTaskId == old(linkingFromTaskId) && zoomLevel == old(zoomLevel)
    {
      Commit(tasks, dependencies, PatchGroups(groups, id, p), Cached());
    }

    /** Deletes the group and moves its tasks out of it; the schedule is not
        recomputed, and need not be. */
    method RemoveGroup(id: string)
      requires Valid()
      modifies this
      ensures groups == Filter(old(groups), KeepGroup(id))
      ensures tasks == Ungroup(old(tasks), id)
      ensures forall g :: g in old(groups) ==> (g in groups <==> g.id != id)
      ensures Valid() && saved
      ensures old(Acyclic()) ==> Acyclic()
      ensures dependencies == old(dependencies) && project == old(project)
      ensures Cached() == old(Cached())
      ensures selectedTaskId == old(selectedTaskId) && editingTaskId == old(editingTaskId)
      ensures linkingFromTaskId == old(linkingFromTaskId) && zoomLevel == old(zoomLevel)
    {
      var newTasks := Ungroup(tasks, id);
      FilterDistinctGroupIds(groups, KeepGroup(id));
      SameIdsIdSet(tasks, newTasks);
      SameTimingSchedule(tasks, newTasks, dependencies, computedStarts);
      Commit(newTasks, dependencies, Filter(groups, KeepGroup(id)), Cached());
    }

    method SelectTask(id: Option<string>)
      requires Valid()
      modifies this
      ensures selectedTaskId == id
      ensures Valid() && saved == old(saved)
      ensures tasks == old(tasks) && dependencies == old(dependencies) && groups == old(groups)
      ensures project == old(project) && Cached() == old(Cached())
      ensures editingTaskId == old(editingTaskId) && linkingFromTaskId == old(linkingFromTaskId)
      ensures zoomLevel == old(zoomLevel)
    {
      selectedTaskId := id;
    }

    method SetEditingTaskId(id: Option<string>)
      requires Valid()
      modifies this
      ensures editingTaskId == id
      ensures Valid() && saved == old(saved)
      ensures tasks == old(tasks) && dependencies == old(dependencies) && groups == old(groups)
      ensures project == old(project) && Cached() == old(Cached())
      ensures selectedTaskId == old(selectedTaskId) && linkingFromTaskId == old(linkingFromTaskId)
      ensures zoomLevel == old(zoomLevel)
    {
      editingTaskId := id;
    }

    method SetLinkingFromTaskId(id: Option<string>)
      requires Valid()
      modifies this
      ensures linkingFromTaskId == id
      ensures Valid() && saved == old(saved)
      ensures tasks == old(tasks) && dependencies == old(dependencies) && groups == old(groups)
      ensures project == old(project) && Cached() == old(Cached())
      ensures selectedTaskId == old(selectedTaskId) && editingTaskId == old(editingTaskId)
      ensures zoomLevel == old(zoomLevel)
    {
      linkingFromTaskId := id;
    }

    method SetZoomLevel(level: ZoomLevel)
      requires Valid()
      modifies this
      ensures zoomLevel == level
      ensures Valid() && saved == old(saved)
      ensures tasks == old(tasks) && dependencies == old(dependencies) && groups == old(groups)
      ensures project == old(project) && Cached() == old(Cached())
      ensures selectedTaskId == old(selectedTaskId) && editingTaskId == old(editingTaskId)
      ensures linkingFromTaskId == old(linkingFromTaskId)
    {
      zoomLevel := level;
    }
  }
}
