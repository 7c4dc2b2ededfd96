/** The debug generator of sample projects: groups named from a pool,
    tasks spread over the groups round-robin with random starts and
    durations, and random dependencies that only ever point forward in
    task order, so the result never holds a cycle. */
module SampleData {
  import opened Types
  import opened Scheduler
  import opened ScheduleFacts
  import opened Store

  /** Ten task names per category. */
  const TaskNames: map<string, seq<string>> := map[
    "Design" := ["User research interviews", "Design mockups", "Design system audit", "Wireframe review",
                 "Visual polish pass", "Icon & asset export", "Accessibility review", "Prototype walkthrough",
                 "Color palette refinement", "Typography selection"],
    "Backend" := ["Database schema design", "API endpoint scaffolding", "Authentication service",
                  "Rate limiter middleware", "Data migration script", "Cache layer setup", "Logging infrastructure",
                  "Background job queue", "REST → GraphQL adapter", "Webhook handler"],
    "Frontend" := ["Component library setup", "Routing & navigation", "Form validation logic",
                   "State management wiring", "Responsive layout pass", "Dark mode support", "Error boundary setup",
                   "Loading skeleton screens", "Animations & transitions", "Search autocomplete widget"],
    "QA" := ["QA test plan", "Regression test suite", "Smoke tests", "Performance benchmarks",
             "Cross-browser testing", "Mobile device testing", "Accessibility audit", "Edge-case coverage",
             "Load testing", "Security scan"],
    "DevOps" := ["CI/CD pipeline setup", "Docker containerization", "Staging env provisioning",
                 "SSL certificate config", "Monitoring dashboards", "Alerting rules", "CDN configuration",
                 "Backup & restore drill", "Infrastructure as code", "Log aggregation setup"],
    "Planning" := ["Sprint planning", "Backlog grooming", "Stakeholder demo", "Retrospective", "Roadmap review",
                   "Risk assessment", "Capacity planning", "Release checklist", "Kick-off meeting",
                   "Post-mortem analysis"],
    "Data" := ["ETL pipeline design", "Data warehouse modeling", "Analytics dashboard", "Report generation",
               "Data quality checks", "A/B test setup", "Metrics instrumentation", "Data retention policy",
               "ML model training run", "Feature flag rollout"],
    "Mobile" := ["Push notification setup", "Offline sync logic", "App store submission", "Deep linking config",
                 "Crash reporting setup", "Gesture navigation", "Biometric auth flow", "In-app purchase flow",
                 "App performance audit", "Tablet layout adaptation"]
  ]

  /** The category lists the three presets draw group names from. */
  const GroupPools: seq<seq<string>> := [
    ["Design", "Backend", "Frontend", "QA", "DevOps"],
    ["Planning", "Design", "Backend", "Frontend", "QA", "DevOps", "Data"],
    ["Planning", "Design", "Backend", "Frontend", "QA", "DevOps", "Data", "Mobile", "Design", "Backend"]
  ]

  const FallbackCategory := "Frontend"
  const SampleProjectId := "default"

  datatype SampleProject = SampleProject(
    tasks: seq<Task>,
    groups: seq<Group>,
    dependencies: seq<Dependency>,
    project: Project)

  lemma TaskNamesShape()
    ensures FallbackCategory in TaskNames
    ensures forall c :: c in TaskNames ==> |TaskNames[c]| == 10
  {
  }

  /** The names used for a group: its category's list, or the fallback
      category's when the group name is not a category. */
  function NamesFor(groupName: string): (names: seq<string>)
    ensures |names| == 10
  {
    TaskNamesShape();
    if groupName in TaskNames then TaskNames[groupName] else TaskNames[FallbackCategory]
  }

  /** `randomInt(min, max)`: the `k`-th draw from a source of random
      integers.  A bounded source stays within `[min, max]`. */
  type Draw = (int, int, nat) -> int

  ghost predicate Bounded(draw: Draw) {
    forall lo: int, hi: int, k: nat :: lo <= hi ==> lo <= draw(lo, hi, k) <= hi
  }

  // ---------------------------------------------------------------------
  // Groups and tasks
  // ---------------------------------------------------------------------

  method BuildGroups(groupCount: nat, pool: seq<string>, ids: seq<string>) returns (groups: seq<Group>)
    requires |pool| > 0 && |ids| == groupCount
    ensures |groups| == groupCount
    ensures forall i :: 0 <= i < groupCount ==> groups[i] == Group(ids[i], pool[i % |pool|], false, i as real)
  {
    groups := [];
    for i := 0 to groupCount
      invariant |groups| == i
      invariant forall j :: 0 <= j < i ==> groups[j] == Group(ids[j], pool[j % |pool|], false, j as real)
    {
      groups := groups + [Group(ids[i], pool[i % |pool|], false, i as real)];
    }
  }

  /** Task `i` as the generator makes it: in group `i mod |groups|`, named
      from that group's list, coloured round the palette, and started and
      sized by the draws `2i` and `2i + 1`. */
  function SampleTask(groups: seq<Group>, ids: seq<string>, baseline: int, draw: Draw, i: nat): (t: Task)
    requires |groups| > 0 && i < |ids|
    ensures t.id == ids[i] && t.groupId == Some(groups[i % |groups|].id)
    ensures t.color == ColorPalette[i % |ColorPalette|] && t.sortOrder == i as real
    ensures Bounded(draw) ==> baseline - 5 <= t.startDayIndex <= baseline + 20 && 1 <= t.durationDays <= 15
  {
    var group := groups[i % |groups|];
    var names := NamesFor(group.name);
    Task(ids[i], names[(i / |groups|) % |names|], baseline + draw(-5, 20, 2 * i), draw(1, 15, 2 * i + 1),
         Some(group.id), ColorPalette[i % |ColorPalette|], i as real)
  }

  /** Each task is named from its group's category. */
  lemma SampleTaskNamed(groups: seq<Group>, ids: seq<string>, baseline: int, draw: Draw, i: nat)
    requires |groups| > 0 && i < |ids|
    ensures SampleTask(groups, ids, baseline, draw, i).name in NamesFor(groups[i % |groups|].name)
  {
  }

  method BuildTasks(taskCount: nat, groups: seq<Group>, ids: seq<string>, baseline: int, draw: Draw)
    returns (tasks: seq<Task>)
    requires taskCount == 0 || |groups| > 0
    requires |ids| == taskCount
    ensures |tasks| == taskCount
    ensures forall i :: 0 <= i < taskCount ==> tasks[i] == SampleTask(groups, ids, baseline, draw, i)
  {
    tasks := [];
    for i := 0 to taskCount
      invariant |tasks| == i
      invariant forall j :: 0 <= j < i ==> tasks[j] == SampleTask(groups, ids, baseline, draw, j)
    {
      tasks := tasks + [SampleTask(groups, ids, baseline, draw, i)];
    }
  }

  // ---------------------------------------------------------------------
  // Forward dependencies
  // ---------------------------------------------------------------------

  /** Dependency `j` has id `ids[j]` and joins the tasks at the index pair
      `pairs[j]`, which points forward. */
  ghost predicate Forward(tasks: seq<Task>, ids: seq<string>, deps: seq<Dependency>, pairs: seq<(int, int)>) {
    && |pairs| == |deps| <= |ids|
    && forall j :: 0 <= j < |deps| ==>
         && 0 <= pairs[j].0 < pairs[j].1 < |tasks|
         && deps[j] == Dependency(ids[j], tasks[pairs[j].0].id, tasks[pairs[j].1].id)
  }

  ghost predicate DistinctPairs(pairs: seq<(int, int)>) {
    forall i, j :: 0 <= i < j < |pairs| ==> pairs[i] != pairs[j]
  }

  /** Draws index pairs until `depCount` dependencies exist or `5 depCount`
      attempts have been made, skipping a pair drawn before.  The pair set
      plays the part of the source's `"from-to"` string keys. */
  method BuildDependencies(tasks: seq<Task>, depCount: nat, ids: seq<string>, draw: Draw, k0: nat)
    returns (deps: seq<Dependency>, attempts: nat, ghost pairs: seq<(int, int)>)
    requires Bounded(draw)
    requires depCount == 0 || |tasks| >= 2
    requires |ids| >= depCount
    ensures |deps| <= depCount && attempts <= 5 * depCount
    ensures depCount > 0 ==> |deps| >= 1
    ensures Forward(tasks, ids, deps, pairs) && DistinctPairs(pairs)
  {
    deps, attempts, pairs := [], 0, [];
    var used: set<(int, int)> := {};
    var maxAttempts := depCount * 5;
    while |deps| < depCount && attempts < maxAttempts
      invariant |deps| <= depCount && attempts <= maxAttempts
      invariant attempts > 0 ==> |deps| >= 1
      invariant Forward(tasks, ids, deps, pairs) && DistinctPairs(pairs)
      invariant forall p :: p in used <==> p in pairs
      decreases maxAttempts - attempts
    {
      var k := k0 + 2 * attempts;
      attempts := attempts + 1;
      var fromIdx := draw(0, |tasks| - 2, k);
      var toIdx := draw(fromIdx + 1, |tasks| - 1, k + 1);
      if (fromIdx, toIdx) !in used {
        used := used + {(fromIdx, toIdx)};
        deps, pairs := AddForward(tasks, ids, deps, pairs, fromIdx, toIdx);
      }
    }
  }

  method AddForward(tasks: seq<Task>, ids: seq<string>, deps0: seq<Dependency>, ghost pairs0: seq<(int, int)>,
                    fromIdx: int, toIdx: int)
    returns (deps: seq<Dependency>, ghost pairs: seq<(int, int)>)
    requires Forward(tasks, ids, deps0, pairs0) && DistinctPairs(pairs0)
    requires |deps0| < |ids|
    requires 0 <= fromIdx < toIdx < |tasks| && (fromIdx, toIdx) !in pairs0
    ensures deps == deps0 + [Dependency(ids[|deps0|], tasks[fromIdx].id, tasks[toIdx].id)]
    ensures pairs == pairs0 + [(fromIdx, toIdx)]
    ensures Forward(tasks, ids, deps, pairs) && DistinctPairs(pairs)
  {
    deps := deps0 + [Dependency(ids[|deps0|], tasks[fromIdx].id, tasks[toIdx].id)];
    pairs := pairs0 + [(fromIdx, toIdx)];
    forall i, j | 0 <= i < j < |pairs| ensures pairs[i] != pairs[j] {
      if j == |pairs0| {
        assert pairs[i] in pairs0;
      } else {
        assert pairs[i] == pairs0[i] && pairs[j] == pairs0[j];
      }
    }
  }

  /** The position of the first task with id `x`, `|tasks|` if none. */
  function IndexOf(tasks: seq<Task>, x: string): (r: nat)
    ensures r <= |tasks|
    ensures r < |tasks| ==> tasks[r].id == x
  {
    if tasks == [] then 0
    else if tasks[0].id == x then 0
    else 1 + IndexOf(tasks[1..], x)
  }

  lemma {:induction false} IndexOfAt(tasks: seq<Task>, i: nat)
    requires DistinctIds(tasks) && i < |tasks|
    ensures IndexOf(tasks, tasks[i].id) == i
  {
    if i > 0 {
      assert tasks[0].id != tasks[i].id;
      assert tasks[1..][i - 1] == tasks[i];
      IndexOfAt(tasks[1..], i - 1);
    }
  }

  /** Dependencies that all point forward in task order leave no task
      blocked: the scheduler succeeds on every generated project. */
  lemma ForwardAcyclic(tasks: seq<Task>, ids: seq<string>, deps: seq<Dependency>, pairs: seq<(int, int)>)
    requires DistinctIds(tasks) && Forward(tasks, ids, deps, pairs)
    ensures BlockedIds(tasks, deps) == []
  {
    var rank := (x: string) => IndexOf(tasks, x);
    forall d | d in deps && Kept(IdSet(tasks), d) ensures rank(d.fromTaskId) < rank(d.toTaskId) {
      var j :| 0 <= j < |deps| && deps[j] == d;
      IndexOfAt(tasks, pairs[j].0);
      IndexOfAt(tasks, pairs[j].1);
    }
    RankedAcyclic(tasks, deps, rank);
  }

  /** Forward dependencies join two generated tasks, never loop on one, and
      are never repeated; with distinct ids their ids are distinct too. */
  lemma ForwardWellFormed(tasks: seq<Task>, ids: seq<string>, deps: seq<Dependency>, pairs: seq<(int, int)>)
    requires DistinctIds(tasks) && Forward(tasks, ids, deps, pairs) && DistinctPairs(pairs)
    ensures forall d :: d in deps ==> Kept(IdSet(tasks), d)
    ensures NoSelfLinks(deps) && DistinctLinks(deps)
    ensures Distinct(ids) ==> DistinctDependencyIds(deps)
  {
    forall d | d in deps ensures Kept(IdSet(tasks), d) && d.fromTaskId != d.toTaskId {
      var j :| 0 <= j < |deps| && deps[j] == d;
      assert tasks[pairs[j].0] in tasks && tasks[pairs[j].1] in tasks;
    }
  }

  // ---------------------------------------------------------------------
  // Whole projects
  // ---------------------------------------------------------------------

  /** What the generator promises of every project it builds: unique ids,
      palette colours, tasks in existing groups, dependencies between two
      distinct generated tasks, no repeated link, and no cycle. */
  ghost predicate WellFormedSample(sp: SampleProject) {
    && DistinctIds(sp.tasks) && DistinctGroupIds(sp.groups) && DistinctDependencyIds(sp.dependencies)
    && (forall t :: t in sp.tasks ==> t.color in ColorPalette)
    && (forall t :: t in sp.tasks ==> t.groupId.Some? && exists g :: g in sp.groups && g.id == t.groupId.value)
    && (forall d :: d in sp.dependencies ==> Kept(IdSet(sp.tasks), d))
    && NoSelfLinks(sp.dependencies) && DistinctLinks(sp.dependencies)
    && BlockedIds(sp.tasks, sp.dependencies) == []
  }

  /** The project name carries the preset label, which can be read back. */
  function SampleProjectName(presetLabel: string): (r: string)
    ensures |r| == |presetLabel| + 17
    ensures r[..16] == "Sample Project (" && r[|r| - 1] == ')'
    ensures r[16..|r| - 1] == presetLabel
  {
    "Sample Project (" + presetLabel + ")"
  }

  method BuildProject(groupCount: nat, taskCount: nat, depCount: nat, presetLabel: string, poolIndex: nat,
                      baseline: int, draw: Draw, groupIds: seq<string>, taskIds: seq<string>, depIds: seq<string>)
    returns (sp: SampleProject)
    requires poolIndex < |GroupPools|
    requires taskCount == 0 || groupCount > 0
    requires depCount == 0 || taskCount >= 2
    requires Bounded(draw)
    requires |groupIds| == groupCount && |taskIds| == taskCount && |depIds| >= depCount
    requires Distinct(groupIds) && Distinct(taskIds) && Distinct(depIds)
    ensures |sp.groups| == groupCount && |sp.tasks| == taskCount && |sp.dependencies| <= depCount
    ensures depCount > 0 ==> |sp.dependencies| >= 1
    ensures forall i :: 0 <= i < groupCount ==> sp.groups[i] == Group(groupIds[i], GroupPools[poolIndex][i % |GroupPools[poolIndex]|], false, i as real)
    ensures forall i :: 0 <= i < taskCount ==> sp.tasks[i] == SampleTask(sp.groups, taskIds, baseline, draw, i)
    ensures forall t :: t in sp.tasks ==> baseline - 5 <= t.startDayIndex <= baseline + 20 && 1 <= t.durationDays <= 15
    ensures sp.project == Project(SampleProjectId, SampleProjectName(presetLabel), ProjectEpoch)
    ensures WellFormedSample(sp)
  {
    var pool := GroupPools[poolIndex];
    var groups := BuildGroups(groupCount, pool, groupIds);
    var tasks := BuildTasks(taskCount, groups, taskIds, baseline, draw);
    var deps, attempts, pairs := BuildDependencies(tasks, depCount, depIds, draw, 2 * taskCount);
    sp := SampleProject(tasks, groups, deps, Project(SampleProjectId, SampleProjectName(presetLabel), ProjectEpoch));
    SampleIdsDistinct(groups, groupIds, tasks, taskIds);
    ForwardAcyclic(tasks, depIds, deps, pairs);
    ForwardWellFormed(tasks, depIds, deps, pairs);
    SampleTasksFit(groups, tasks, taskIds, baseline, draw);
  }

  /** Every generated task has a palette colour, belongs to a generated
      group, and has a start and duration within the draw ranges. */
  lemma SampleTasksFit(groups: seq<Group>, tasks: seq<Task>, ids: seq<string>, baseline: int, draw: Draw)
    requires Bounded(draw)
    requires |tasks| == |ids| && (|tasks| == 0 || |groups| > 0)
    requires forall i :: 0 <= i < |tasks| ==> tasks[i] == SampleTask(groups, ids, baseline, draw, i)
    ensures forall t :: t in tasks ==>
      && t.color in ColorPalette && baseline - 5 <= t.startDayIndex <= baseline + 20 && 1 <= t.durationDays <= 15
      && t.groupId.Some? && exists g :: g in groups && g.id == t.groupId.value
  {
    forall t | t in tasks
      ensures t.color in ColorPalette && baseline - 5 <= t.startDayIndex <= baseline + 20 && 1 <= t.durationDays <= 15
      ensures t.groupId.Some? && exists g :: g in groups && g.id == t.groupId.value
    {
      var i :| 0 <= i < |tasks| && tasks[i] == t;
      assert groups[i % |groups|] in groups;
    }
  }

  lemma SampleIdsDistinct(groups: seq<Group>, groupIds: seq<string>, tasks: seq<Task>, taskIds: seq<string>)
    requires |groups| == |groupIds| && forall i :: 0 <= i < |groups| ==> groups[i].id == groupIds[i]
    requires |tasks| == |taskIds| && forall i :: 0 <= i < |tasks| ==> tasks[i].id == taskIds[i]
    requires Distinct(groupIds) && Distinct(taskIds)
    ensures DistinctGroupIds(groups) && DistinctIds(tasks)
  {
  }

  /** The three presets of the debug menu. */
  method GenerateSmallProject(baseline: int, draw: Draw, groupIds: seq<string>, taskIds: seq<string>, depIds: seq<string>)
    returns (sp: SampleProject)
    requires Bounded(draw)
    requires |groupIds| == 2 && |taskIds| == 8 && |depIds| >= 5
    requires Distinct(groupIds) && Distinct(taskIds) && Distinct(depIds)
    ensures |sp.groups| == 2 && |sp.tasks| == 8 && 1 <= |sp.dependencies| <= 5
    ensures sp.project == Project(SampleProjectId, SampleProjectName("Small"), ProjectEpoch)
    ensures WellFormedSample(sp)
  {
    sp := BuildProject(2, 8, 5, "Small", 0, baseline, draw, groupIds, taskIds, depIds);
  }

  method GenerateMediumProject(baseline: int, draw: Draw, groupIds: seq<string>, taskIds: seq<string>, depIds: seq<string>)
    returns (sp: SampleProject)
    requires Bounded(draw)
    requires |groupIds| == 5 && |taskIds| == 30 && |depIds| >= 20
    requires Distinct(groupIds) && Distinct(taskIds) && Distinct(depIds)
    ensures |sp.groups| == 5 && |sp.tasks| == 30 && 1 <= |sp.dependencies| <= 20
    ensures sp.project == Project(SampleProjectId, SampleProjectName("Medium"), ProjectEpoch)
    ensures WellFormedSample(sp)
  {
    sp := BuildProject(5, 30, 20, "Medium", 1, baseline, draw, groupIds, taskIds, depIds);
  }

  method GenerateLargeProject(baseline: int, draw: Draw, groupIds: seq<string>, taskIds: seq<string>, depIds: seq<string>)
    returns (sp: SampleProject)
    requires Bounded(draw)
    requires |groupIds| == 10 && |taskIds| == 100 && |depIds| >= 60
    requires Distinct(groupIds) && Distinct(taskIds) && Distinct(depIds)
    ensures |sp.groups| == 10 && |sp.tasks| == 100 && 1 <= |sp.dependencies| <= 60
    ensures sp.project == Project(SampleProjectId, SampleProjectName("Large"), ProjectEpoch)
    ensures WellFormedSample(sp)
  {
    sp := BuildProject(10, 100, 60, "Large", 2, baseline, draw, groupIds, taskIds, depIds);
  }
}
