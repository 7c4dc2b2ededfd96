/** Finish-to-Start propagation: given tasks and dependencies, compute each
    task's effective start day, or report the tasks that sit on or behind a
    cycle.  `Propagate` follows the source's four phases (graph building,
    Kahn's sort, cycle report, forward walk); the ghost definitions below it
    say what the answer is without reference to the algorithm. */
module Scheduler {
  import opened Types

  datatype ScheduleResult = Ok(starts: map<string, int>) | Cycle(taskIds: seq<string>)

  /** The day index of the first day after a task that starts on `start`
      and lasts `duration` days. */
  function TaskEnd(start: int, duration: int): (r: int)
    ensures r - start == duration
    ensures duration >= 1 ==> r > start
  {
    start + duration
  }

  // ---------------------------------------------------------------------
  // The dependency graph as the scheduler sees it
  // ---------------------------------------------------------------------

  /** A dependency takes part in scheduling only when both of its ends are
      among the supplied tasks; a self-dependency on a supplied task is
      not skipped here. */
  predicate Kept(ids: set<string>, d: Dependency) {
    d.fromTaskId in ids && d.toTaskId in ids
  }

  /** The predecessor list of `t`: the `fromTaskId` of every kept dependency
      into `t`, in dependency order and with repetitions. */
  function PredsOf(ids: set<string>, deps: seq<Dependency>, t: string): (ps: seq<string>)
    ensures forall p :: p in ps ==> p in ids
  {
    if deps == [] then []
    else
      var d := deps[|deps| - 1];
      PredsOf(ids, deps[..|deps| - 1], t) + (if Kept(ids, d) && d.toTaskId == t then [d.fromTaskId] else [])
  }

  /** The successor list of `f`: the `toTaskId` of every kept dependency out
      of `f`, in dependency order and with repetitions. */
  function SuccsOf(ids: set<string>, deps: seq<Dependency>, f: string): (ss: seq<string>)
    ensures forall s :: s in ss ==> s in ids
  {
    if deps == [] then []
    else
      var d := deps[|deps| - 1];
      SuccsOf(ids, deps[..|deps| - 1], f) + (if Kept(ids, d) && d.fromTaskId == f then [d.toTaskId] else [])
  }

  /** Every entry of a predecessor list comes from a kept dependency. */
  lemma {:induction false} PredsOfSource(ids: set<string>, deps: seq<Dependency>, t: string, p: string)
    requires p in PredsOf(ids, deps, t)
    ensures exists d :: d in deps && Kept(ids, d) && d.toTaskId == t && d.fromTaskId == p
  {
    var n := |deps| - 1;
    var d := deps[n];
    if Kept(ids, d) && d.toTaskId == t && d.fromTaskId == p {
      assert d in deps;
    } else {
      PredsOfSource(ids, deps[..n], t, p);
      var e :| e in deps[..n] && Kept(ids, e) && e.toTaskId == t && e.fromTaskId == p;
      assert e in deps;
    }
  }

  /** `f` occurs in the predecessor list of `t` as often as `t` occurs in
      the successor list of `f`: both count the kept dependencies f -> t. */
  lemma {:induction false} PredsSuccsAgree(ids: set<string>, deps: seq<Dependency>, f: string, t: string)
    ensures Count(PredsOf(ids, deps, t), f) == Count(SuccsOf(ids, deps, f), t)
  {
    if deps != [] {
      var n := |deps| - 1;
      PredsSuccsAgree(ids, deps[..n], f, t);
      var d := deps[n];
      if Kept(ids, d) && d.toTaskId == t {
        assert PredsOf(ids, deps, t) == PredsOf(ids, deps[..n], t) + [d.fromTaskId];
        CountAppend(PredsOf(ids, deps[..n], t), d.fromTaskId, f);
      } else {
        assert PredsOf(ids, deps, t) == PredsOf(ids, deps[..n], t);
      }
      if Kept(ids, d) && d.fromTaskId == f {
        assert SuccsOf(ids, deps, f) == SuccsOf(ids, deps[..n], f) + [d.toTaskId];
        CountAppend(SuccsOf(ids, deps[..n], f), d.toTaskId, t);
      } else {
        assert SuccsOf(ids, deps, f) == SuccsOf(ids, deps[..n], f);
      }
    }
  }

  /** A dependency with a missing end contributes nothing, wherever it sits. */
  lemma {:induction false} DanglingIgnored(ids: set<string>, before: seq<Dependency>, d: Dependency, after: seq<Dependency>, x: string)
    requires !Kept(ids, d)
    ensures PredsOf(ids, before + [d] + after, x) == PredsOf(ids, before + after, x)
    ensures SuccsOf(ids, before + [d] + after, x) == SuccsOf(ids, before + after, x)
    decreases |after|
  {
    if after == [] {
      assert before + [d] + after == before + [d];
      assert (before + [d])[..|before|] == before;
      assert before + after == before;
    } else {
      var n := |after| - 1;
      DanglingIgnored(ids, before, d, after[..n], x);
      assert (before + [d] + after)[..|before + [d] + after| - 1] == before + [d] + after[..n];
      assert (before + after)[..|before + after| - 1] == before + after[..n];
    }
  }

  // ---------------------------------------------------------------------
  // Cycles, stated without the algorithm
  // ---------------------------------------------------------------------

  /** There is a chain of `k` predecessor steps leading back from `x`. */
  predicate HasWalk(ids: set<string>, deps: seq<Dependency>, x: string, k: nat)
    decreases k
  {
    k == 0 || exists p :: p in PredsOf(ids, deps, x) && HasWalk(ids, deps, p, k - 1)
  }

  /** `x` lies on a cycle or downstream of one: predecessor chains leading
      back from it never run out. */
  ghost predicate Blocked(ids: set<string>, deps: seq<Dependency>, x: string) {
    forall k: nat :: HasWalk(ids, deps, x, k)
  }

  /** The ids of the blocked tasks among `ts`, in the order of `ts`. */
  ghost function BlockedAmong(ids: set<string>, deps: seq<Dependency>, ts: seq<Task>): (r: seq<string>)
    ensures forall i :: 0 <= i < |ts| ==> (ts[i].id in r <==> Blocked(ids, deps, ts[i].id))
    ensures forall x :: x in r ==> Blocked(ids, deps, x) && exists t :: t in ts && t.id == x
  {
    if ts == [] then []
    else
      var rest := BlockedAmong(ids, deps, ts[1..]);
      assert forall i :: 1 <= i < |ts| ==> ts[i] == ts[1..][i - 1];
      (if Blocked(ids, deps, ts[0].id) then [ts[0].id] else []) + rest
  }

  /** The ids a failed schedule reports, in input order. */
  ghost function BlockedIds(tasks: seq<Task>, deps: seq<Dependency>): seq<string> {
    BlockedAmong(IdSet(tasks), deps, tasks)
  }

  lemma BlockedIdsEmpty(tasks: seq<Task>, deps: seq<Dependency>)
    ensures BlockedIds(tasks, deps) == [] <==> forall t :: t in tasks ==> !Blocked(IdSet(tasks), deps, t.id)
  {
    var r := BlockedIds(tasks, deps);
    if r != [] {
      assert Blocked(IdSet(tasks), deps, r[0]);
      assert r[0] in IdSet(tasks);
    }
  }

  // ---------------------------------------------------------------------
  // Effective starts, stated without the algorithm
  // ---------------------------------------------------------------------

  /** The ids of `tasks` mapped to the tasks, a later task replacing an
      earlier one with the same id. */
  function TaskMapOf(tasks: seq<Task>): (m: map<string, Task>)
    ensures m.Keys == IdSet(tasks)
    ensures forall id :: id in m ==> m[id] in tasks && m[id].id == id
  {
    if tasks == [] then map[]
    else
      var n := |tasks| - 1;
      var m := TaskMapOf(tasks[..n]);
      assert tasks == tasks[..n] + [tasks[n]];
      m[tasks[n].id := tasks[n]]
  }

  lemma TaskMapAt(tasks: seq<Task>, i: int)
    requires DistinctIds(tasks) && 0 <= i < |tasks|
    ensures tasks[i].id in TaskMapOf(tasks) && TaskMapOf(tasks)[tasks[i].id] == tasks[i]
  {
    var m := TaskMapOf(tasks);
    assert tasks[i] in tasks;
    assert tasks[i].id in m;
    var j :| 0 <= j < |tasks| && tasks[j] == m[tasks[i].id];
  }

  /** The latest of `base` and the ends of the tasks in `preds`: the earliest
      day a task authored at `base` may start once all of them are done. */
  function LatestEnd(base: int, preds: seq<string>, starts: map<string, int>, taskMap: map<string, Task>): (e: int)
    requires forall p :: p in preds ==> p in starts && p in taskMap
    ensures e >= base
    ensures forall p :: p in preds ==> e >= TaskEnd(starts[p], taskMap[p].durationDays)
  {
    if preds == [] then base
    else
      var n := |preds| - 1;
      var sofar := LatestEnd(base, preds[..n], starts, taskMap);
      assert preds == preds[..n] + [preds[n]];
      var end := TaskEnd(starts[preds[n]], taskMap[preds[n]].durationDays);
      if end > sofar then end else sofar
  }

  /** The latest end is attained: it is `base` or the end of one of the
      listed tasks. */
  lemma {:induction false} LatestEndAttained(base: int, preds: seq<string>, starts: map<string, int>, taskMap: map<string, Task>)
    requires forall p :: p in preds ==> p in starts && p in taskMap
    ensures var e := LatestEnd(base, preds, starts, taskMap);
      e == base || exists p :: p in preds && e == TaskEnd(starts[p], taskMap[p].durationDays)
  {
    if preds != [] {
      var n := |preds| - 1;
      assert preds == preds[..n] + [preds[n]];
      LatestEndAttained(base, preds[..n], starts, taskMap);
    }
  }

  /** LatestEnd reads only the starts and durations of the listed tasks. */
  lemma {:induction false} LatestEndDependsOnPreds(base: int, preds: seq<string>, s1: map<string, int>, s2: map<string, int>,
                                                  m1: map<string, Task>, m2: map<string, Task>)
    requires forall p :: p in preds ==> p in s1 && p in m1 && p in s2 && p in m2
    requires forall p :: p in preds ==> s1[p] == s2[p] && m1[p].durationDays == m2[p].durationDays
    ensures LatestEnd(base, preds, s1, m1) == LatestEnd(base, preds, s2, m2)
  {
    if preds != [] {
      var n := |preds| - 1;
      assert preds == preds[..n] + [preds[n]];
      LatestEndDependsOnPreds(base, preds[..n], s1, s2, m1, m2);
    }
  }

  /** `starts` is a schedule for the tasks: it names every task and gives
      each the latest of its authored start and its predecessors' ends. */
  ghost predicate IsSchedule(tasks: seq<Task>, deps: seq<Dependency>, starts: map<string, int>) {
    && starts.Keys == IdSet(tasks)
    && forall t {:trigger StartFits(tasks, deps, starts, t)} :: t in tasks ==> StartFits(tasks, deps, starts, t)
  }

  /** `t` starts at the latest of its authored start and the ends of its
      predecessors. */
  ghost predicate StartFits(tasks: seq<Task>, deps: seq<Dependency>, starts: map<string, int>, t: Task) {
    var ids := IdSet(tasks);
    && t.id in starts
    && (forall p :: p in PredsOf(ids, deps, t.id) ==> p in starts)
    && starts[t.id] == LatestEnd(t.startDayIndex, PredsOf(ids, deps, t.id), starts, TaskMapOf(tasks))
  }

  // ---------------------------------------------------------------------
  // The algorithm
  // ---------------------------------------------------------------------

  /** Phase 1: the task map and, for every task, its predecessor list, its
      successor list and its in-degree. */
  method BuildGraph(tasks: seq<Task>, deps: seq<Dependency>)
    returns (taskMap: map<string, Task>, predecessors: map<string, seq<string>>,
             successors: map<string, seq<string>>, inDegree: map<string, int>)
    ensures taskMap == TaskMapOf(tasks)
    ensures predecessors.Keys == IdSet(tasks) && successors.Keys == IdSet(tasks) && inDegree.Keys == IdSet(tasks)
    ensures forall id {:trigger predecessors[id]} {:trigger successors[id]} {:trigger inDegree[id]} :: id in IdSet(tasks) ==>
              && predecessors[id] == PredsOf(IdSet(tasks), deps, id)
              && successors[id] == SuccsOf(IdSet(tasks), deps, id)
              && inDegree[id] == |PredsOf(IdSet(tasks), deps, id)|
  {
    taskMap := BuildTaskMap(tasks);
    predecessors, successors, inDegree := EmptyAdjacency(tasks);
    predecessors, successors, inDegree := AddEdges(IdSet(tasks), taskMap, deps, predecessors, successors, inDegree);
  }

  method BuildTaskMap(tasks: seq<Task>) returns (taskMap: map<string, Task>)
    ensures taskMap == TaskMapOf(tasks)
  {
    taskMap := map[];
    for k := 0 to |tasks|
      invariant taskMap == TaskMapOf(tasks[..k])
    {
      assert tasks[..k + 1][..k] == tasks[..k];
      taskMap := taskMap[tasks[k].id := tasks[k]];
    }
    assert tasks[..|tasks|] == tasks;
  }

  /** Every task starts with no predecessors, no successors and in-degree 0. */
  method EmptyAdjacency(tasks: seq<Task>)
    returns (predecessors: map<string, seq<string>>, successors: map<string, seq<string>>, inDegree: map<string, int>)
    ensures Adjacency(IdSet(tasks), [], predecessors, successors, inDegree)
  {
    predecessors, successors, inDegree := map[], map[], map[];
    for k := 0 to |tasks|
      invariant predecessors.Keys == IdSet(tasks[..k]) && successors.Keys == IdSet(tasks[..k]) && inDegree.Keys == IdSet(tasks[..k])
      invariant forall id :: id in predecessors ==> predecessors[id] == [] && successors[id] == [] && inDegree[id] == 0
    {
      assert IdSet(tasks[..k + 1]) == IdSet(tasks[..k]) + {tasks[k].id} by {
        assert tasks[..k + 1] == tasks[..k] + [tasks[k]];
      }
      var id := tasks[k].id;
      predecessors := predecessors[id := []];
      successors := successors[id := []];
      inDegree := inDegree[id := 0];
    }
    assert tasks[..|tasks|] == tasks;
  }

  /** `predecessors`, `successors` and `inDegree` describe the kept
      dependencies among `deps`. */
  ghost predicate Adjacency(ids: set<string>, deps: seq<Dependency>, predecessors: map<string, seq<string>>,
                            successors: map<string, seq<string>>, inDegree: map<string, int>) {
    && predecessors.Keys == ids && successors.Keys == ids && inDegree.Keys == ids
    && (forall id {:trigger predecessors[id]} :: id in ids ==> predecessors[id] == PredsOf(ids, deps, id))
    && (forall id {:trigger successors[id]} :: id in ids ==> successors[id] == SuccsOf(ids, deps, id))
    && (forall id {:trigger inDegree[id]} :: id in ids ==> inDegree[id] == |PredsOf(ids, deps, id)|)
  }

  /** Records every dependency whose two ends are tasks; the others are
      skipped. */
  method AddEdges(ghost ids: set<string>, taskMap: map<string, Task>, deps: seq<Dependency>,
                  predecessors0: map<string, seq<string>>, successors0: map<string, seq<string>>, inDegree0: map<string, int>)
    returns (predecessors: map<string, seq<string>>, successors: map<string, seq<string>>, inDegree: map<string, int>)
    requires taskMap.Keys == ids
    requires Adjacency(ids, [], predecessors0, successors0, inDegree0)
    ensures Adjacency(ids, deps, predecessors, successors, inDegree)
  {
    predecessors, successors, inDegree := predecessors0, successors0, inDegree0;
    assert deps[..0] == [];
    for k := 0 to |deps|
      invariant Adjacency(ids, deps[..k], predecessors, successors, inDegree)
    {
      var dep := deps[k];
      if !(dep.fromTaskId in taskMap) || !(dep.toTaskId in taskMap) {
        SkipEdge(ids, deps, k, predecessors, successors, inDegree);
        continue;
      }
      AddEdge(ids, deps, k, predecessors, successors, inDegree);
      predecessors := predecessors[dep.toTaskId := predecessors[dep.toTaskId] + [dep.fromTaskId]];
      successors := successors[dep.fromTaskId := successors[dep.fromTaskId] + [dep.toTaskId]];
      inDegree := inDegree[dep.toTaskId := inDegree[dep.toTaskId] + 1];
    }
    assert deps[..|deps|] == deps;
  }

  lemma SkipEdge(ids: set<string>, deps: seq<Dependency>, k: nat, predecessors: map<string, seq<string>>,
                 successors: map<string, seq<string>>, inDegree: map<string, int>)
    requires k < |deps| && !Kept(ids, deps[k])
    requires Adjacency(ids, deps[..k], predecessors, successors, inDegree)
    ensures Adjacency(ids, deps[..k + 1], predecessors, successors, inDegree)
  {
    AdjacencyStep(ids, deps, k);
  }

  lemma AddEdge(ids: set<string>, deps: seq<Dependency>, k: nat, predecessors: map<string, seq<string>>,
                successors: map<string, seq<string>>, inDegree: map<string, int>)
    requires k < |deps| && Kept(ids, deps[k])
    requires Adjacency(ids, deps[..k], predecessors, successors, inDegree)
    ensures var d := deps[k];
      Adjacency(ids, deps[..k + 1],
                predecessors[d.toTaskId := predecessors[d.toTaskId] + [d.fromTaskId]],
                successors[d.fromTaskId := successors[d.fromTaskId] + [d.toTaskId]],
                inDegree[d.toTaskId := inDegree[d.toTaskId] + 1])
  {
    AdjacencyStep(ids, deps, k);
  }

  /** The adjacency lists of one more dependency extend those of the
      shorter prefix by its ends, when it is kept. */
  lemma AdjacencyStep(ids: set<string>, deps: seq<Dependency>, k: nat)
    requires k < |deps|
    ensures forall id {:trigger PredsOf(ids, deps[..k + 1], id)} :: PredsOf(ids, deps[..k + 1], id)
              == PredsOf(ids, deps[..k], id) + (if Kept(ids, deps[k]) && deps[k].toTaskId == id then [deps[k].fromTaskId] else [])
    ensures forall id {:trigger SuccsOf(ids, deps[..k + 1], id)} :: SuccsOf(ids, deps[..k + 1], id)
              == SuccsOf(ids, deps[..k], id) + (if Kept(ids, deps[k]) && deps[k].fromTaskId == id then [deps[k].toTaskId] else [])
  {
    assert deps[..k + 1][..k] == deps[..k] && deps[..k + 1][k] == deps[k];
  }

  /** How many entries of `ps` are not yet in `done`. */
  function Pending(ps: seq<string>, done: seq<string>): nat {
    if ps == [] then 0 else (if ps[0] in done then 0 else 1) + Pending(ps[1..], done)
  }

  lemma {:induction false} PendingNone(ps: seq<string>)
    ensures Pending(ps, []) == |ps|
  {
    if ps != [] {
      PendingNone(ps[1..]);
    }
  }

  /** Marking `x` done removes exactly its occurrences from the count. */
  lemma {:induction false} PendingMarkDone(ps: seq<string>, done: seq<string>, x: string)
    requires x !in done
    ensures Pending(ps, done) == Pending(ps, done + [x]) + Count(ps, x)
  {
    if ps != [] {
      PendingMarkDone(ps[1..], done, x);
      assert ps == [ps[0]] + ps[1..];
    }
  }

  lemma {:induction false} PendingZero(ps: seq<string>, done: seq<string>)
    ensures Pending(ps, done) == 0 <==> forall p :: p in ps ==> p in done
  {
    if ps != [] {
      PendingZero(ps[1..], done);
      assert forall p :: p in ps <==> p == ps[0] || p in ps[1..];
    }
  }

  /** Every entry of `order` has all its predecessors earlier in `order`. */
  ghost predicate TopologicalPrefix(ids: set<string>, deps: seq<Dependency>, order: seq<string>) {
    forall i :: 0 <= i < |order| ==> PredsEarlier(ids, deps, order, i)
  }

  /** The predecessors of `order[i]` all appear before position `i`. */
  ghost predicate PredsEarlier(ids: set<string>, deps: seq<Dependency>, order: seq<string>, i: nat)
    requires i < |order|
  {
    forall p :: p in PredsOf(ids, deps, order[i]) ==> p in order[..i]
  }

  /** Every task missing from `order` has a predecessor missing from it. */
  ghost predicate ClosedOutside(ids: set<string>, deps: seq<Dependency>, order: seq<string>) {
    forall x {:trigger HasPredOutside(ids, deps, order, x)} :: x in ids && x !in order ==> HasPredOutside(ids, deps, order, x)
  }

  ghost predicate HasPredOutside(ids: set<string>, deps: seq<Dependency>, order: seq<string>, x: string) {
    exists p :: p in PredsOf(ids, deps, x) && p !in order
  }

  /** Phase 2: Kahn's sort.  The queue is seeded with the in-degree-0 tasks
      in input order and drained from the front; a successor joins the queue
      when its last pending predecessor is dequeued. */
  method TopologicalOrder(tasks: seq<Task>, ghost deps: seq<Dependency>,
                          successors: map<string, seq<string>>, inDegree: map<string, int>)
    returns (sorted: seq<string>)
    requires DistinctIds(tasks)
    requires successors.Keys == IdSet(tasks) && inDegree.Keys == IdSet(tasks)
    requires forall id {:trigger successors[id]} {:trigger inDegree[id]} :: id in IdSet(tasks) ==>
               successors[id] == SuccsOf(IdSet(tasks), deps, id) && inDegree[id] == |PredsOf(IdSet(tasks), deps, id)|
    ensures Distinct(sorted) && |sorted| <= |tasks|
    ensures forall x :: x in sorted ==> x in IdSet(tasks)
    ensures TopologicalPrefix(IdSet(tasks), deps, sorted)
    ensures ClosedOutside(IdSet(tasks), deps, sorted)
  {
    ghost var ids := IdSet(tasks);
    var degree := inDegree;

    var queue := SeedQueue(tasks, degree);
    forall x | x in ids ensures degree[x] == Pending(PredsOf(ids, deps, x), []) {
      PendingNone(PredsOf(ids, deps, x));
    }

    sorted := [];
    DistinctConcat(sorted, queue);
    assert sorted + queue == queue;
    DistinctIdListSize(queue, tasks);
    while |queue| > 0
      invariant degree.Keys == ids
      invariant Distinct(sorted) && Distinct(queue) && Disjoint(sorted, queue)
      invariant forall x :: x in sorted ==> x in ids
      invariant forall x :: x in queue ==> x in ids
      invariant |sorted| + |queue| <= |tasks|
      invariant forall x {:trigger degree[x]} :: x in ids ==> degree[x] == Pending(PredsOf(ids, deps, x), sorted)
      invariant forall x {:trigger degree[x]} :: x in ids ==> (x in sorted || x in queue <==> degree[x] == 0)
      invariant TopologicalPrefix(ids, deps, sorted)
      decreases |tasks| - |sorted|
    {
      degree, sorted, queue := KahnStep(tasks, deps, successors[queue[0]], degree, sorted, queue);
    }
    forall x | x in ids && x !in sorted ensures HasPredOutside(ids, deps, sorted, x) {
      PendingZero(PredsOf(ids, deps, x), sorted);
    }
  }

  /** One round of Kahn's sort: the head of the queue is placed, and its
      successors are released. */
  method KahnStep(tasks: seq<Task>, ghost deps: seq<Dependency>, succs: seq<string>,
                  degree0: map<string, int>, sorted0: seq<string>, queue0: seq<string>)
    returns (degree: map<string, int>, sorted: seq<string>, queue: seq<string>)
    requires DistinctIds(tasks) && |queue0| > 0
    requires succs == SuccsOf(IdSet(tasks), deps, queue0[0])
    requires degree0.Keys == IdSet(tasks)
    requires Distinct(sorted0) && Distinct(queue0) && Disjoint(sorted0, queue0)
    requires forall x :: x in sorted0 ==> x in IdSet(tasks)
    requires forall x :: x in queue0 ==> x in IdSet(tasks)
    requires forall x {:trigger degree0[x]} :: x in IdSet(tasks) ==> degree0[x] == Pending(PredsOf(IdSet(tasks), deps, x), sorted0)
    requires forall x {:trigger degree0[x]} :: x in IdSet(tasks) ==> (x in sorted0 || x in queue0 <==> degree0[x] == 0)
    requires TopologicalPrefix(IdSet(tasks), deps, sorted0)
    ensures sorted == sorted0 + [queue0[0]]
    ensures degree.Keys == IdSet(tasks)
    ensures Distinct(sorted) && Distinct(queue) && Disjoint(sorted, queue)
    ensures forall x :: x in sorted ==> x in IdSet(tasks)
    ensures forall x :: x in queue ==> x in IdSet(tasks)
    ensures |sorted| + |queue| <= |tasks|
    ensures forall x {:trigger degree[x]} :: x in IdSet(tasks) ==> degree[x] == Pending(PredsOf(IdSet(tasks), deps, x), sorted)
    ensures forall x {:trigger degree[x]} :: x in IdSet(tasks) ==> (x in sorted || x in queue <==> degree[x] == 0)
    ensures TopologicalPrefix(IdSet(tasks), deps, sorted)
  {
    ghost var ids := IdSet(tasks);
    var id := queue0[0];
    DequeueStep(ids, deps, degree0, sorted0, queue0);
    sorted := sorted0 + [id];
    ghost var base := map x | x in ids :: Pending(PredsOf(ids, deps, x), sorted);
    degree, queue := ReleaseSuccessors(ids, sorted, base, succs, degree0, queue0[1..]);
    DistinctConcat(sorted, queue);
    DistinctIdListSize(sorted + queue, tasks);
  }

  /** Moving the head of the queue to the end of the sorted list: the
      sorted list stays a topological prefix, and the pending counts drop
      by the head's outgoing edges. */
  lemma DequeueStep(ids: set<string>, deps: seq<Dependency>, degree: map<string, int>,
                    sorted: seq<string>, queue: seq<string>)
    requires |queue| > 0 && degree.Keys == ids
    requires Distinct(sorted) && Distinct(queue) && Disjoint(sorted, queue)
    requires forall x :: x in queue ==> x in ids
    requires forall x {:trigger degree[x]} :: x in ids ==> degree[x] == Pending(PredsOf(ids, deps, x), sorted)
    requires forall x {:trigger degree[x]} :: x in ids ==> (x in sorted || x in queue <==> degree[x] == 0)
    requires TopologicalPrefix(ids, deps, sorted)
    ensures var id, next, rest := queue[0], sorted + [queue[0]], queue[1..];
      && Distinct(next) && Distinct(rest) && Disjoint(next, rest)
      && (forall x :: x in rest ==> x in ids)
      && (forall x :: x in SuccsOf(ids, deps, id) ==> x in ids)
      && (forall x {:trigger degree[x]} :: x in ids ==>
            degree[x] == Pending(PredsOf(ids, deps, x), next) + Count(SuccsOf(ids, deps, id), x))
      && (forall x {:trigger degree[x]} :: x in ids ==> (x in next || x in rest <==> degree[x] == 0))
      && TopologicalPrefix(ids, deps, next)
  {
    var id, next, rest := queue[0], sorted + [queue[0]], queue[1..];
    assert queue == [id] + rest;
    DistinctConcat([id], rest);
    DistinctConcat(sorted, [id]);
    assert id !in sorted;
    PendingZero(PredsOf(ids, deps, id), sorted);
    PrefixExtend(ids, deps, sorted, id);
    forall x | x in ids
      ensures degree[x] == Pending(PredsOf(ids, deps, x), next) + Count(SuccsOf(ids, deps, id), x)
    {
      PendingMarkDone(PredsOf(ids, deps, x), sorted, id);
      PredsSuccsAgree(ids, deps, id, x);
    }
  }

  /** The ids of the tasks whose in-degree is 0, in input order. */
  method SeedQueue(tasks: seq<Task>, degree: map<string, int>) returns (queue: seq<string>)
    requires DistinctIds(tasks) && degree.Keys == IdSet(tasks)
    ensures Distinct(queue)
    ensures forall x :: x in queue <==> x in IdSet(tasks) && degree[x] == 0
  {
    queue := [];
    for k := 0 to |tasks|
      invariant Distinct(queue)
      invariant forall x :: x in queue ==> exists i :: 0 <= i < k && tasks[i].id == x
      invariant forall x :: x in queue ==> x in degree && degree[x] == 0
      invariant forall i :: 0 <= i < k && degree[tasks[i].id] == 0 ==> tasks[i].id in queue
    {
      assert tasks[k] in tasks;
      if degree[tasks[k].id] == 0 {
        assert tasks[k].id !in queue;
        DistinctConcat(queue, [tasks[k].id]);
        queue := queue + [tasks[k].id];
      }
    }
    forall x | x in IdSet(tasks) && degree[x] == 0 ensures x in queue {
      var t :| t in tasks && t.id == x;
      var i :| 0 <= i < |tasks| && tasks[i] == t;
    }
  }

  /** The inner loop of Kahn's sort: every successor of the task just
      placed loses one pending predecessor per edge, and joins the queue
      when none is left. `base` is each task's count once `succs` are
      all released. */
  method ReleaseSuccessors(ghost ids: set<string>, ghost sorted: seq<string>, ghost base: map<string, nat>,
                           succs: seq<string>, degree0: map<string, int>, queue0: seq<string>)
    returns (degree: map<string, int>, queue: seq<string>)
    requires degree0.Keys == ids && base.Keys == ids
    requires Distinct(queue0) && Disjoint(sorted, queue0)
    requires forall x :: x in queue0 ==> x in ids
    requires forall x :: x in succs ==> x in ids
    requires forall x {:trigger degree0[x]} :: x in ids ==> degree0[x] == base[x] + Count(succs, x)
    requires forall x {:trigger degree0[x]} :: x in ids ==> (x in sorted || x in queue0 <==> degree0[x] == 0)
    ensures degree.Keys == ids
    ensures Distinct(queue) && Disjoint(sorted, queue)
    ensures forall x :: x in queue ==> x in ids
    ensures forall x {:trigger degree[x]} :: x in ids ==> degree[x] == base[x]
    ensures forall x {:trigger degree[x]} :: x in ids ==> (x in sorted || x in queue <==> degree[x] == 0)
  {
    degree, queue := degree0, queue0;
    assert succs[0..] == succs;
    for j := 0 to |succs|
      invariant degree.Keys == ids
      invariant Distinct(queue) && Disjoint(sorted, queue)
      invariant forall x :: x in queue ==> x in ids
      invariant forall x {:trigger degree[x]} :: x in ids ==> degree[x] == base[x] + Count(succs[j..], x)
      invariant forall x {:trigger degree[x]} :: x in ids ==> (x in sorted || x in queue <==> degree[x] == 0)
    {
      degree, queue := ReleaseOne(ids, sorted, base, succs, j, degree, queue);
    }
    assert succs[|succs|..] == [];
  }

  /** Releases `succs[j]`. */
  method ReleaseOne(ghost ids: set<string>, ghost sorted: seq<string>, ghost base: map<string, nat>,
                    succs: seq<string>, j: nat, degree0: map<string, int>, queue0: seq<string>)
    returns (degree: map<string, int>, queue: seq<string>)
    requires j < |succs| && succs[j] in ids
    requires degree0.Keys == ids && base.Keys == ids
    requires Distinct(queue0) && Disjoint(sorted, queue0)
    requires forall x :: x in queue0 ==> x in ids
    requires forall x {:trigger degree0[x]} :: x in ids ==> degree0[x] == base[x] + Count(succs[j..], x)
    requires forall x {:trigger degree0[x]} :: x in ids ==> (x in sorted || x in queue0 <==> degree0[x] == 0)
    ensures degree.Keys == ids
    ensures Distinct(queue) && Disjoint(sorted, queue)
    ensures forall x :: x in queue ==> x in ids
    ensures forall x {:trigger degree[x]} :: x in ids ==> degree[x] == base[x] + Count(succs[j + 1..], x)
    ensures forall x {:trigger degree[x]} :: x in ids ==> (x in sorted || x in queue <==> degree[x] == 0)
  {
    var succ := succs[j];
    var newDegree := degree0[succ] - 1;
    degree := degree0[succ := newDegree];
    queue := if newDegree == 0 then queue0 + [succ] else queue0;
    ReleaseCounts(ids, base, succs, j, degree0, degree);
    ReleaseMembership(ids, sorted, succ, degree0, degree, queue0, queue);
  }

  /** Releasing `succs[j]` lowers its pending count by one. */
  lemma ReleaseCounts(ids: set<string>, base: map<string, nat>, succs: seq<string>, j: nat,
                      degree: map<string, int>, degree1: map<string, int>)
    requires j < |succs| && succs[j] in ids && degree.Keys == ids && base.Keys == ids
    requires forall x {:trigger degree[x]} :: x in ids ==> degree[x] == base[x] + Count(succs[j..], x)
    requires degree1 == degree[succs[j] := degree[succs[j]] - 1]
    ensures degree[succs[j]] >= 1
    ensures forall x {:trigger degree1[x]} :: x in ids ==> degree1[x] == base[x] + Count(succs[j + 1..], x)
  {
    DropFirstCount(succs, j);
    forall x | x in ids ensures degree1[x] == base[x] + Count(succs[j + 1..], x) {
      assert degree[x] == base[x] + Count(succs[j..], x);
    }
  }

  /** A successor whose count reaches 0 joins the queue, and it was in
      neither list before. */
  lemma ReleaseMembership(ids: set<string>, sorted: seq<string>, succ: string, degree: map<string, int>, degree1: map<string, int>,
                          queue: seq<string>, queue1: seq<string>)
    requires succ in ids && degree.Keys == ids && degree[succ] >= 1
    requires Distinct(queue) && Disjoint(sorted, queue)
    requires forall x :: x in queue ==> x in ids
    requires forall x {:trigger degree[x]} :: x in ids ==> (x in sorted || x in queue <==> degree[x] == 0)
    requires degree1 == degree[succ := degree[succ] - 1]
    requires queue1 == if degree1[succ] == 0 then queue + [succ] else queue
    ensures Distinct(queue1) && Disjoint(sorted, queue1)
    ensures forall x :: x in queue1 ==> x in ids
    ensures forall x {:trigger degree1[x]} :: x in ids ==> (x in sorted || x in queue1 <==> degree1[x] == 0)
  {
    assert succ !in sorted && succ !in queue;
    if degree1[succ] == 0 {
      DistinctConcat(queue, [succ]);
    }
    forall x | x in ids ensures x in sorted || x in queue1 <==> degree1[x] == 0 {
      if x != succ {
        assert degree1[x] == degree[x];
      }
    }
  }

  /** Dropping the entry at `j` lowers its count by one and no other. */
  lemma DropFirstCount(s: seq<string>, j: nat)
    requires j < |s|
    ensures forall x :: Count(s[j..], x) == Count(s[j + 1..], x) + (if x == s[j] then 1 else 0)
  {
    assert s[j..][1..] == s[j + 1..];
  }

  /** Appending a task whose predecessors are all in a topological prefix
      keeps it one. */
  lemma PrefixExtend(ids: set<string>, deps: seq<Dependency>, order: seq<string>, x: string)
    requires TopologicalPrefix(ids, deps, order)
    requires forall p :: p in PredsOf(ids, deps, x) ==> p in order
    ensures TopologicalPrefix(ids, deps, order + [x])
  {
    var next := order + [x];
    forall i | 0 <= i < |next| ensures PredsEarlier(ids, deps, next, i) {
      if i < |order| {
        assert next[..i] == order[..i];
        assert PredsEarlier(ids, deps, order, i);
      } else {
        assert next[..i] == order;
      }
    }
  }

  /** A task in a topological prefix has no predecessor chain longer than
      its position. */
  lemma {:induction false} PlacedHasShortWalks(ids: set<string>, deps: seq<Dependency>, order: seq<string>, i: nat, k: nat)
    requires TopologicalPrefix(ids, deps, order)
    requires i < |order| && k > i
    ensures !HasWalk(ids, deps, order[i], k)
    decreases i
  {
    if HasWalk(ids, deps, order[i], k) {
      var p :| p in PredsOf(ids, deps, order[i]) && HasWalk(ids, deps, p, k - 1);
      assert PredsEarlier(ids, deps, order, i);
      assert p in order[..i];
      var j :| 0 <= j < i && order[j] == p;
      PlacedHasShortWalks(ids, deps, order, j, k - 1);
    }
  }

  /** A task outside a closed order has predecessor chains of every length. */
  lemma {:induction false} UnplacedHasAllWalks(ids: set<string>, deps: seq<Dependency>, order: seq<string>, x: string, k: nat)
    requires ClosedOutside(ids, deps, order)
    requires x in ids && x !in order
    ensures HasWalk(ids, deps, x, k)
    decreases k
  {
    if k > 0 {
      assert HasPredOutside(ids, deps, order, x);
      var p :| p in PredsOf(ids, deps, x) && p !in order;
      UnplacedHasAllWalks(ids, deps, order, p, k - 1);
    }
  }

  /** The tasks Kahn's sort leaves out are exactly the blocked ones. */
  lemma KahnLeavesOutBlocked(ids: set<string>, deps: seq<Dependency>, order: seq<string>, x: string)
    requires TopologicalPrefix(ids, deps, order) && ClosedOutside(ids, deps, order)
    requires x in ids
    ensures x !in order <==> Blocked(ids, deps, x)
  {
    if x in order {
      var i :| 0 <= i < |order| && order[i] == x;
      PlacedHasShortWalks(ids, deps, order, i, i + 1);
    } else {
      forall k: nat ensures HasWalk(ids, deps, x, k) {
        UnplacedHasAllWalks(ids, deps, order, x, k);
      }
    }
  }

  /** The ids of the tasks whose id is not in `placed`, in input order. */
  function Unplaced(tasks: seq<Task>, placed: seq<string>): seq<string> {
    if tasks == [] then []
    else (if tasks[0].id in placed then [] else [tasks[0].id]) + Unplaced(tasks[1..], placed)
  }

  lemma {:induction false} UnplacedIsBlocked(ids: set<string>, deps: seq<Dependency>, ts: seq<Task>, placed: seq<string>)
    requires forall t :: t in ts ==> (t.id !in placed <==> Blocked(ids, deps, t.id))
    ensures Unplaced(ts, placed) == BlockedAmong(ids, deps, ts)
  {
    if ts != [] {
      assert ts[0] in ts;
      UnplacedIsBlocked(ids, deps, ts[1..], placed);
    }
  }

  /** `x` has a start, and it is the latest of its authored start and the
      ends of its predecessors, all of which have starts. */
  ghost predicate Settled(ids: set<string>, deps: seq<Dependency>, x: string,
                          starts: map<string, int>, taskMap: map<string, Task>) {
    && x in starts && x in taskMap
    && (forall p :: p in PredsOf(ids, deps, x) ==> p in starts && p in taskMap)
    && starts[x] == LatestEnd(taskMap[x].startDayIndex, PredsOf(ids, deps, x), starts, taskMap)
  }

  /** Giving a start to a task that had none leaves settled tasks settled. */
  lemma SettledStays(ids: set<string>, deps: seq<Dependency>, x: string, starts: map<string, int>,
                     taskMap: map<string, Task>, id: string, v: int)
    requires Settled(ids, deps, x, starts, taskMap) && id !in starts
    ensures Settled(ids, deps, x, starts[id := v], taskMap)
  {
    LatestEndDependsOnPreds(taskMap[x].startDayIndex, PredsOf(ids, deps, x), starts[id := v], starts, taskMap, taskMap);
  }

  /** The inner loop of phase 4: the latest of `start` and the ends of
      the listed predecessors. */
  method EffectiveStart(start: int, preds: seq<string>, starts: map<string, int>, taskMap: map<string, Task>)
    returns (effectiveStart: int)
    requires forall p :: p in preds ==> p in starts && p in taskMap
    ensures effectiveStart == LatestEnd(start, preds, starts, taskMap)
  {
    effectiveStart := start;
    for j := 0 to |preds|
      invariant effectiveStart == LatestEnd(start, preds[..j], starts, taskMap)
    {
      assert preds[..j + 1][..j] == preds[..j];
      var predId := preds[j];
      var predStart := starts[predId];
      var predTask := taskMap[predId];
      var predEnd := TaskEnd(predStart, predTask.durationDays);
      if predEnd > effectiveStart {
        effectiveStart := predEnd;
      }
    }
    assert preds[..|preds|] == preds;
  }

  /** Phase 4: walk the topological order; every task starts at the latest
      of its authored start and its predecessors' ends. */
  method ComputeStarts(tasks: seq<Task>, ghost deps: seq<Dependency>, sorted: seq<string>,
                       predecessors: map<string, seq<string>>, taskMap: map<string, Task>)
    returns (starts: map<string, int>)
    requires DistinctIds(tasks)
    requires taskMap == TaskMapOf(tasks)
    requires predecessors.Keys == IdSet(tasks)
    requires forall id {:trigger predecessors[id]} :: id in IdSet(tasks) ==> predecessors[id] == PredsOf(IdSet(tasks), deps, id)
    requires Distinct(sorted) && forall x :: x in sorted <==> x in IdSet(tasks)
    requires TopologicalPrefix(IdSet(tasks), deps, sorted)
    ensures IsSchedule(tasks, deps, starts)
  {
    ghost var ids := IdSet(tasks);
    starts := map[];
    for k := 0 to |sorted|
      invariant forall x :: x in starts <==> x in sorted[..k]
      invariant forall i :: 0 <= i < k ==> Settled(ids, deps, sorted[i], starts, taskMap)
    {
      assert sorted[..k + 1] == sorted[..k] + [sorted[k]];
      var id := sorted[k];
      var task := taskMap[id];
      var preds := predecessors[id];
      assert PredsEarlier(ids, deps, sorted, k);
      assert forall p :: p in preds ==> p in starts && p in taskMap;
      var effectiveStart := EffectiveStart(task.startDayIndex, preds, starts, taskMap);
      assert id !in starts by {
        forall i | 0 <= i < k ensures sorted[i] != id {
          assert sorted[i] != sorted[k];
        }
      }
      SettleNext(ids, deps, sorted, k, starts, taskMap, effectiveStart);
      starts := starts[id := effectiveStart];
    }
    assert sorted[..|sorted|] == sorted;
    SettledIsSchedule(tasks, deps, sorted, starts);
  }

  /** One step of phase 4: the task at position `k` gets its start, and the
      tasks before it stay settled. */
  lemma SettleNext(ids: set<string>, deps: seq<Dependency>, sorted: seq<string>, k: nat,
                   starts: map<string, int>, taskMap: map<string, Task>, v: int)
    requires k < |sorted| && sorted[k] !in starts && sorted[k] in taskMap
    requires forall i :: 0 <= i < k ==> Settled(ids, deps, sorted[i], starts, taskMap)
    requires forall p :: p in PredsOf(ids, deps, sorted[k]) ==> p in starts && p in taskMap
    requires v == LatestEnd(taskMap[sorted[k]].startDayIndex, PredsOf(ids, deps, sorted[k]), starts, taskMap)
    ensures forall i :: 0 <= i <= k ==> Settled(ids, deps, sorted[i], starts[sorted[k] := v], taskMap)
  {
    var id := sorted[k];
    var next := starts[id := v];
    forall i | 0 <= i < k ensures Settled(ids, deps, sorted[i], next, taskMap) {
      SettledStays(ids, deps, sorted[i], starts, taskMap, id, v);
    }
    LatestEndDependsOnPreds(taskMap[id].startDayIndex, PredsOf(ids, deps, id), next, starts, taskMap, taskMap);
  }

  /** Once every task of the order is settled, the starts are a schedule. */
  lemma SettledIsSchedule(tasks: seq<Task>, deps: seq<Dependency>, sorted: seq<string>, starts: map<string, int>)
    requires DistinctIds(tasks)
    requires forall x :: x in starts <==> x in sorted
    requires forall x :: x in sorted <==> x in IdSet(tasks)
    requires forall i :: 0 <= i < |sorted| ==> Settled(IdSet(tasks), deps, sorted[i], starts, TaskMapOf(tasks))
    ensures IsSchedule(tasks, deps, starts)
  {
    forall t | t in tasks ensures StartFits(tasks, deps, starts, t) {
      var i :| 0 <= i < |tasks| && tasks[i] == t;
      TaskMapAt(tasks, i);
      assert t.id in IdSet(tasks);
      var k :| 0 <= k < |sorted| && sorted[k] == t.id;
      assert Settled(IdSet(tasks), deps, sorted[k], starts, TaskMapOf(tasks));
    }
  }

  /** Finish-to-Start propagation.  `Ok` exactly when no task is blocked,
      and then the starts are a schedule; otherwise the blocked ids in
      input order. */
  method Propagate(tasks: seq<Task>, deps: seq<Dependency>) returns (r: ScheduleResult)
    requires DistinctIds(tasks)
    ensures r.Ok? <==> BlockedIds(tasks, deps) == []
    ensures r.Ok? ==> IsSchedule(tasks, deps, r.starts)
    ensures r.Cycle? ==> r.taskIds == BlockedIds(tasks, deps)
  {
    var taskMap, predecessors, successors, inDegree := BuildGraph(tasks, deps);
    var sorted := TopologicalOrder(tasks, deps, successors, inDegree);
    ghost var ids := IdSet(tasks);
    forall t | t in tasks ensures t.id !in sorted <==> Blocked(ids, deps, t.id) {
      KahnLeavesOutBlocked(ids, deps, sorted, t.id);
    }
    UnplacedIsBlocked(ids, deps, tasks, sorted);
    BlockedIdsEmpty(tasks, deps);
    DistinctIdListSize(sorted, tasks);

    if |sorted| < |tasks| {
      var cycleTaskIds := Unplaced(tasks, sorted);
      r := Cycle(cycleTaskIds);
    } else {
      var starts := ComputeStarts(tasks, deps, sorted, predecessors, taskMap);
      r := Ok(starts);
    }
  }
}
