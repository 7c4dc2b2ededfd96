/** The scheduler's documented cases, each stated for the exact tasks and
    dependencies of the repository's own scheduler tests: `Propagate` is
    shown to return the expected starts or the expected cycle. */
module SchedulerExamples {
  import opened Types
  import opened Scheduler
  import opened ScheduleFacts

  /** A task as the tests build it: named after its id, ungrouped. */
  function MakeTask(id: string, start: int, duration: int): Task {
    Task(id, id, start, duration, None, "#3B82F6", 0.0)
  }

  function Max(a: int, b: int): int {
    if a > b then a else b
  }

  // ---------------------------------------------------------------------
  // Small graphs, evaluated once
  // ---------------------------------------------------------------------

  /** Helper: the id set and id map of a two-task list. */
  lemma Graph2(a: Task, b: Task)
    ensures IdSet([a, b]) == {a.id, b.id}
    ensures TaskMapOf([a, b]) == map[a.id := a][b.id := b]
  {
    assert [a, b][..1] == [a] && [a][..0] == [];
    assert forall t :: t in [a, b] <==> t == a || t == b;
  }

  /** Helper: the id set and id map of a three-task list. */
  lemma Graph3(a: Task, b: Task, c: Task)
    ensures IdSet([a, b, c]) == {a.id, b.id, c.id}
    ensures TaskMapOf([a, b, c]) == map[a.id := a][b.id := b][c.id := c]
  {
    assert [a, b, c][..2] == [a, b];
    Graph2(a, b);
    assert forall t :: t in [a, b, c] <==> t == a || t == b || t == c;
  }

  /** Helper: appending a dependency extends each predecessor list by at most its source. */
  lemma PredsOfSnoc(ids: set<string>, deps: seq<Dependency>, d: Dependency, x: string)
    ensures PredsOf(ids, deps + [d], x) == PredsOf(ids, deps, x) + (if Kept(ids, d) && d.toTaskId == x then [d.fromTaskId] else [])
  {
    assert (deps + [d])[..|deps|] == deps;
  }

  /** The predecessors one dependency contributes to `x`. */
  function Into(ids: set<string>, d: Dependency, x: string): seq<string> {
    if Kept(ids, d) && d.toTaskId == x then [d.fromTaskId] else []
  }

  /** Helper: the predecessors of `x` under one dependency. */
  lemma Preds1(ids: set<string>, d1: Dependency, x: string)
    ensures PredsOf(ids, [d1], x) == Into(ids, d1, x)
  {
    assert [d1] == [] + [d1];
    PredsOfSnoc(ids, [], d1, x);
  }

  /** Helper: the predecessors of `x` under two dependencies, in order. */
  lemma Preds2(ids: set<string>, d1: Dependency, d2: Dependency, x: string)
    ensures PredsOf(ids, [d1, d2], x) == Into(ids, d1, x) + Into(ids, d2, x)
  {
    assert [d1, d2] == [d1] + [d2];
    Preds1(ids, d1, x);
    PredsOfSnoc(ids, [d1], d2, x);
  }

  /** Helper: the predecessors of `x` under three dependencies, in order. */
  lemma Preds3(ids: set<string>, d1: Dependency, d2: Dependency, d3: Dependency, x: string)
    ensures PredsOf(ids, [d1, d2, d3], x) == Into(ids, d1, x) + Into(ids, d2, x) + Into(ids, d3, x)
  {
    assert [d1, d2, d3] == [d1, d2] + [d3];
    Preds2(ids, d1, d2, x);
    PredsOfSnoc(ids, [d1, d2], d3, x);
  }

  /** Helper: the latest end over a single predecessor. */
  lemma LatestEnd1(base: int, p: string, s: map<string, int>, m: map<string, Task>)
    requires p in s && p in m
    ensures LatestEnd(base, [p], s, m) == Max(TaskEnd(s[p], m[p].durationDays), base)
  {
    assert [p][..0] == [];
  }

  /** Helper: the latest end over two predecessors. */
  lemma LatestEnd2(base: int, p: string, q: string, s: map<string, int>, m: map<string, Task>)
    requires p in s && p in m && q in s && q in m
    ensures LatestEnd(base, [p, q], s, m) ==
      Max(TaskEnd(s[q], m[q].durationDays), Max(TaskEnd(s[p], m[p].durationDays), base))
  {
    assert [p, q][..1] == [p];
    LatestEnd1(base, p, s, m);
  }

  lemma StartNoPreds(tasks: seq<Task>, deps: seq<Dependency>, s: map<string, int>, x: string)
    requires IsSchedule(tasks, deps, s) && x in IdSet(tasks)
    requires PredsOf(IdSet(tasks), deps, x) == []
    ensures s[x] == TaskMapOf(tasks)[x].startDayIndex
  {
    ScheduleAt(tasks, deps, s, x);
  }

  /** Helper: in a schedule, a task with one predecessor starts at the later of its own start and that end. */
  lemma StartOnePred(tasks: seq<Task>, deps: seq<Dependency>, s: map<string, int>, x: string, p: string)
    requires IsSchedule(tasks, deps, s) && x in IdSet(tasks)
    requires PredsOf(IdSet(tasks), deps, x) == [p]
    ensures var m := TaskMapOf(tasks); s[x] == Max(TaskEnd(s[p], m[p].durationDays), m[x].startDayIndex)
  {
    ScheduleAt(tasks, deps, s, x);
    LatestEnd1(TaskMapOf(tasks)[x].startDayIndex, p, s, TaskMapOf(tasks));
  }

  /** Helper: in a schedule, a task with two predecessors starts at the latest of its own start and their ends. */
  lemma StartTwoPreds(tasks: seq<Task>, deps: seq<Dependency>, s: map<string, int>, x: string, p: string, q: string)
    requires IsSchedule(tasks, deps, s) && x in IdSet(tasks)
    requires PredsOf(IdSet(tasks), deps, x) == [p, q]
    ensures var m := TaskMapOf(tasks);
      s[x] == Max(TaskEnd(s[q], m[q].durationDays), Max(TaskEnd(s[p], m[p].durationDays), m[x].startDayIndex))
  {
    ScheduleAt(tasks, deps, s, x);
    LatestEnd2(TaskMapOf(tasks)[x].startDayIndex, p, q, s, TaskMapOf(tasks));
  }

  /** Helper: a two-key map is the display of its entries. */
  lemma Map2(s: map<string, int>, a: string, b: string, va: int, vb: int)
    requires s.Keys == {a, b} && s[a] == va && s[b] == vb
    ensures s == map[a := va, b := vb]
  {
  }

  /** Helper: a three-key map is the display of its entries. */
  lemma Map3(s: map<string, int>, a: string, b: string, c: string, va: int, vb: int, vc: int)
    requires s.Keys == {a, b, c} && s[a] == va && s[b] == vb && s[c] == vc
    ensures s == map[a := va, b := vb, c := vc]
  {
  }

  /** Helper: the blocked filter over two tasks, unfolded. */
  lemma BlockedAmong2(ids: set<string>, deps: seq<Dependency>, a: Task, b: Task)
    ensures BlockedAmong(ids, deps, [a, b]) ==
      (if Blocked(ids, deps, a.id) then [a.id] else []) + (if Blocked(ids, deps, b.id) then [b.id] else [])
  {
    assert [a, b][1..] == [b] && [b][1..] == [];
    var tail := BlockedAmong(ids, deps, [b]);
    assert tail == (if Blocked(ids, deps, b.id) then [b.id] else []) + BlockedAmong(ids, deps, []);
  }

  /** Helper: the blocked filter over three tasks, first step unfolded. */
  lemma BlockedAmong3(ids: set<string>, deps: seq<Dependency>, a: Task, b: Task, c: Task)
    ensures BlockedAmong(ids, deps, [a, b, c]) ==
      (if Blocked(ids, deps, a.id) then [a.id] else []) + BlockedAmong(ids, deps, [b, c])
  {
    assert [a, b, c][1..] == [b, c];
  }

  /** A task with no predecessor is not blocked. */
  lemma Source(ids: set<string>, deps: seq<Dependency>, x: string)
    requires PredsOf(ids, deps, x) == []
    ensures !Blocked(ids, deps, x)
  {
    assert !HasWalk(ids, deps, x, 1);
  }

  /** Helper: two tasks with different ids have distinct ids. */
  lemma DistinctIds2(a: Task, b: Task)
    requires a.id != b.id
    ensures DistinctIds([a, b])
  {
  }

  /** Helper: three tasks with pairwise different ids have distinct ids. */
  lemma DistinctIds3(a: Task, b: Task, c: Task)
    requires a.id != b.id && a.id != c.id && b.id != c.id
    ensures DistinctIds([a, b, c])
  {
  }

  /** Runs the scheduler on an acyclic graph whose only schedule is
      `expected`. */
  method ExpectStarts(tasks: seq<Task>, deps: seq<Dependency>, ghost expected: map<string, int>) returns (r: ScheduleResult)
    requires DistinctIds(tasks) && BlockedIds(tasks, deps) == []
    requires forall s :: IsSchedule(tasks, deps, s) ==> s == expected
    ensures r == Ok(expected)
  {
    r := Propagate(tasks, deps);
  }

  /** Runs the scheduler on a graph whose blocked tasks are `blocked`. */
  method ExpectCycle(tasks: seq<Task>, deps: seq<Dependency>, ghost blocked: seq<string>) returns (r: ScheduleResult)
    requires DistinctIds(tasks) && blocked != [] && BlockedIds(tasks, deps) == blocked
    ensures r == Cycle(blocked)
  {
    r := Propagate(tasks, deps);
  }

  // ---------------------------------------------------------------------
  // No dependencies: every task keeps its authored start
  // ---------------------------------------------------------------------

  const FreeTasks := [MakeTask("A", 0, 3), MakeTask("B", 5, 2)]

  lemma FreeStarts(s: map<string, int>)
    requires IsSchedule(FreeTasks, [], s)
    ensures s == map["A" := 0, "B" := 5]
  {
    Graph2(FreeTasks[0], FreeTasks[1]);
    StartNoPreds(FreeTasks, [], s, "A");
    StartNoPreds(FreeTasks, [], s, "B");
    Map2(s, "A", "B", 0, 5);
  }

  method FreeExample() returns (r: ScheduleResult)
    ensures r == Ok(map["A" := 0, "B" := 5])
  {
    Graph2(FreeTasks[0], FreeTasks[1]);
    DistinctIds2(FreeTasks[0], FreeTasks[1]);
    RankedAcyclic(FreeTasks, [], (x: string) => 0);
    forall s | IsSchedule(FreeTasks, [], s) ensures s == map["A" := 0, "B" := 5] {
      FreeStarts(s);
    }
    r := ExpectStarts(FreeTasks, [], map["A" := 0, "B" := 5]);
  }

  // ---------------------------------------------------------------------
  // The chain A -> B -> C, with A authored at `startA` for `durationA` days
  // ---------------------------------------------------------------------

  function ChainTasks(startA: int, durationA: int): seq<Task> {
    [MakeTask("A", startA, durationA), MakeTask("B", 0, 2), MakeTask("C", 0, 1)]
  }

  const ChainDeps := [Dependency("d1", "A", "B"), Dependency("d2", "B", "C")]

  lemma ChainGraph(startA: int, durationA: int)
    ensures IdSet(ChainTasks(startA, durationA)) == {"A", "B", "C"}
    ensures var ts := ChainTasks(startA, durationA);
      TaskMapOf(ts) == map["A" := ts[0], "B" := ts[1], "C" := ts[2]]
    ensures var ids := IdSet(ChainTasks(startA, durationA));
      && PredsOf(ids, ChainDeps, "A") == []
      && PredsOf(ids, ChainDeps, "B") == ["A"]
      && PredsOf(ids, ChainDeps, "C") == ["B"]
  {
    var tasks := ChainTasks(startA, durationA);
    Graph3(tasks[0], tasks[1], tasks[2]);
    var ids := IdSet(tasks);
    Preds2(ids, ChainDeps[0], ChainDeps[1], "A");
    Preds2(ids, ChainDeps[0], ChainDeps[1], "B");
    Preds2(ids, ChainDeps[0], ChainDeps[1], "C");
  }

  lemma ChainReady(startA: int, durationA: int)
    ensures DistinctIds(ChainTasks(startA, durationA))
    ensures BlockedIds(ChainTasks(startA, durationA), ChainDeps) == []
  {
    var tasks := ChainTasks(startA, durationA);
    DistinctIds3(tasks[0], tasks[1], tasks[2]);
    ChainGraph(startA, durationA);
    var rank := (x: string) => if x == "A" then 0 else if x == "B" then 1 else 2;
    assert RankedBy(IdSet(tasks), ChainDeps, rank) by {
      assert forall d :: d in ChainDeps ==> d == ChainDeps[0] || d == ChainDeps[1];
    }
    RankedAcyclic(tasks, ChainDeps, rank);
  }

  /** B starts when A ends (or at 0), C when B ends. */
  lemma ChainStarts(startA: int, durationA: int, s: map<string, int>, startB: int, startC: int)
    requires IsSchedule(ChainTasks(startA, durationA), ChainDeps, s)
    requires startB == Max(startA + durationA, 0) && startC == startB + 2
    ensures s == map["A" := startA, "B" := startB, "C" := startC]
  {
    var tasks := ChainTasks(startA, durationA);
    ChainGraph(startA, durationA);
    var m := TaskMapOf(tasks);
    assert m["A"] == tasks[0] && m["B"] == tasks[1] && m["C"] == tasks[2];
    StartNoPreds(tasks, ChainDeps, s, "A");
    StartOnePred(tasks, ChainDeps, s, "B", "A");
    StartOnePred(tasks, ChainDeps, s, "C", "B");
    Map3(s, "A", "B", "C", startA, startB, startC);
  }

  method ChainExample() returns (r: ScheduleResult)
    ensures r == Ok(map["A" := 0, "B" := 3, "C" := 5])
  {
    ChainReady(0, 3);
    forall s | IsSchedule(ChainTasks(0, 3), ChainDeps, s) ensures s == map["A" := 0, "B" := 3, "C" := 5] {
      ChainStarts(0, 3, s, 3, 5);
    }
    r := ExpectStarts(ChainTasks(0, 3), ChainDeps, map["A" := 0, "B" := 3, "C" := 5]);
  }

  /** Lengthening A to five days pushes B and C along. */
  method ResizeExample() returns (r: ScheduleResult)
    ensures r == Ok(map["A" := 0, "B" := 5, "C" := 7])
  {
    ChainReady(0, 5);
    forall s | IsSchedule(ChainTasks(0, 5), ChainDeps, s) ensures s == map["A" := 0, "B" := 5, "C" := 7] {
      ChainStarts(0, 5, s, 5, 7);
    }
    r := ExpectStarts(ChainTasks(0, 5), ChainDeps, map["A" := 0, "B" := 5, "C" := 7]);
  }

  /** Moving A to day 10 moves everything downstream. */
  method MoveExample() returns (r: ScheduleResult)
    ensures r == Ok(map["A" := 10, "B" := 13, "C" := 15])
  {
    ChainReady(10, 3);
    forall s | IsSchedule(ChainTasks(10, 3), ChainDeps, s) ensures s == map["A" := 10, "B" := 13, "C" := 15] {
      ChainStarts(10, 3, s, 13, 15);
    }
    r := ExpectStarts(ChainTasks(10, 3), ChainDeps, map["A" := 10, "B" := 13, "C" := 15]);
  }

  // ---------------------------------------------------------------------
  // Two predecessors: D waits for the later of A and X
  // ---------------------------------------------------------------------

  const JoinTasks := [MakeTask("A", 0, 3), MakeTask("X", 0, 7), MakeTask("D", 0, 1)]
  const JoinDeps := [Dependency("d1", "A", "D"), Dependency("d2", "X", "D")]

  lemma JoinGraph()
    ensures IdSet(JoinTasks) == {"A", "X", "D"}
    ensures TaskMapOf(JoinTasks) == map["A" := JoinTasks[0], "X" := JoinTasks[1], "D" := JoinTasks[2]]
    ensures PredsOf(IdSet(JoinTasks), JoinDeps, "A") == []
    ensures PredsOf(IdSet(JoinTasks), JoinDeps, "X") == []
    ensures PredsOf(IdSet(JoinTasks), JoinDeps, "D") == ["A", "X"]
  {
    Graph3(JoinTasks[0], JoinTasks[1], JoinTasks[2]);
    var ids := IdSet(JoinTasks);
    Preds2(ids, JoinDeps[0], JoinDeps[1], "A");
    Preds2(ids, JoinDeps[0], JoinDeps[1], "X");
    Preds2(ids, JoinDeps[0], JoinDeps[1], "D");
  }

  lemma JoinStarts(s: map<string, int>)
    requires IsSchedule(JoinTasks, JoinDeps, s)
    ensures s == map["A" := 0, "X" := 0, "D" := 7]
  {
    JoinGraph();
    var m := TaskMapOf(JoinTasks);
    assert m["A"] == JoinTasks[0] && m["X"] == JoinTasks[1] && m["D"] == JoinTasks[2];
    StartNoPreds(JoinTasks, JoinDeps, s, "A");
    StartNoPreds(JoinTasks, JoinDeps, s, "X");
    StartTwoPreds(JoinTasks, JoinDeps, s, "D", "A", "X");
    Map3(s, "A", "X", "D", 0, 0, 7);
  }

  lemma JoinReady()
    ensures DistinctIds(JoinTasks) && BlockedIds(JoinTasks, JoinDeps) == []
  {
    JoinGraph();
    DistinctIds3(JoinTasks[0], JoinTasks[1], JoinTasks[2]);
    var rank := (x: string) => if x == "D" then 1 else 0;
    assert RankedBy(IdSet(JoinTasks), JoinDeps, rank) by {
      assert forall d :: d in JoinDeps ==> d == JoinDeps[0] || d == JoinDeps[1];
    }
    RankedAcyclic(JoinTasks, JoinDeps, rank);
  }

  method JoinExample() returns (r: ScheduleResult)
    ensures r == Ok(map["A" := 0, "X" := 0, "D" := 7])
  {
    JoinReady();
    forall s | IsSchedule(JoinTasks, JoinDeps, s) ensures s == map["A" := 0, "X" := 0, "D" := 7] {
      JoinStarts(s);
    }
    r := ExpectStarts(JoinTasks, JoinDeps, map["A" := 0, "X" := 0, "D" := 7]);
  }

  // ---------------------------------------------------------------------
  // A -> B beside an unconnected task
  // ---------------------------------------------------------------------

  const LoneTasks := [MakeTask("A", 0, 3), MakeTask("B", 0, 2), MakeTask("Lone", 20, 5)]
  const LoneDeps := [Dependency("d1", "A", "B")]

  lemma LoneGraph()
    ensures IdSet(LoneTasks) == {"A", "B", "Lone"}
    ensures TaskMapOf(LoneTasks) == map["A" := LoneTasks[0], "B" := LoneTasks[1], "Lone" := LoneTasks[2]]
    ensures PredsOf(IdSet(LoneTasks), LoneDeps, "A") == []
    ensures PredsOf(IdSet(LoneTasks), LoneDeps, "B") == ["A"]
    ensures PredsOf(IdSet(LoneTasks), LoneDeps, "Lone") == []
  {
    Graph3(LoneTasks[0], LoneTasks[1], LoneTasks[2]);
    var ids := IdSet(LoneTasks);
    Preds1(ids, LoneDeps[0], "A");
    Preds1(ids, LoneDeps[0], "B");
    Preds1(ids, LoneDeps[0], "Lone");
  }

  lemma LoneStarts(s: map<string, int>)
    requires IsSchedule(LoneTasks, LoneDeps, s)
    ensures s == map["A" := 0, "B" := 3, "Lone" := 20]
  {
    LoneGraph();
    var m := TaskMapOf(LoneTasks);
    assert m["A"] == LoneTasks[0] && m["B"] == LoneTasks[1] && m["Lone"] == LoneTasks[2];
    StartNoPreds(LoneTasks, LoneDeps, s, "A");
    StartOnePred(LoneTasks, LoneDeps, s, "B", "A");
    StartNoPreds(LoneTasks, LoneDeps, s, "Lone");
    Map3(s, "A", "B", "Lone", 0, 3, 20);
  }

  lemma LoneReady()
    ensures DistinctIds(LoneTasks) && BlockedIds(LoneTasks, LoneDeps) == []
  {
    LoneGraph();
    DistinctIds3(LoneTasks[0], LoneTasks[1], LoneTasks[2]);
    var rank := (x: string) => if x == "B" then 1 else 0;
    assert RankedBy(IdSet(LoneTasks), LoneDeps, rank) by {
      assert forall d :: d in LoneDeps ==> d == LoneDeps[0];
    }
    RankedAcyclic(LoneTasks, LoneDeps, rank);
  }

  method LoneExample() returns (r: ScheduleResult)
    ensures r == Ok(map["A" := 0, "B" := 3, "Lone" := 20])
  {
    LoneReady();
    forall s | IsSchedule(LoneTasks, LoneDeps, s) ensures s == map["A" := 0, "B" := 3, "Lone" := 20] {
      LoneStarts(s);
    }
    r := ExpectStarts(LoneTasks, LoneDeps, map["A" := 0, "B" := 3, "Lone" := 20]);
  }

  // ---------------------------------------------------------------------
  // A -> B with B authored at `startB`
  // ---------------------------------------------------------------------

  function PairTasks(startB: int): seq<Task> {
    [MakeTask("A", 0, 3), MakeTask("B", startB, 2)]
  }

  const PairDeps := [Dependency("d1", "A", "B")]

  lemma PairGraph(startB: int)
    ensures IdSet(PairTasks(startB)) == {"A", "B"}
    ensures var ts := PairTasks(startB); TaskMapOf(ts) == map["A" := ts[0], "B" := ts[1]]
    ensures var ids := IdSet(PairTasks(startB));
      PredsOf(ids, PairDeps, "A") == [] && PredsOf(ids, PairDeps, "B") == ["A"]
  {
    var tasks := PairTasks(startB);
    Graph2(tasks[0], tasks[1]);
    Preds1(IdSet(tasks), PairDeps[0], "A");
    Preds1(IdSet(tasks), PairDeps[0], "B");
  }

  /** B starts at the later of its own start and the end of A. */
  lemma PairStarts(startB: int, s: map<string, int>, effective: int)
    requires IsSchedule(PairTasks(startB), PairDeps, s)
    requires effective == Max(3, startB)
    ensures s == map["A" := 0, "B" := effective]
  {
    var tasks := PairTasks(startB);
    PairGraph(startB);
    var m := TaskMapOf(tasks);
    assert m["A"] == tasks[0] && m["B"] == tasks[1];
    StartNoPreds(tasks, PairDeps, s, "A");
    StartOnePred(tasks, PairDeps, s, "B", "A");
    Map2(s, "A", "B", 0, effective);
  }

  lemma PairReady(startB: int)
    ensures DistinctIds(PairTasks(startB)) && BlockedIds(PairTasks(startB), PairDeps) == []
  {
    PairGraph(startB);
    DistinctIds2(PairTasks(startB)[0], PairTasks(startB)[1]);
    var rank := (x: string) => if x == "B" then 1 else 0;
    assert RankedBy(IdSet(PairTasks(startB)), PairDeps, rank) by {
      assert forall d :: d in PairDeps ==> d == PairDeps[0];
    }
    RankedAcyclic(PairTasks(startB), PairDeps, rank);
  }

  /** A successor authored after its predecessor's end keeps its start. */
  method LaterStartExample() returns (r: ScheduleResult)
    ensures r == Ok(map["A" := 0, "B" := 100])
  {
    PairReady(100);
    forall s | IsSchedule(PairTasks(100), PairDeps, s) ensures s == map["A" := 0, "B" := 100] {
      PairStarts(100, s, 100);
    }
    r := ExpectStarts(PairTasks(100), PairDeps, map["A" := 0, "B" := 100]);
  }

  /** An acyclic graph schedules. */
  method NoCycleExample() returns (r: ScheduleResult)
    ensures r.Ok?
  {
    PairReady(0);
    r := Propagate(PairTasks(0), PairDeps);
  }

  // ---------------------------------------------------------------------
  // Cycles
  // ---------------------------------------------------------------------

  const LoopTasks := [MakeTask("A", 0, 3), MakeTask("B", 0, 2)]
  const LoopDeps := [Dependency("d1", "A", "B"), Dependency("d2", "B", "A")]

  lemma LoopGraph()
    ensures IdSet(LoopTasks) == {"A", "B"}
    ensures PredsOf(IdSet(LoopTasks), LoopDeps, "A") == ["B"]
    ensures PredsOf(IdSet(LoopTasks), LoopDeps, "B") == ["A"]
  {
    Graph2(LoopTasks[0], LoopTasks[1]);
    var ids := IdSet(LoopTasks);
    Preds2(ids, LoopDeps[0], LoopDeps[1], "A");
    Preds2(ids, LoopDeps[0], LoopDeps[1], "B");
  }

  lemma LoopBlocked()
    ensures DistinctIds(LoopTasks) && BlockedIds(LoopTasks, LoopDeps) == ["A", "B"]
  {
    LoopGraph();
    DistinctIds2(LoopTasks[0], LoopTasks[1]);
    var ids := IdSet(LoopTasks);
    var s := {"A", "B"};
    assert HasPredIn(ids, LoopDeps, s, "A") && HasPredIn(ids, LoopDeps, s, "B");
    SelfFeedingBlocked(ids, LoopDeps, s, "A");
    SelfFeedingBlocked(ids, LoopDeps, s, "B");
    BlockedAmong2(ids, LoopDeps, LoopTasks[0], LoopTasks[1]);
  }

  /** A -> B -> A: both tasks are reported. */
  method LoopExample() returns (r: ScheduleResult)
    ensures r == Cycle(["A", "B"])
  {
    LoopBlocked();
    r := ExpectCycle(LoopTasks, LoopDeps, ["A", "B"]);
  }

  const KnotTasks := [MakeTask("A", 0, 3), MakeTask("B", 0, 2), MakeTask("C", 0, 1)]
  const KnotDeps := [Dependency("d1", "A", "B"), Dependency("d2", "B", "C"), Dependency("d3", "C", "B")]

  lemma KnotGraph()
    ensures IdSet(KnotTasks) == {"A", "B", "C"}
    ensures PredsOf(IdSet(KnotTasks), KnotDeps, "A") == []
    ensures PredsOf(IdSet(KnotTasks), KnotDeps, "B") == ["A", "C"]
    ensures PredsOf(IdSet(KnotTasks), KnotDeps, "C") == ["B"]
  {
    Graph3(KnotTasks[0], KnotTasks[1], KnotTasks[2]);
    var ids := IdSet(KnotTasks);
    Preds3(ids, KnotDeps[0], KnotDeps[1], KnotDeps[2], "A");
    Preds3(ids, KnotDeps[0], KnotDeps[1], KnotDeps[2], "B");
    Preds3(ids, KnotDeps[0], KnotDeps[1], KnotDeps[2], "C");
  }

  lemma KnotBlocked()
    ensures DistinctIds(KnotTasks) && BlockedIds(KnotTasks, KnotDeps) == ["B", "C"]
  {
    KnotGraph();
    DistinctIds3(KnotTasks[0], KnotTasks[1], KnotTasks[2]);
    var ids := IdSet(KnotTasks);
    Source(ids, KnotDeps, "A");
    var s := {"B", "C"};
    assert HasPredIn(ids, KnotDeps, s, "B") && HasPredIn(ids, KnotDeps, s, "C");
    SelfFeedingBlocked(ids, KnotDeps, s, "B");
    SelfFeedingBlocked(ids, KnotDeps, s, "C");
    BlockedAmong3(ids, KnotDeps, KnotTasks[0], KnotTasks[1], KnotTasks[2]);
    BlockedAmong2(ids, KnotDeps, KnotTasks[1], KnotTasks[2]);
  }

  /** A -> B, B -> C, C -> B: the cycle B, C is reported and A, upstream
      of it, is not. */
  method KnotExample() returns (r: ScheduleResult)
    ensures r == Cycle(["B", "C"])
  {
    KnotBlocked();
    r := ExpectCycle(KnotTasks, KnotDeps, ["B", "C"]);
  }

  // ---------------------------------------------------------------------
  // The end day of a task
  // ---------------------------------------------------------------------

  /** A task starting on day 5 for 3 days ends at day 8, the first day after it. */
  lemma TaskEndExample()
    ensures TaskEnd(5, 3) == 8
  {
  }
}
