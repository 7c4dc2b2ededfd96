/** Properties of the schedule specification: when a schedule exists it is
    unique, which graphs have no blocked task, which edits keep a graph
    free of cycles, and which task fields the answer does not read. */
module ScheduleFacts {
  import opened Types
  import opened Scheduler

  // ---------------------------------------------------------------------
  // Predecessor lists and subgraphs
  // ---------------------------------------------------------------------

  /** Every kept dependency puts its source in its target's predecessor list. */
  lemma {:induction false} PredsOfComplete(ids: set<string>, deps: seq<Dependency>, d: Dependency)
    requires d in deps && Kept(ids, d)
    ensures d.fromTaskId in PredsOf(ids, deps, d.toTaskId)
  {
    var n := |deps| - 1;
    if deps[n] != d {
      assert deps == deps[..n] + [deps[n]];
      assert d in deps[..n];
      PredsOfComplete(ids, deps[..n], d);
    }
  }

  /** Every kept dependency of graph 1 is a kept dependency of graph 2. */
  ghost predicate KeptWithin(ids1: set<string>, deps1: seq<Dependency>, ids2: set<string>, deps2: seq<Dependency>) {
    forall d :: d in deps1 && Kept(ids1, d) ==> d in deps2 && Kept(ids2, d)
  }

  lemma PredsWithin(ids1: set<string>, deps1: seq<Dependency>, ids2: set<string>, deps2: seq<Dependency>, x: string, p: string)
    requires KeptWithin(ids1, deps1, ids2, deps2)
    requires p in PredsOf(ids1, deps1, x)
    ensures p in PredsOf(ids2, deps2, x)
  {
    PredsOfSource(ids1, deps1, x, p);
    var d :| d in deps1 && Kept(ids1, d) && d.toTaskId == x && d.fromTaskId == p;
    PredsOfComplete(ids2, deps2, d);
  }

  /** A predecessor chain of a subgraph is one of the whole graph. */
  lemma {:induction false} WalkWithin(ids1: set<string>, deps1: seq<Dependency>, ids2: set<string>, deps2: seq<Dependency>,
                                      x: string, k: nat)
    requires KeptWithin(ids1, deps1, ids2, deps2)
    requires HasWalk(ids1, deps1, x, k)
    ensures HasWalk(ids2, deps2, x, k)
    decreases k
  {
    if k > 0 {
      var p :| p in PredsOf(ids1, deps1, x) && HasWalk(ids1, deps1, p, k - 1);
      PredsWithin(ids1, deps1, ids2, deps2, x, p);
      WalkWithin(ids1, deps1, ids2, deps2, p, k - 1);
    }
  }

  lemma BlockedWithin(ids1: set<string>, deps1: seq<Dependency>, ids2: set<string>, deps2: seq<Dependency>, x: string)
    requires KeptWithin(ids1, deps1, ids2, deps2)
    requires Blocked(ids1, deps1, x)
    ensures Blocked(ids2, deps2, x)
  {
    forall k: nat ensures HasWalk(ids2, deps2, x, k) {
      WalkWithin(ids1, deps1, ids2, deps2, x, k);
    }
  }

  /** Dropping tasks or dependencies never creates a cycle: if the whole
      graph blocks nothing, neither does any subgraph of it. */
  lemma SubgraphAcyclic(tasks1: seq<Task>, deps1: seq<Dependency>, tasks2: seq<Task>, deps2: seq<Dependency>)
    requires forall t :: t in tasks1 ==> t.id in IdSet(tasks2)
    requires KeptWithin(IdSet(tasks1), deps1, IdSet(tasks2), deps2)
    requires BlockedIds(tasks2, deps2) == []
    ensures BlockedIds(tasks1, deps1) == []
  {
    BlockedIdsEmpty(tasks2, deps2);
    forall t | t in tasks1 ensures !Blocked(IdSet(tasks1), deps1, t.id) {
      var u :| u in tasks2 && u.id == t.id;
      if Blocked(IdSet(tasks1), deps1, t.id) {
        BlockedWithin(IdSet(tasks1), deps1, IdSet(tasks2), deps2, t.id);
      }
    }
    BlockedIdsEmpty(tasks1, deps1);
  }

  /** A graph whose tasks and dependencies are all taken from another one
      lies within it; removing tasks, dependencies or both gives such a
      graph. */
  lemma SubgraphWithin(tasks1: seq<Task>, deps1: seq<Dependency>, tasks2: seq<Task>, deps2: seq<Dependency>)
    requires forall t :: t in tasks1 ==> t in tasks2
    requires forall d :: d in deps1 ==> d in deps2
    ensures forall t :: t in tasks1 ==> t.id in IdSet(tasks2)
    ensures KeptWithin(IdSet(tasks1), deps1, IdSet(tasks2), deps2)
  {
    forall x | x in IdSet(tasks1) ensures x in IdSet(tasks2) {
      var t :| t in tasks1 && t.id == x;
    }
  }

  /** A task whose id is new and that no dependency mentions cannot be on
      or behind a cycle, and adding it changes nothing for the others. */
  lemma FreshTaskAcyclic(tasks: seq<Task>, deps: seq<Dependency>, t: Task)
    requires t.id !in IdSet(tasks)
    requires forall d :: d in deps ==> d.fromTaskId != t.id && d.toTaskId != t.id
    requires BlockedIds(tasks, deps) == []
    ensures BlockedIds(tasks + [t], deps) == []
  {
    var ids, ids1 := IdSet(tasks), IdSet(tasks + [t]);
    assert ids1 == ids + {t.id} by {
      assert forall u :: u in tasks + [t] <==> u in tasks || u == t;
    }
    assert KeptWithin(ids1, deps, ids, deps);
    BlockedIdsEmpty(tasks, deps);
    forall u | u in tasks + [t] ensures !Blocked(ids1, deps, u.id) {
      if u == t {
        if PredsOf(ids1, deps, t.id) != [] {
          var p := PredsOf(ids1, deps, t.id)[0];
          PredsOfSource(ids1, deps, t.id, p);
        }
        assert !HasWalk(ids1, deps, t.id, 1);
      } else if Blocked(ids1, deps, u.id) {
        BlockedWithin(ids1, deps, ids, deps, u.id);
      }
    }
    BlockedIdsEmpty(tasks + [t], deps);
  }

  // ---------------------------------------------------------------------
  // Graphs with and without blocked tasks
  // ---------------------------------------------------------------------

  /** A ranking that every kept dependency climbs. */
  ghost predicate RankedBy(ids: set<string>, deps: seq<Dependency>, rank: string -> nat) {
    forall d :: d in deps && Kept(ids, d) ==> rank(d.fromTaskId) < rank(d.toTaskId)
  }

  lemma {:induction false} RankBoundsWalks(ids: set<string>, deps: seq<Dependency>, rank: string -> nat, x: string, k: nat)
    requires RankedBy(ids, deps, rank)
    requires k > rank(x)
    ensures !HasWalk(ids, deps, x, k)
    decreases rank(x)
  {
    if HasWalk(ids, deps, x, k) {
      var p :| p in PredsOf(ids, deps, x) && HasWalk(ids, deps, p, k - 1);
      PredsOfSource(ids, deps, x, p);
      RankBoundsWalks(ids, deps, rank, p, k - 1);
    }
  }

  /** When every kept dependency points up some ranking, no task is
      blocked: the graph has no cycle. */
  lemma RankedAcyclic(tasks: seq<Task>, deps: seq<Dependency>, rank: string -> nat)
    requires RankedBy(IdSet(tasks), deps, rank)
    ensures BlockedIds(tasks, deps) == []
  {
    forall t | t in tasks ensures !Blocked(IdSet(tasks), deps, t.id) {
      RankBoundsWalks(IdSet(tasks), deps, rank, t.id, rank(t.id) + 1);
    }
    BlockedIdsEmpty(tasks, deps);
  }

  /** `x` has a predecessor in `s`. */
  ghost predicate HasPredIn(ids: set<string>, deps: seq<Dependency>, s: set<string>, x: string) {
    exists p :: p in PredsOf(ids, deps, x) && p in s
  }

  /** Every member of `s` has a predecessor in `s`; a cycle is the
      smallest such set. */
  ghost predicate SelfFeeding(ids: set<string>, deps: seq<Dependency>, s: set<string>) {
    forall x {:trigger HasPredIn(ids, deps, s, x)} :: x in s ==> HasPredIn(ids, deps, s, x)
  }

  lemma {:induction false} SelfFeedingWalks(ids: set<string>, deps: seq<Dependency>, s: set<string>, x: string, k: nat)
    requires SelfFeeding(ids, deps, s) && x in s
    ensures HasWalk(ids, deps, x, k)
    decreases k
  {
    if k > 0 {
      assert HasPredIn(ids, deps, s, x);
      var p :| p in PredsOf(ids, deps, x) && p in s;
      SelfFeedingWalks(ids, deps, s, p, k - 1);
    }
  }

  /** Every task of a cycle is blocked. */
  lemma SelfFeedingBlocked(ids: set<string>, deps: seq<Dependency>, s: set<string>, x: string)
    requires SelfFeeding(ids, deps, s) && x in s
    ensures Blocked(ids, deps, x)
  {
    forall k: nat ensures HasWalk(ids, deps, x, k) {
      SelfFeedingWalks(ids, deps, s, x, k);
    }
  }

  /** A task downstream of a blocked task is blocked. */
  lemma DownstreamBlocked(ids: set<string>, deps: seq<Dependency>, p: string, x: string)
    requires Blocked(ids, deps, p) && p in PredsOf(ids, deps, x)
    ensures Blocked(ids, deps, x)
  {
    forall k: nat ensures HasWalk(ids, deps, x, k) {
      if k > 0 {
        assert HasWalk(ids, deps, p, k - 1);
      }
    }
  }

  /** Closing a loop: if `b` already depends on `a`, a dependency from `b`
      to `a` puts both on a cycle. */
  lemma BackEdgeBlocks(tasks: seq<Task>, deps: seq<Dependency>, back: Dependency, forward: Dependency)
    requires forward in deps && Kept(IdSet(tasks), forward)
    requires back.fromTaskId == forward.toTaskId && back.toTaskId == forward.fromTaskId
    ensures BlockedIds(tasks, deps + [back]) != []
  {
    var ids, deps1 := IdSet(tasks), deps + [back];
    var a, b := forward.fromTaskId, forward.toTaskId;
    PredsOfComplete(ids, deps1, forward);
    PredsOfComplete(ids, deps1, back);
    var s := {a, b};
    assert HasPredIn(ids, deps1, s, a) && HasPredIn(ids, deps1, s, b);
    SelfFeedingBlocked(ids, deps1, s, a);
    var t :| t in tasks && t.id == a;
    BlockedIdsEmpty(tasks, deps1);
  }

  // ---------------------------------------------------------------------
  // Uniqueness of the schedule
  // ---------------------------------------------------------------------

  /** Two schedules agree on every task without a predecessor chain of
      length `k`. */
  lemma {:induction false} SchedulesAgreeBelow(tasks: seq<Task>, deps: seq<Dependency>, s1: map<string, int>, s2: map<string, int>,
                                              k: nat)
    requires IsSchedule(tasks, deps, s1) && IsSchedule(tasks, deps, s2)
    ensures forall x {:trigger s1[x]} :: x in IdSet(tasks) && !HasWalk(IdSet(tasks), deps, x, k) ==> s1[x] == s2[x]
  {
    if k > 0 {
      SchedulesAgreeBelow(tasks, deps, s1, s2, k - 1);
      forall x | x in IdSet(tasks) && !HasWalk(IdSet(tasks), deps, x, k) ensures s1[x] == s2[x] {
        SchedulesAgreeStep(tasks, deps, s1, s2, x, k);
      }
    }
  }

  /** Two schedules that agree on the predecessors of `x` agree on `x`. */
  lemma SchedulesAgreeStep(tasks: seq<Task>, deps: seq<Dependency>, s1: map<string, int>, s2: map<string, int>, x: string, k: nat)
    requires k > 0
    requires IsSchedule(tasks, deps, s1) && IsSchedule(tasks, deps, s2)
    requires forall y {:trigger s1[y]} :: y in IdSet(tasks) && !HasWalk(IdSet(tasks), deps, y, k - 1) ==> s1[y] == s2[y]
    requires x in IdSet(tasks) && !HasWalk(IdSet(tasks), deps, x, k)
    ensures s1[x] == s2[x]
  {
    var ids, m := IdSet(tasks), TaskMapOf(tasks);
    var preds := PredsOf(ids, deps, x);
    assert forall p :: p in preds ==> p in ids && !HasWalk(ids, deps, p, k - 1);
    ScheduleAt(tasks, deps, s1, x);
    ScheduleAt(tasks, deps, s2, x);
    LatestEndDependsOnPreds(m[x].startDayIndex, preds, s1, s2, m, m);
  }

  /** The start a schedule gives the task with id `x`. */
  lemma ScheduleAt(tasks: seq<Task>, deps: seq<Dependency>, s: map<string, int>, x: string)
    requires IsSchedule(tasks, deps, s) && x in IdSet(tasks)
    ensures x in s && forall p :: p in PredsOf(IdSet(tasks), deps, x) ==> p in s
    ensures s[x] == LatestEnd(TaskMapOf(tasks)[x].startDayIndex, PredsOf(IdSet(tasks), deps, x), s, TaskMapOf(tasks))
  {
    var t := TaskMapOf(tasks)[x];
    assert t in tasks;
    assert StartFits(tasks, deps, s, t);
  }

  /** There is at most one schedule once nothing is blocked, so the
      starts `Propagate` returns are the only possible answer. */
  lemma ScheduleUnique(tasks: seq<Task>, deps: seq<Dependency>, s1: map<string, int>, s2: map<string, int>)
    requires BlockedIds(tasks, deps) == []
    requires IsSchedule(tasks, deps, s1) && IsSchedule(tasks, deps, s2)
    ensures s1 == s2
  {
    BlockedIdsEmpty(tasks, deps);
    forall x | x in IdSet(tasks) ensures s1[x] == s2[x] {
      var t :| t in tasks && t.id == x;
      var k: nat :| !HasWalk(IdSet(tasks), deps, x, k);
      SchedulesAgreeBelow(tasks, deps, s1, s2, k);
    }
  }

  /** No task is scheduled before its authored start. */
  lemma ScheduleNeverEarly(tasks: seq<Task>, deps: seq<Dependency>, starts: map<string, int>, x: string)
    requires IsSchedule(tasks, deps, starts) && x in IdSet(tasks)
    ensures x in starts && starts[x] >= TaskMapOf(tasks)[x].startDayIndex
  {
    ScheduleAt(tasks, deps, starts, x);
  }

  /** A scheduled task never starts before any of its predecessors ends. */
  lemma ScheduleRespectsDependencies(tasks: seq<Task>, deps: seq<Dependency>, starts: map<string, int>, d: Dependency)
    requires IsSchedule(tasks, deps, starts)
    requires d in deps && Kept(IdSet(tasks), d)
    ensures var from := TaskMapOf(tasks)[d.fromTaskId];
            starts[d.toTaskId] >= TaskEnd(starts[d.fromTaskId], from.durationDays)
  {
    var m := TaskMapOf(tasks);
    PredsOfComplete(IdSet(tasks), deps, d);
    var t := m[d.toTaskId];
    assert t in tasks;
    assert StartFits(tasks, deps, starts, t);
  }

  // ---------------------------------------------------------------------
  // Fields the scheduler does not read
  // ---------------------------------------------------------------------

  /** The two lists hold the same ids, position by position. */
  ghost predicate SameIds(ts1: seq<Task>, ts2: seq<Task>) {
    |ts1| == |ts2| && forall i :: 0 <= i < |ts1| ==> ts1[i].id == ts2[i].id
  }

  /** The two lists hold the same ids, starts and durations, position by
      position; names, colours, groups and sort orders may differ. */
  ghost predicate SameTiming(ts1: seq<Task>, ts2: seq<Task>) {
    && SameIds(ts1, ts2)
    && forall i :: 0 <= i < |ts1| ==>
         ts1[i].startDayIndex == ts2[i].startDayIndex && ts1[i].durationDays == ts2[i].durationDays
  }

  lemma {:induction false} SameIdsIdSet(ts1: seq<Task>, ts2: seq<Task>)
    requires SameIds(ts1, ts2)
    ensures IdSet(ts1) == IdSet(ts2)
    ensures DistinctIds(ts1) <==> DistinctIds(ts2)
  {
    forall x | x in IdSet(ts1) ensures x in IdSet(ts2) {
      var t :| t in ts1 && t.id == x;
      var i :| 0 <= i < |ts1| && ts1[i] == t;
      assert ts2[i] in ts2;
    }
    forall x | x in IdSet(ts2) ensures x in IdSet(ts1) {
      var t :| t in ts2 && t.id == x;
      var i :| 0 <= i < |ts2| && ts2[i] == t;
      assert ts1[i] in ts1;
    }
  }

  /** Which tasks are blocked depends on their ids only. */
  lemma {:induction false} SameIdsBlockedAmong(ids: set<string>, deps: seq<Dependency>, ts1: seq<Task>, ts2: seq<Task>)
    requires SameIds(ts1, ts2)
    ensures BlockedAmong(ids, deps, ts1) == BlockedAmong(ids, deps, ts2)
  {
    if ts1 != [] {
      SameIdsBlockedAmong(ids, deps, ts1[1..], ts2[1..]);
    }
  }

  /** Changing anything but the ids of the tasks leaves the blocked ids as
      they were. */
  lemma SameIdsBlocked(ts1: seq<Task>, ts2: seq<Task>, deps: seq<Dependency>)
    requires SameIds(ts1, ts2)
    ensures BlockedIds(ts1, deps) == BlockedIds(ts2, deps)
  {
    SameIdsIdSet(ts1, ts2);
    SameIdsBlockedAmong(IdSet(ts1), deps, ts1, ts2);
  }

  lemma SameTimingTaskMap(ts1: seq<Task>, ts2: seq<Task>)
    requires SameTiming(ts1, ts2)
    ensures TaskMapOf(ts1).Keys == TaskMapOf(ts2).Keys
    ensures forall x :: x in TaskMapOf(ts1) ==>
              TaskMapOf(ts1)[x].startDayIndex == TaskMapOf(ts2)[x].startDayIndex &&
              TaskMapOf(ts1)[x].durationDays == TaskMapOf(ts2)[x].durationDays
  {
    SameIdsIdSet(ts1, ts2);
    forall x | x in TaskMapOf(ts1)
      ensures TaskMapOf(ts1)[x].startDayIndex == TaskMapOf(ts2)[x].startDayIndex
      ensures TaskMapOf(ts1)[x].durationDays == TaskMapOf(ts2)[x].durationDays
    {
      SameTimingTaskMapAt(ts1, ts2, x);
    }
  }

  /** The task the map holds for `x` has the same timing in both lists. */
  lemma {:induction false} SameTimingTaskMapAt(ts1: seq<Task>, ts2: seq<Task>, x: string)
    requires SameTiming(ts1, ts2) && x in TaskMapOf(ts1)
    ensures x in TaskMapOf(ts2)
    ensures TaskMapOf(ts1)[x].startDayIndex == TaskMapOf(ts2)[x].startDayIndex
    ensures TaskMapOf(ts1)[x].durationDays == TaskMapOf(ts2)[x].durationDays
  {
    assert ts1 != [] by { assert TaskMapOf(ts1)[x] in ts1; }
    TaskMapSnoc(ts1);
    TaskMapSnoc(ts2);
    var n := |ts1| - 1;
    var a, b := ts1[n], ts2[n];
    assert a.id == b.id && a.startDayIndex == b.startDayIndex && a.durationDays == b.durationDays;
    var m1, m2 := TaskMapOf(ts1[..n]), TaskMapOf(ts2[..n]);
    if x == a.id {
      assert TaskMapOf(ts1)[x] == a && TaskMapOf(ts2)[x] == b;
    } else {
      assert x in m1 && TaskMapOf(ts1)[x] == m1[x];
      SameTimingPrefix(ts1, ts2, n);
      SameTimingTaskMapAt(ts1[..n], ts2[..n], x);
      assert TaskMapOf(ts2)[x] == m2[x];
    }
  }

  /** The map of a list is the map of all but its last task, updated with the last. */
  lemma TaskMapSnoc(ts: seq<Task>)
    requires ts != []
    ensures TaskMapOf(ts) == TaskMapOf(ts[..|ts| - 1])[ts[|ts| - 1].id := ts[|ts| - 1]]
  {
  }

  lemma SameTimingPrefix(ts1: seq<Task>, ts2: seq<Task>, n: nat)
    requires SameTiming(ts1, ts2) && n <= |ts1|
    ensures SameTiming(ts1[..n], ts2[..n])
  {
  }

  lemma ScheduleTransfers(ts1: seq<Task>, ts2: seq<Task>, deps: seq<Dependency>, starts: map<string, int>)
    requires SameTiming(ts1, ts2) && IsSchedule(ts1, deps, starts)
    ensures IsSchedule(ts2, deps, starts)
  {
    SameIdsIdSet(ts1, ts2);
    SameTimingTaskMap(ts1, ts2);
    var ids, m1, m2 := IdSet(ts1), TaskMapOf(ts1), TaskMapOf(ts2);
    forall t | t in ts2 ensures StartFits(ts2, deps, starts, t) {
      var i :| 0 <= i < |ts2| && ts2[i] == t;
      assert ts1[i] in ts1;
      assert StartFits(ts1, deps, starts, ts1[i]);
      LatestEndDependsOnPreds(ts1[i].startDayIndex, PredsOf(ids, deps, ts1[i].id), starts, starts, m1, m2);
    }
  }

  /** Changing only fields the scheduler does not read changes neither the
      blocked ids nor which maps are schedules. */
  lemma SameTimingSchedule(ts1: seq<Task>, ts2: seq<Task>, deps: seq<Dependency>, starts: map<string, int>)
    requires SameTiming(ts1, ts2)
    ensures BlockedIds(ts1, deps) == BlockedIds(ts2, deps)
    ensures IsSchedule(ts1, deps, starts) <==> IsSchedule(ts2, deps, starts)
  {
    SameIdsBlocked(ts1, ts2, deps);
    if IsSchedule(ts1, deps, starts) {
      ScheduleTransfers(ts1, ts2, deps, starts);
    }
    if IsSchedule(ts2, deps, starts) {
      ScheduleTransfers(ts2, ts1, deps, starts);
    }
  }
}
