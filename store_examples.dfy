/** Runs of the store through the editing sequences of its unit tests. */
module StoreExamples {
  import opened Types
  import opened Scheduler
  import opened ScheduleFacts
  import opened Store

  /** Helper: the partial that gives a task its name and start. */
  function Named(name: string, start: int): TaskPatch {
    TaskPatch(Some(name), Some(start), None, None, None, None)
  }

  /** Helper: two tasks `a` before `b` linked forward block nothing. */
  lemma ForwardPairAcyclic(a: Task, b: Task, d: Dependency)
    requires a.id != b.id && d.fromTaskId == a.id && d.toTaskId == b.id
    ensures BlockedIds([a, b], [d]) == []
  {
    var rank := (x: string) => if x == b.id then 1 else 0;
    RankedAcyclic([a, b], [d], rank);
  }

  /** Helper: the id set of a two-task list. */
  lemma PairIds(a: Task, b: Task)
    ensures IdSet([a, b]) == {a.id, b.id}
  {
    assert forall t :: t in [a, b] <==> t == a || t == b;
  }

  /** Helper: a fresh store holding task A alone. */
  method OneTask() returns (store: ProjectStore, a: Task)
    ensures fresh(store) && store.Valid() && store.Acyclic() && store.WellLinked()
    ensures store.tasks == [a] && a.id == "a" && store.dependencies == [] && store.selectedTaskId == None
  {
    store := new ProjectStore();
    a := store.AddTask(Named("A", 0), "a", 0);
  }

  /** Helper: a fresh store holding task A and then task B, with no dependency. */
  method TwoTasks(startB: int) returns (store: ProjectStore, a: Task, b: Task)
    ensures fresh(store) && store.Valid() && store.Acyclic() && store.WellLinked()
    ensures store.tasks == [a, b] && a.id == "a" && b.id == "b" && store.dependencies == []
    ensures store.selectedTaskId == None
  {
    store, a := OneTask();
    assert IdSet([a]) == {"a"} by {
      assert forall t :: t in [a] <==> t == a;
    }
    b := store.AddTask(Named("B", startB), "b", 0);
  }

  /** Linking A to B succeeds, linking B back to A is refused as a cycle
      and leaves one dependency. */
  method CycleRejected() returns (first: LinkResult, second: LinkResult, links: nat)
    ensures first == LinkResult(true, None)
    ensures second == LinkResult(false, Some(CycleDependencyError))
    ensures links == 1
  {
    var store, a, b := TwoTasks(0);
    var forward := Dependency("d1", "a", "b");
    ForwardPairAcyclic(a, b, forward);
    assert [] + [forward] == [forward];
    first := store.AddDependency("a", "b", "d1");
    var back := Dependency("d2", "b", "a");
    PairIds(a, b);
    BackEdgeBlocks([a, b], [forward], back, forward);
    assert !HasLink([forward], "b", "a");
    second := store.AddDependency("b", "a", "d2");
    links := |store.dependencies|;
  }

  /** Removing the selected task A drops A and the dependency A -> B,
      keeps B and clears the selection. */
  method RemoveCascades() returns (remaining: seq<Task>, links: nat, selected: Option<string>)
    ensures |remaining| == 1 && remaining[0].id == "b" && links == 0 && selected == None
  {
    var store, a, b := TwoTasks(5);
    var forward := Dependency("d1", "a", "b");
    ForwardPairAcyclic(a, b, forward);
    assert [] + [forward] == [forward];
    var linked := store.AddDependency("a", "b", "d1");
    store.SelectTask(Some("a"));
    store.RemoveTask("a");
    remaining, links, selected := store.tasks, |store.dependencies|, store.selectedTaskId;
  }
}
