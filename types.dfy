/** The entities of a Planline project: tasks, finish-to-start dependencies,
    groups and the project record, plus the constants the store and the
    sample generator share. */
module Types {

  datatype Option<T> = None | Some(value: T) {
    function GetOr(default: T): T {
      match this
      case Some(v) => v
      case None => default
    }
  }

  /** A bar on the timeline. `startDayIndex` counts days from the project
      epoch and may be negative; `sortOrder` may be fractional (rows are
      inserted between two others at +0.5). */
  datatype Task = Task(
    id: string,
    name: string,
    startDayIndex: int,
    durationDays: int,
    groupId: Option<string>,
    color: string,
    sortOrder: real)

  /** "fromTaskId finishes before toTaskId starts". */
  datatype Dependency = Dependency(id: string, fromTaskId: string, toTaskId: string)

  datatype Group = Group(id: string, name: string, collapsed: bool, sortOrder: real)

  datatype Project = Project(id: string, name: string, epoch: string)

  /** The ten soft tones new tasks cycle through. */
  const ColorPalette: seq<string> := [
    "#93B5F7", "#7DD3B6", "#FCD077", "#F9A8A8", "#BFA8F7",
    "#F4A8CC", "#7DD8E8", "#FCBB7D", "#7DD3C4", "#A5A7F5"
  ]

  const DefaultProjectName := "Project 01"
  const DefaultProjectId := "default"
  const DefaultTaskName := "New task"
  const DefaultTaskDuration := 3
  const ProjectEpoch := "2024-01-01"

  /** The ids of a task list, as a set. */
  function IdSet(tasks: seq<Task>): set<string> {
    set t | t in tasks :: t.id
  }

  predicate DistinctIds(tasks: seq<Task>) {
    forall i, j :: 0 <= i < j < |tasks| ==> tasks[i].id != tasks[j].id
  }

  predicate DistinctDependencyIds(deps: seq<Dependency>) {
    forall i, j :: 0 <= i < j < |deps| ==> deps[i].id != deps[j].id
  }

  predicate DistinctGroupIds(groups: seq<Group>) {
    forall i, j :: 0 <= i < j < |groups| ==> groups[i].id != groups[j].id
  }

  predicate Distinct(s: seq<string>) {
    forall i, j :: 0 <= i < j < |s| ==> s[i] != s[j]
  }

  /** No element of `a` occurs in `b`. */
  predicate Disjoint(a: seq<string>, b: seq<string>) {
    forall x :: x in a ==> x !in b
  }

  lemma DistinctConcat(a: seq<string>, b: seq<string>)
    ensures Distinct(a + b) <==> Distinct(a) && Distinct(b) && Disjoint(a, b)
  {
    var c := a + b;
    if Distinct(c) {
      forall i, j | 0 <= i < j < |b| ensures b[i] != b[j] {
        assert c[|a| + i] == b[i] && c[|a| + j] == b[j];
      }
      forall i, j | 0 <= i < |a| && 0 <= j < |b| ensures a[i] != b[j] {
        assert c[i] == a[i] && c[|a| + j] == b[j];
      }
      assert forall i, j :: 0 <= i < j < |a| ==> c[i] == a[i] && c[j] == a[j];
    }
    if Distinct(a) && Distinct(b) && Disjoint(a, b) {
      forall i, j | 0 <= i < j < |c| ensures c[i] != c[j] {
        if j < |a| {
          assert c[i] == a[i] && c[j] == a[j];
        } else if i >= |a| {
          assert c[i] == b[i - |a|] && c[j] == b[j - |a|];
        } else {
          assert c[i] == a[i] && c[j] == b[j - |a|];
          assert c[i] in a && c[j] in b;
        }
      }
    }
  }

  /** How many times `x` occurs in `s`. */
  function Count(s: seq<string>, x: string): nat {
    if s == [] then 0 else (if s[0] == x then 1 else 0) + Count(s[1..], x)
  }

  lemma {:induction false} CountAppend(s: seq<string>, y: string, x: string)
    ensures Count(s + [y], x) == Count(s, x) + (if y == x then 1 else 0)
  {
    if s != [] {
      CountAppend(s[1..], y, x);
      assert (s + [y])[1..] == s[1..] + [y];
    }
  }

  /** The elements of `s` that `keep` accepts, in their original order. */
  function Filter<T(!new)>(s: seq<T>, keep: T -> bool): (r: seq<T>)
    ensures |r| <= |s|
    ensures forall x :: x in r <==> x in s && keep(x)
  {
    if s == [] then []
    else (if keep(s[0]) then [s[0]] else []) + Filter(s[1..], keep)
  }

  /** Filtering keeps the relative order: it distributes over
      concatenation. */
  lemma {:induction false} FilterAppend<T(!new)>(a: seq<T>, b: seq<T>, keep: T -> bool)
    ensures Filter(a + b, keep) == Filter(a, keep) + Filter(b, keep)
  {
    if a == [] {
      assert a + b == b;
    } else {
      assert (a + b)[1..] == a[1..] + b;
      FilterAppend(a[1..], b, keep);
    }
  }

  /** Filtering a list every element of which is kept changes nothing. */
  lemma {:induction false} FilterKeepsAll<T(!new)>(s: seq<T>, keep: T -> bool)
    requires forall x :: x in s ==> keep(x)
    ensures Filter(s, keep) == s
  {
    if s != [] {
      FilterKeepsAll(s[1..], keep);
    }
  }

  lemma {:induction false} FilterDistinctIds(tasks: seq<Task>, keep: Task -> bool)
    requires DistinctIds(tasks)
    ensures DistinctIds(Filter(tasks, keep))
  {
    if tasks != [] {
      FilterDistinctIds(tasks[1..], keep);
      var rest := Filter(tasks[1..], keep);
      forall t | t in rest ensures t.id != tasks[0].id {
        var j :| 0 <= j < |tasks[1..]| && tasks[1..][j] == t;
        assert tasks[j + 1] == t;
      }
    }
  }

  lemma {:induction false} FilterDistinctDependencyIds(deps: seq<Dependency>, keep: Dependency -> bool)
    requires DistinctDependencyIds(deps)
    ensures DistinctDependencyIds(Filter(deps, keep))
  {
    if deps != [] {
      FilterDistinctDependencyIds(deps[1..], keep);
      var rest := Filter(deps[1..], keep);
      forall d | d in rest ensures d.id != deps[0].id {
        var j :| 0 <= j < |deps[1..]| && deps[1..][j] == d;
        assert deps[j + 1] == d;
      }
    }
  }

  lemma {:induction false} FilterDistinctGroupIds(groups: seq<Group>, keep: Group -> bool)
    requires DistinctGroupIds(groups)
    ensures DistinctGroupIds(Filter(groups, keep))
  {
    if groups != [] {
      FilterDistinctGroupIds(groups[1..], keep);
      var rest := Filter(groups[1..], keep);
      forall g | g in rest ensures g.id != groups[0].id {
        var j :| 0 <= j < |groups[1..]| && groups[1..][j] == g;
        assert groups[j + 1] == g;
      }
    }
  }

  /** A task list without duplicate ids has as many ids as tasks. */
  lemma {:induction false} IdSetSize(tasks: seq<Task>)
    requires DistinctIds(tasks)
    ensures |IdSet(tasks)| == |tasks|
  {
    if tasks != [] {
      IdSetSize(tasks[1..]);
      assert IdSet(tasks) == {tasks[0].id} + IdSet(tasks[1..]);
      assert tasks[0].id !in IdSet(tasks[1..]);
    }
  }

  /** A list of strings without repetitions has as many elements as its set. */
  lemma {:induction false} DistinctSetSize(s: seq<string>)
    requires Distinct(s)
    ensures |set x | x in s| == |s|
  {
    if s != [] {
      DistinctSetSize(s[1..]);
      assert (set x | x in s) == {s[0]} + (set x | x in s[1..]);
      assert s[0] !in (set x | x in s[1..]);
    }
  }

  lemma SubsetSize<T>(a: set<T>, b: set<T>)
    requires a <= b
    ensures |a| <= |b|
    ensures |a| == |b| ==> a == b
  {
    assert b == a + (b - a);
  }

  /** A list of distinct task ids is no longer than the task list, and it
      names every task exactly when it is as long. */
  lemma DistinctIdListSize(s: seq<string>, tasks: seq<Task>)
    requires Distinct(s) && DistinctIds(tasks)
    requires forall x :: x in s ==> x in IdSet(tasks)
    ensures |s| <= |tasks|
    ensures |s| == |tasks| <==> forall t :: t in tasks ==> t.id in s
  {
    DistinctSetSize(s);
    IdSetSize(tasks);
    var elems := set x | x in s;
    SubsetSize(elems, IdSet(tasks));
    if forall t :: t in tasks ==> t.id in s {
      assert IdSet(tasks) <= elems;
      assert elems == IdSet(tasks);
    }
    if |s| == |tasks| {
      assert elems == IdSet(tasks);
      forall t | t in tasks ensures t.id in s {
        assert t.id in IdSet(tasks);
      }
    }
  }
}
