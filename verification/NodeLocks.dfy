/**
 * Several tasks taking per-node locks at once. A task takes the locks of its nodes one after the
 * other, in the order `lock_nodes` puts them, waits wherever a lock is taken, and gives all of
 * them back when it is finished.
 */
module NodeLocks {
  import opened Prelude

  /** The locks a task wants, in acquisition order, and how many it has so far. */
  datatype Task = Task(order: seq<int>, held: nat, done: bool)

  /** All tasks ever started, and the locks currently taken. */
  datatype State = State(tasks: seq<Task>, locked: set<int>)

  function Holds(t: Task): set<int> {
    if t.done || t.held > |t.order| then {} else set n | n in t.order[..t.held]
  }

  datatype Step =
    | Start(nodeIds: seq<int>)
    | Acquire(task: nat)
    | Finish(task: nat)
    | Cancel(task: nat)

  predicate Unfinished(s: State, i: nat) {
    i < |s.tasks| && !s.tasks[i].done
  }

  predicate CanAcquire(s: State, i: nat) {
    Unfinished(s, i) && s.tasks[i].held < |s.tasks[i].order| && s.tasks[i].order[s.tasks[i].held] !in s.locked
  }

  predicate CanFinish(s: State, i: nat) {
    Unfinished(s, i) && s.tasks[i].held == |s.tasks[i].order|
  }

  /** The task can go on by itself; being cancelled from outside does not count. */
  predicate CanProgress(s: State, i: nat) {
    CanAcquire(s, i) || CanFinish(s, i)
  }

  predicate Enabled(s: State, step: Step) {
    match step
    case Start(_) => true
    case Acquire(i) => CanAcquire(s, i)
    case Finish(i) => CanFinish(s, i)
    case Cancel(i) => Unfinished(s, i)
  }

  function Released(s: State, i: nat): State
    requires i < |s.tasks|
  {
    State(s.tasks[i := s.tasks[i].(done := true)], s.locked - Holds(s.tasks[i]))
  }

  function After(s: State, step: Step): State
    requires Enabled(s, step)
  {
    match step
    case Start(nodeIds) => s.(tasks := s.tasks + [Task(SortDedup(nodeIds), 0, false)])
    case Acquire(i) =>
      var t := s.tasks[i];
      State(s.tasks[i := t.(held := t.held + 1)], s.locked + {t.order[t.held]})
    case Finish(i) => Released(s, i)
    case Cancel(i) => Released(s, i)
  }

  predicate Next(before: State, step: Step, s: State) {
    Enabled(before, step) && s == After(before, step)
  }

  /** A run of these steps from no tasks at all, each step enabled when it is taken, ends in this state. */
  ghost predicate Reaches(steps: seq<Step>, s: State) {
    if steps == [] then s == State([], {})
    else
      var earlier := steps[..|steps| - 1];
      var step := steps[|steps| - 1];
      exists before :: Reaches(earlier, before) && Next(before, step, s)
  }

  // ---------- what every run keeps ----------

  predicate WellFormed(t: Task) {
    t.held <= |t.order| && StrictlyAscending(t.order)
  }

  /** A lock is taken exactly if a task holds it, and then exactly one task does. */
  ghost predicate Exclusive(s: State) {
    (forall i :: 0 <= i < |s.tasks| ==> WellFormed(s.tasks[i]))
    && (forall n :: n in s.locked <==> exists i :: 0 <= i < |s.tasks| && n in Holds(s.tasks[i]))
    && forall i, j, n :: 0 <= i < j < |s.tasks| && n in Holds(s.tasks[i]) ==> n !in Holds(s.tasks[j])
  }

  lemma StartKeepsExclusive(s: State, nodeIds: seq<int>)
    requires Exclusive(s)
    ensures Exclusive(After(s, Start(nodeIds)))
  {
    var t := After(s, Start(nodeIds));
    forall n ensures n in t.locked <==> exists i :: 0 <= i < |t.tasks| && n in Holds(t.tasks[i]) {
      if n in s.locked {
        var i :| 0 <= i < |s.tasks| && n in Holds(s.tasks[i]);
        assert t.tasks[i] == s.tasks[i];
      }
    }
  }

  lemma AcquireKeepsExclusive(s: State, i: nat)
    requires Exclusive(s) && CanAcquire(s, i)
    ensures Exclusive(After(s, Acquire(i)))
  {
    var t := After(s, Acquire(i));
    var task := s.tasks[i];
    var got := task.order[task.held];
    assert task.order[..task.held + 1] == task.order[..task.held] + [got];
    assert Holds(t.tasks[i]) == Holds(task) + {got};
    forall n ensures n in t.locked <==> exists k :: 0 <= k < |t.tasks| && n in Holds(t.tasks[k]) {
      if n in s.locked {
        var k :| 0 <= k < |s.tasks| && n in Holds(s.tasks[k]);
        assert n in Holds(t.tasks[k]);
      }
      if n == got {
        assert n in Holds(t.tasks[i]);
      }
    }
  }

  lemma ReleaseKeepsExclusive(s: State, i: nat)
    requires Exclusive(s) && Unfinished(s, i)
    ensures Exclusive(Released(s, i))
  {
    var t := Released(s, i);
    forall n ensures n in t.locked <==> exists k :: 0 <= k < |t.tasks| && n in Holds(t.tasks[k]) {
      if n in t.locked {
        var k :| 0 <= k < |s.tasks| && n in Holds(s.tasks[k]);
        assert n in Holds(t.tasks[k]);
      }
      if k :| 0 <= k < |t.tasks| && n in Holds(t.tasks[k]) {
        assert n in Holds(s.tasks[k]) && k != i;
      }
    }
  }

  /** Mutual exclusion over every run: no node lock ever has two holders. */
  lemma {:induction false} LocksAreExclusive(steps: seq<Step>, s: State)
    requires Reaches(steps, s)
    ensures Exclusive(s)
  {
    if steps != [] {
      var step := steps[|steps| - 1];
      var before :| Reaches(steps[..|steps| - 1], before) && Next(before, step, s);
      LocksAreExclusive(steps[..|steps| - 1], before);
      match step
      case Start(nodeIds) => StartKeepsExclusive(before, nodeIds);
      case Acquire(i) => AcquireKeepsExclusive(before, i);
      case Finish(i) => ReleaseKeepsExclusive(before, i);
      case Cancel(i) => ReleaseKeepsExclusive(before, i);
    }
  }

  // ---------- no deadlock ----------

  /** Follows the chain of waiting tasks: each next one waits for a larger node, so it ends. */
  lemma {:induction false} SomeoneProgresses(s: State, i: nat, bound: int) returns (j: nat)
    requires Exclusive(s) && Unfinished(s, i)
    requires forall k, n :: 0 <= k < |s.tasks| && n in s.tasks[k].order ==> n <= bound
    ensures CanProgress(s, j)
    decreases if s.tasks[i].held < |s.tasks[i].order| then bound - s.tasks[i].order[s.tasks[i].held] else -1
  {
    if CanProgress(s, i) {
      return i;
    }
    var wanted := s.tasks[i].order[s.tasks[i].held];
    assert wanted in s.locked;
    var k :| 0 <= k < |s.tasks| && wanted in Holds(s.tasks[k]);
    assert k != i;
    if CanProgress(s, k) {
      return k;
    }
    assert s.tasks[k].order[s.tasks[k].held] in s.tasks[k].order;
    j := SomeoneProgresses(s, k, bound);
  }

  function Largest(ids: seq<int>): (m: int)
    ensures forall n :: n in ids ==> n <= m
  {
    if ids == [] then 0
    else
      assert ids == [ids[0]] + ids[1..];
      Max(ids[0], Largest(ids[1..]))
  }

  function LargestWanted(tasks: seq<Task>): (m: int)
    ensures forall k, n :: 0 <= k < |tasks| && n in tasks[k].order ==> n <= m
  {
    if tasks == [] then 0
    else
      var rest := LargestWanted(tasks[1..]);
      assert forall k :: 0 < k < |tasks| ==> tasks[k] == tasks[1..][k - 1];
      Max(Largest(tasks[0].order), rest)
  }

  /**
   * Deadlock freedom: for any number of tasks started with any node lists, in any order and with
   * repetitions, every state a run can reach with a task unfinished has a task that can go on.
   */
  lemma {:induction false} NeverDeadlocked(steps: seq<Step>, s: State, i: nat)
    requires Reaches(steps, s) && Unfinished(s, i)
    ensures exists j :: CanProgress(s, j)
  {
    LocksAreExclusive(steps, s);
    var j := SomeoneProgresses(s, i, LargestWanted(s.tasks));
  }

  /** The acquisitions and releases still ahead of the started tasks. */
  function Work(tasks: seq<Task>): nat {
    if tasks == [] then 0
    else (if tasks[0].done || tasks[0].held > |tasks[0].order| then 0 else |tasks[0].order| - tasks[0].held + 1)
         + Work(tasks[1..])
  }

  lemma {:induction false} WorkOfUpdate(tasks: seq<Task>, i: nat, t: Task)
    requires i < |tasks|
    ensures Work(tasks[i := t]) == Work(tasks) - Work([tasks[i]]) + Work([t])
  {
    if i > 0 {
      assert tasks[i := t][1..] == tasks[1..][i - 1 := t];
      WorkOfUpdate(tasks[1..], i - 1, t);
    } else {
      assert tasks[0 := t][1..] == tasks[1..];
    }
  }

  /** Every step a task takes on its own uses up work. */
  lemma ProgressUsesUpWork(s: State, i: nat)
    requires CanProgress(s, i)
    ensures Work(After(s, if CanAcquire(s, i) then Acquire(i) else Finish(i)).tasks) < Work(s.tasks)
  {
    var t := s.tasks[i];
    if CanAcquire(s, i) {
      WorkOfUpdate(s.tasks, i, t.(held := t.held + 1));
    } else {
      WorkOfUpdate(s.tasks, i, t.(done := true));
    }
  }

  /** A run of these steps leads from one state to the other. */
  ghost predicate Leads(s: State, steps: seq<Step>, t: State)
    decreases |steps|
  {
    if steps == [] then s == t else Enabled(s, steps[0]) && Leads(After(s, steps[0]), steps[1..], t)
  }

  /** No task is started and none is cancelled. */
  predicate OnlyProgress(steps: seq<Step>) {
    forall step :: step in steps ==> step.Acquire? || step.Finish?
  }

  predicate AllDone(s: State) {
    forall i :: 0 <= i < |s.tasks| ==> !Unfinished(s, i)
  }

  lemma OneStepFurther(steps: seq<Step>, s: State, step: Step)
    requires Reaches(steps, s) && Enabled(s, step)
    ensures Reaches(steps + [step], After(s, step))
  {
    var longer := steps + [step];
    assert longer[..|longer| - 1] == steps && longer[|longer| - 1] == step;
    assert Reaches(longer[..|longer| - 1], s) && Next(s, step, After(s, step));
    assert longer != [];
  }

  /**
   * However the tasks are scheduled once no more of them start: a run has at most as many steps as
   * there is work, and when nobody can go on any more, every task has finished.
   */
  lemma {:induction false} EveryScheduleFinishes(steps: seq<Step>, s: State, more: seq<Step>, t: State)
    requires Reaches(steps, s) && Leads(s, more, t) && OnlyProgress(more)
    ensures |more| + Work(t.tasks) <= Work(s.tasks)
    ensures AllDone(t) <==> forall j :: !CanProgress(t, j)
    decreases |more|
  {
    if more == [] {
      if !AllDone(t) {
        var i :| 0 <= i < |t.tasks| && Unfinished(t, i);
        NeverDeadlocked(steps, t, i);
      }
    } else {
      var step := more[0];
      assert step in more && forall st :: st in more[1..] ==> st in more;
      ProgressUsesUpWork(s, step.task);
      OneStepFurther(steps, s, step);
      EveryScheduleFinishes(steps + [step], After(s, step), more[1..], t);
    }
  }

  /** And from every reachable state there is such a run, so all tasks do finish. */
  lemma {:induction false} AllTasksCanFinish(steps: seq<Step>, s: State) returns (more: seq<Step>, t: State)
    requires Reaches(steps, s)
    ensures Leads(s, more, t) && OnlyProgress(more) && AllDone(t)
    decreases Work(s.tasks)
  {
    if AllDone(s) {
      more, t := [], s;
    } else {
      var i :| 0 <= i < |s.tasks| && Unfinished(s, i);
      NeverDeadlocked(steps, s, i);
      var j :| CanProgress(s, j);
      var step := if CanAcquire(s, j) then Acquire(j) else Finish(j);
      ProgressUsesUpWork(s, j);
      OneStepFurther(steps, s, step);
      var rest;
      rest, t := AllTasksCanFinish(steps + [step], After(s, step));
      more := [step] + rest;
      assert more[1..] == rest;
    }
  }

  // ---------- why the order matters ----------

  /** Two tasks that took the same two locks in opposite orders would block each other for good. */
  lemma OppositeOrdersBlock()
    ensures var start := State([Task([1, 2], 0, false), Task([2, 1], 0, false)], {});
            CanAcquire(start, 0)
            && CanAcquire(After(start, Acquire(0)), 1)
            && forall j :: !CanProgress(After(After(start, Acquire(0)), Acquire(1)), j)
  {
  }

  /** A task that asked for the same lock twice would block itself. */
  lemma RepetitionBlocks()
    ensures var start := State([Task([1, 1], 0, false)], {});
            CanAcquire(start, 0) && forall j :: !CanProgress(After(start, Acquire(0)), j)
  {
  }
}
