/**
  `WorkerManager` (src/workers/worker_manager.py): the registry of named workers and the asyncio
  tasks that run them. A task is reduced to whether it is still running; the event loop that finishes
  tasks is the `TaskFinished` method.
 */
module WorkerManagement {
  import opened Wrappers
  import opened Workers

  /** The state of the asyncio task started for a worker. */
  datatype Task = Pending | Done

  /** `name not in self.tasks or self.tasks[name].done()`: the worker may be started. */
  predicate Startable(tasks: map<string, Task>, name: string) {
    name !in tasks || tasks[name].Done?
  }

  /** `self.tasks` after the loop of `start_workers` over `names`: every startable name gets a new
      task, in order. */
  function Started(tasks: map<string, Task>, names: seq<string>): map<string, Task> {
    if names == [] then tasks
    else
      var before := Started(tasks, names[..|names| - 1]);
      var name := names[|names| - 1];
      if Startable(before, name) then before[name := Pending] else before
  }

  ghost predicate Distinct(s: seq<string>) {
    forall i, j :: 0 <= i < j < |s| ==> s[i] != s[j]
  }

  /** After `start_workers`, every listed name has a running task, the tasks of other names are
      untouched, and a name already running keeps its task. */
  lemma {:induction false} StartedTasks(tasks: map<string, Task>, names: seq<string>, n: string)
    ensures n in names ==> n in Started(tasks, names) && Started(tasks, names)[n] == Pending
    ensures n !in names ==> (n in Started(tasks, names) <==> n in tasks)
    ensures n !in names && n in tasks ==> Started(tasks, names)[n] == tasks[n]
  {
    if names != [] {
      StartedTasks(tasks, names[..|names| - 1], n);
      assert n in names <==> n in names[..|names| - 1] || n == names[|names| - 1];
    }
  }

  /** With distinct names, the loop starts exactly the names that were startable before it. */
  lemma {:induction false} StartedDecision(tasks: map<string, Task>, names: seq<string>, i: nat)
    requires Distinct(names) && i < |names|
    ensures Startable(Started(tasks, names[..i]), names[i]) <==> Startable(tasks, names[i])
  {
    var n := names[i];
    assert n !in names[..i] by {
      forall j | 0 <= j < i ensures names[..i][j] != n {
        assert names[..i][j] == names[j];
      }
    }
    StartedTasks(tasks, names[..i], n);
  }

  /** The loop of `start_workers` one name further: that name is started when, and only when, it was
      startable before the loop. */
  lemma StartedSnoc(tasks: map<string, Task>, names: seq<string>, i: nat)
    requires Distinct(names) && i < |names|
    ensures Started(tasks, names[..i + 1]) ==
              if Startable(tasks, names[i]) then Started(tasks, names[..i])[names[i] := Pending]
              else Started(tasks, names[..i])
  {
    assert names[..i + 1][..i] == names[..i];
    StartedDecision(tasks, names, i);
  }

  /** The loop adds exactly the listed names to the recorded tasks. */
  lemma StartedDomain(tasks: map<string, Task>, names: seq<string>)
    ensures forall n :: n in Started(tasks, names) <==> n in tasks || n in names
  {
    forall n ensures n in Started(tasks, names) <==> n in tasks || n in names {
      StartedTasks(tasks, names, n);
    }
  }

  /** A second `start_workers` with every task still running starts nothing. */
  lemma StartTwiceStartsNothing(tasks: map<string, Task>, names: seq<string>, n: string)
    requires n in names
    ensures !Startable(Started(tasks, names), n)
  {
    StartedTasks(tasks, names, n);
  }

  /** The workers `start_workers` hands the timestamp to. */
  ghost function StartedWorkers(workers: map<string, BaseWorker>, tasks: map<string, Task>, names: seq<string>): set<BaseWorker> {
    set n | n in names && n in workers && Startable(tasks, n) :: workers[n]
  }

  /** The workers `stop_workers` stops. */
  ghost function RunningWorkers(workers: map<string, BaseWorker>, tasks: map<string, Task>, names: seq<string>): set<BaseWorker> {
    set n | n in names && n in workers && n in tasks && tasks[n].Pending? :: workers[n]
  }

  class WorkerManager {
    var workers: map<string, BaseWorker>
    /** The keys of `workers` in insertion order. */
    var order: seq<string>
    var tasks: map<string, Task>
    var currentTimestamp: Option<int>

    ghost predicate Valid()
      reads this
    {
      Distinct(order) && (forall n :: n in order <==> n in workers) && tasks.Keys <= workers.Keys
    }

    constructor()
      ensures Valid()
      ensures workers == map[] && order == [] && tasks == map[] && currentTimestamp.None?
    {
      workers := map[];
      order := [];
      tasks := map[];
      currentTimestamp := None;
    }

    /** `register_worker`: inserts the worker, or replaces the one of the same name in place; the
        replaced worker's task, if any, stays recorded under the name. */
    method RegisterWorker(name: string, worker: BaseWorker)
      requires Valid()
      modifies this
      ensures Valid()
      ensures workers == old(workers)[name := worker]
      ensures order == if name in old(workers) then old(order) else old(order) + [name]
      ensures tasks == old(tasks) && currentTimestamp == old(currentTimestamp)
    {
      if name !in workers {
        order := order + [name];
      }
      workers := workers[name := worker];
    }

    /** `get_worker`: the registered worker, or a `KeyError` for an unknown name. */
    function GetWorker(name: string): (r: Result<BaseWorker, string>)
      reads this
      ensures r.Success? <==> name in workers
      ensures r.Success? ==> r.value == workers[name]
      ensures r.Failure? ==> r.error == "Worker " + name + " not found"
    {
      if name !in workers then Failure("Worker " + name + " not found") else Success(workers[name])
    }

    /** `get_worker_names`: each registered name once, in the order of registration. */
    function GetWorkerNames(): (names: seq<string>)
      requires Valid()
      reads this
      ensures Distinct(names)
      ensures forall n :: n in names <==> n in workers
    {
      order
    }

    /** The event loop reports that the task of `name` finished. */
    method TaskFinished(name: string)
      requires Valid() && name in tasks
      modifies this
      ensures Valid()
      ensures tasks == old(tasks)[name := Done]
      ensures workers == old(workers) && order == old(order) && currentTimestamp == old(currentTimestamp)
    {
      tasks := tasks[name := Done];
    }

    /** `start_workers` at time `now`: one timestamp, handed to every worker that is started; a
        worker whose task is still running is left alone (the modifies clause names exactly the
        workers that are started). */
    method StartWorkers(now: int)
      requires Valid()
      modifies this`tasks, this`currentTimestamp, StartedWorkers(workers, tasks, order)`sharedTimestamp
      ensures Valid()
      ensures currentTimestamp == Some(now)
      ensures tasks == Started(old(tasks), order)
      ensures forall n :: n in order && Startable(old(tasks), n) ==> workers[n].sharedTimestamp == Some(now)
    {
      currentTimestamp := Some(now);
      StartAll(now);
      StartedDomain(old(tasks), order);
      forall n | n in order && Startable(old(tasks), n) ensures workers[n].sharedTimestamp == Some(now) {
        var j :| 0 <= j < |order| && order[j] == n;
      }
    }

    /** The loop of `start_workers` over the registered names, in order. */
    method StartAll(now: int)
      requires Distinct(order) && forall i :: 0 <= i < |order| ==> order[i] in workers
      modifies this`tasks, StartedWorkers(workers, tasks, order)`sharedTimestamp
      ensures tasks == Started(old(tasks), order)
      ensures forall i :: 0 <= i < |order| && Startable(old(tasks), order[i]) ==> workers[order[i]].sharedTimestamp == Some(now)
    {
      ghost var tasks0 := tasks;
      ghost var frame := StartedWorkers(workers, tasks, order);
      var names := order;
      for i := 0 to |names|
        invariant tasks == Started(tasks0, names[..i])
        invariant forall j :: 0 <= j < i && Startable(tasks0, names[j]) ==> workers[names[j]].sharedTimestamp == Some(now)
      {
        var name := names[i];
        StartedSnoc(tasks0, names, i);
        StartedDecision(tasks0, names, i);
        if name !in tasks || tasks[name] == Done {
          var worker := workers[name];
          assert worker in frame;
          worker.SetTimestamp(now);
          tasks := tasks[name := Pending];
        }
      }
      assert names[..|names|] == names;
    }

    /** `stop_workers`: `stop` goes exactly to the workers whose task is running (the modifies
        clause names them); the wait for those tasks is left to the event loop. */
    method StopWorkers()
      requires Valid()
      modifies RunningWorkers(workers, tasks, order)`isRunning
      ensures forall n :: n in order && n in tasks && tasks[n].Pending? ==> !workers[n].isRunning
    {
      ghost var stopped: set<BaseWorker> := {};
      ghost var frame := RunningWorkers(workers, tasks, order);
      for i := 0 to |order|
        invariant forall w :: w in stopped ==> !w.isRunning
        invariant forall j :: 0 <= j < i && order[j] in tasks && tasks[order[j]].Pending? ==> workers[order[j]] in stopped
      {
        var name := order[i];
        if name in tasks && tasks[name] == Pending {
          assert workers[name] in frame;
          workers[name].Stop();
          stopped := stopped + {workers[name]};
        }
      }
      forall n | n in order && n in tasks && tasks[n].Pending? ensures !workers[n].isRunning {
        var j :| 0 <= j < |order| && order[j] == n;
      }
    }
  }
}
