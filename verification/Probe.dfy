/**
 panel/cmd/agent/probe.go: the probe manager keeps one worker per desired task. Workers are objects,
 because a result is accepted by comparing its worker with the one now in the map.
 */
module Probe {
  import opened Sets
  import opened Wrappers

  const MAX_PROBE_TASKS: nat := 64
  const MIN_PROBE_INTERVAL: int := 5

  /** `details` stands for the name, type, target and port, which only `monitor.ValidateTask` looks at. */
  datatype Task = Task(id: int, details: string, interval: int)

  datatype TaskList = TaskList(version: int, tasks: seq<Task>)

  datatype Failure = TaskLimit | Invalid

  class Worker {
    const task: Task
    var cancelled: bool
    var done: bool

    constructor (task: Task)
      ensures this.task == task && !cancelled && !done
    {
      this.task, cancelled, done := task, false, false;
    }
  }

  datatype Completed = Completed(worker: Worker, taskID: int)

  /** A list `apply` does not reject; `valid` is monitor.ValidateTask. */
  ghost predicate Accepted(valid: Task -> bool, list: TaskList) {
    && |list.tasks| <= 64 && list.version > 0
    && AcceptedTasks(valid, list.tasks)
  }

  ghost predicate AcceptedTasks(valid: Task -> bool, tasks: seq<Task>) {
    && (forall t :: t in tasks ==> t.id > 0 && t.interval >= 5 && valid(t))
    && forall i, j :: 0 <= i < j < |tasks| ==> tasks[i].id != tasks[j].id
  }

  /** The tasks of a list by id. */
  ghost predicate Indexes(desired: map<int, Task>, tasks: seq<Task>) {
    && (forall t :: t in tasks ==> t.id in desired && desired[t.id] == t)
    && forall id :: id in desired ==> desired[id] in tasks && desired[id].id == id
  }

  lemma IndexedNext(valid: Task -> bool, desired: map<int, Task>, tasks: seq<Task>, task: Task)
    requires Indexes(desired, tasks) && AcceptedTasks(valid, tasks)
    requires task.id > 0 && task.interval >= MIN_PROBE_INTERVAL && valid(task) && task.id !in desired
    ensures Indexes(desired[task.id := task], tasks + [task]) && AcceptedTasks(valid, tasks + [task])
  {
  }

  /** A task that fails a check, or repeats an id, spoils every list it is in. */
  lemma OneRejected(valid: Task -> bool, desired: map<int, Task>, tasks: seq<Task>, i: nat)
    requires i < |tasks| && Indexes(desired, tasks[..i])
    requires tasks[i].id <= 0 || tasks[i].interval < MIN_PROBE_INTERVAL || tasks[i].id in desired || !valid(tasks[i])
    ensures !AcceptedTasks(valid, tasks)
  {
  }

  /** Whether a running worker survives a new list. */
  predicate Kept(desired: map<int, Task>, id: int, worker: Worker) {
    id in desired && desired[id] == worker.task
  }

  class Manager {
    var workers: map<int, Worker>
    var version: int
    var results: seq<Completed>
    const valid: Task -> bool
    /** The task list in force. */
    ghost var inForce: map<int, Task>

    ghost function Team(): (team: set<Worker>)
      reads this
    {
      set id | id in workers :: workers[id]
    }

    /** Every worker is filed under its own task and still running. */
    ghost predicate Filed()
      reads this, Team()
    {
      forall id :: id in workers ==> workers[id].task.id == id && !workers[id].cancelled && !workers[id].done
    }

    /** Every queued result was measured by a worker for its own task. */
    ghost predicate Honest()
      reads this
    {
      forall c :: c in results ==> c.taskID == c.worker.task.id
    }

    /** Workers correspond exactly to the list in force. */
    ghost predicate Valid()
      reads this, Team()
    {
      && Filed() && Honest()
      && (forall id :: id in workers <==> id in inForce)
      && forall id :: id in workers ==> workers[id].task == inForce[id]
    }

    constructor (valid: Task -> bool)
      ensures Valid() && workers == map[] && version == 0 && results == [] && this.valid == valid
    {
      this.valid := valid;
      workers, version, results, inForce := map[], 0, [], map[];
    }

    /** The checks of `apply`, building the index. */
    method Index(list: TaskList) returns (r: Result<map<int, Task>, Failure>)
      ensures r.Ok? <==> Accepted(valid, list)
      ensures r.Ok? ==> Indexes(r.value, list.tasks)
    {
      if |list.tasks| > MAX_PROBE_TASKS {
        return Err(TaskLimit);
      }
      var desired: map<int, Task> := map[];
      for i := 0 to |list.tasks|
        invariant Indexes(desired, list.tasks[..i])
        invariant AcceptedTasks(valid, list.tasks[..i])
      {
        var task := list.tasks[i];
        assert list.tasks[..i + 1] == list.tasks[..i] + [task];
        if task.id <= 0 || task.interval < MIN_PROBE_INTERVAL || task.id in desired || !valid(task) {
          OneRejected(valid, desired, list.tasks, i);
          return Err(Invalid);
        }
        IndexedNext(valid, desired, list.tasks[..i], task);
        hide Indexes, AcceptedTasks;
        desired := desired[task.id := task];
      }
      assert list.tasks[..|list.tasks|] == list.tasks;
      if list.version <= 0 {
        return Err(Invalid);
      }
      return Ok(desired);
    }

    /** `apply`. A rejected or stale list changes nothing. After a newer one the workers are those of
        the list; a worker survives, as the same object, exactly when its task is unchanged, and every
        other one has been cancelled and waited for. A worker being cancelled may still send one
        result; `late` says which do. */
    method Apply(list: TaskList, late: set<Worker>) returns (failure: Option<Failure>)
      requires Valid()
      modifies this, Team()
      ensures Valid()
      ensures failure.None? <==> Accepted(valid, list)
      ensures failure.Some? || list.version <= old(version) ==>
                workers == old(workers) && version == old(version) && inForce == old(inForce) && results == old(results)
      ensures failure.None? && list.version > old(version) ==> version == list.version && Indexes(inForce, list.tasks)
      ensures old(results) <= results
      ensures forall c :: c in results[|old(results)|..] ==> c.worker.done
      ensures forall c :: c in results[|old(results)|..] <==>
                failure.None? && list.version > old(version) && c.taskID in old(workers) && c.worker == old(workers)[c.taskID]
                && old(workers[c.taskID].task) !in list.tasks && c.worker in late
      ensures failure.None? && list.version > old(version) ==> forall id :: id in old(workers) ==>
                if old(workers)[id].task in list.tasks then id in workers && workers[id] == old(workers)[id]
                else old(workers)[id].cancelled && old(workers)[id].done && (id in workers ==> workers[id] != old(workers)[id])
    {
      var index := Index(list);
      if index.Err? {
        return Some(index.error);
      }
      var desired := index.value;
      if list.version <= version {
        return None;
      }
      version := list.version;
      var sent := StopOthers(desired, late);
      results := results + sent;
      StartMissing(desired);
      inForce := desired;
      return None;
    }

    /** The first loop of `apply`: workers whose task is gone or different are cancelled and waited for. */
    method StopOthers(desired: map<int, Task>, late: set<Worker>) returns (sent: seq<Completed>)
      requires Filed()
      modifies `workers, Team()
      ensures Filed()
      ensures forall id :: id in workers <==> id in old(workers) && Kept(desired, id, old(workers)[id])
      ensures forall id :: id in workers ==> workers[id] == old(workers)[id]
      ensures forall id :: id in old(workers) && id !in workers ==> old(workers)[id].cancelled && old(workers)[id].done
      ensures forall c :: c in sent ==> c.worker.done && c.taskID == c.worker.task.id
      ensures forall c :: c in sent <==>
                c.taskID in old(workers) && c.taskID !in workers && c.worker == old(workers)[c.taskID] && c.worker in late
    {
      hide Filed;
      sent := [];
      var rest := workers.Keys;
      while rest != {}
        invariant forall id :: id in rest ==> id in workers
        invariant forall id :: id in workers ==> id in old(workers) && workers[id] == old(workers)[id]
        invariant Filed()
        invariant forall id :: id in old(workers) && id !in rest ==> (id in workers <==> Kept(desired, id, old(workers)[id]))
        invariant forall id :: id in old(workers) && id !in workers ==> old(workers)[id].cancelled && old(workers)[id].done
        invariant forall c :: c in sent ==> c.worker.done && c.taskID == c.worker.task.id
        invariant forall c :: c in sent <==>
                    c.taskID in old(workers) && c.taskID !in workers && c.worker == old(workers)[c.taskID] && c.worker in late
        decreases |rest|
      {
        ghost var _ := SomeMember(rest);
        var id :| id in rest;
        rest := rest - {id};
        if !Kept(desired, id, workers[id]) {
          var worker := workers[id];
          StopOne(id);
          if worker in late {
            sent := sent + [Completed(worker, id)];
          }
        }
      }
    }

    method StopOne(id: int)
      requires id in workers && Filed()
      modifies `workers, workers[id]
      ensures Filed() && workers == old(workers) - {id}
      ensures old(workers)[id].cancelled && old(workers)[id].done && old(workers)[id].task.id == id
    {
      var worker := workers[id];
      worker.cancelled := true;
      worker.done := true;
      workers := workers - {id};
    }

    /** The second loop of `apply`: a new worker for every task without one. */
    method StartMissing(desired: map<int, Task>)
      requires forall id :: id in desired ==> desired[id].id == id
      requires Filed() && forall id :: id in workers ==> id in desired
      requires forall id :: id in workers ==> workers[id].task == desired[id]
      modifies `workers
      ensures Filed() && forall id :: id in workers <==> id in desired
      ensures forall id :: id in workers ==> workers[id].task == desired[id]
      ensures forall id :: id in old(workers) ==> id in workers && workers[id] == old(workers)[id]
      ensures forall id :: id in workers && id !in old(workers) ==> fresh(workers[id])
    {
      var rest := desired.Keys;
      while rest != {}
        invariant forall id :: id in rest || id in workers ==> id in desired
        invariant forall id :: id in desired && id !in rest ==> id in workers
        invariant Filed() && forall id :: id in workers ==> workers[id].task == desired[id]
        invariant forall id :: id in old(workers) ==> id in workers && workers[id] == old(workers)[id]
        invariant forall id :: id in workers && id !in old(workers) ==> fresh(workers[id])
        decreases |rest|
      {
        ghost var _ := SomeMember(rest);
        var id :| id in rest;
        rest := rest - {id};
        if id !in workers {
          var worker := new Worker(desired[id]);
          workers := workers[id := worker];
        }
      }
    }

    /** One measurement of a worker's goroutine. */
    method Measure(worker: Worker)
      requires Valid()
      modifies `results
      ensures Valid() && results == if worker.cancelled then old(results) else old(results) + [Completed(worker, worker.task.id)]
    {
      if worker.cancelled {
        return;
      }
      results := results + [Completed(worker, worker.task.id)];
    }

    /** `current`. What passes was measured under the definition now in force, however old it is, and
        nothing a stopped worker sent passes. */
    method Current(c: Completed) returns (ok: bool)
      requires Valid() && c in results
      ensures ok <==> c.worker in Team()
      ensures ok ==> c.taskID in inForce && c.worker.task == inForce[c.taskID] && !c.worker.cancelled && !c.worker.done
    {
      ok := c.taskID in workers && workers[c.taskID] == c.worker;
    }

    /** `close`: every worker is cancelled, then every worker is waited for. */
    method Close()
      requires Valid()
      modifies this, Team()
      ensures Valid() && workers == map[] && results == old(results)
      ensures forall id :: id in old(workers) ==> old(workers)[id].cancelled && old(workers)[id].done
    {
      CancelAll();
      WaitForAll();
      workers := map[];
      inForce := map[];
    }

    method CancelAll()
      modifies Team()
      ensures forall id :: id in workers ==> workers[id].cancelled
    {
      var rest := workers.Keys;
      while rest != {}
        invariant forall id :: id in rest ==> id in workers
        invariant forall id :: id in workers && id !in rest ==> workers[id].cancelled
        decreases |rest|
      {
        ghost var _ := SomeMember(rest);
        var id :| id in rest;
        workers[id].cancelled := true;
        rest := rest - {id};
      }
    }

    method WaitForAll()
      requires forall id :: id in workers ==> workers[id].cancelled
      modifies Team()
      ensures forall id :: id in workers ==> workers[id].cancelled && workers[id].done
    {
      var rest := workers.Keys;
      while rest != {}
        invariant forall id :: id in rest ==> id in workers
        invariant forall id :: id in workers ==> workers[id].cancelled
        invariant forall id :: id in workers && id !in rest ==> workers[id].done
        decreases |rest|
      {
        ghost var _ := SomeMember(rest);
        var id :| id in rest;
        workers[id].done := true;
        rest := rest - {id};
      }
    }
  }
}
