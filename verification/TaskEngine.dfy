/** The task manager, its cache and its queues in place, on real task objects. */
module TaskEngines {
  import opened Common
  import opened Tasks

  /** The task is new: it carries the order, is pending, and nothing else is set. */
  predicate NewFor(t: Task, o: Order, now: int) {
    && t.requestId == o.requestId && t.clientSocket == o.clientSocket && t.request == o.request && t.priority == o.priority
    && t.status == PENDING && t.createTime == now && t.assignTime == 0 && t.completeTime == 0
    && t.responseData == "" && t.errorMsg == ""
  }

  class TaskContext {
    var requestId: string
    var clientSocket: int
    var request: string
    var priority: int
    var status: TaskStatus
    var createTime: int
    var assignTime: int
    var completeTime: int
    var responseData: string
    var errorMsg: string
    ghost var alive: bool  // allocated and not yet deleted

    function Value(): Task
      reads this
    {
      Task(requestId, clientSocket, request, priority, status, createTime, assignTime, completeTime, responseData, errorMsg)
    }

    constructor (o: Order, now: int)
      ensures alive && Value() == NewTask(o, now)
    {
      requestId, clientSocket, request, priority := o.requestId, o.clientSocket, o.request, o.priority;
      status, createTime, assignTime, completeTime := PENDING, now, 0, 0;
      responseData, errorMsg := "", "";
      alive := true;
    }

    method Close(outcome: Outcome, now: int)
      modifies this
      ensures Value() == Closed(old(Value()), outcome, now) && alive == old(alive)
    {
      match outcome {
        case Result(data) =>
          responseData := data;
          status := COMPLETED;
        case Error(message) =>
          errorMsg := message;
          status := FAILED;
      }
      completeTime := now;
    }

    /** `delete`: a task can be given up only once. */
    method Delete()
      requires alive
      modifies this`alive
      ensures !alive
    {
      alive := false;
    }
  }

  /** Owns the tasks. */
  class TaskCache {
    var cache: map<string, TaskContext>
    ghost var tasks: map<TaskContext, Task>  // the tasks that exist, with their values

    ghost predicate Valid()
      reads this, tasks.Keys
    {
      && (forall t :: t in tasks ==> t.alive && t.Value() == tasks[t])
      && (forall id :: id in cache ==> cache[id] in tasks && tasks[cache[id]].requestId == id)
    }

    constructor ()
      ensures Valid() && cache == map[] && tasks == map[]
    {
      cache, tasks := map[], map[];
    }

    method CreateTask(o: Order, now: int) returns (task: TaskContext?)
      requires Valid()
      modifies this
      ensures Valid()
      ensures (task == null) == (old(|cache|) >= 128)
      ensures task == null ==> cache == old(cache) && tasks == old(tasks)
      ensures task != null ==>
                && fresh(task) && NewFor(task.Value(), o, now)
                && tasks == old(tasks)[task := NewTask(o, now)]
                && cache == if o.requestId in old(cache) then old(cache) else old(cache)[o.requestId := task]
    {
      if |cache| >= MAX_TASKS {
        return null;
      }
      task := new TaskContext(o, now);
      hide Valid;
      Add(task);
    }

    /** The table insertion: a taken id is not overwritten. */
    method Add(task: TaskContext)
      requires Valid() && task !in tasks && task.alive
      modifies this
      ensures Valid()
      ensures tasks == old(tasks)[task := task.Value()]
      ensures cache == if task.requestId in old(cache) then old(cache) else old(cache)[task.requestId := task]
    {
      tasks := tasks[task := task.Value()];
      if task.requestId !in cache {
        cache := cache[task.requestId := task];
      }
    }

    method GetTask(id: string) returns (task: TaskContext?)
      requires Valid()
      ensures task == if id in cache then cache[id] else null
    {
      task := if id in cache then cache[id] else null;
    }

    method UpdateTaskStatus(id: string, status: TaskStatus)
      requires Valid()
      modifies this`tasks, cache.Values
      ensures Valid()
      ensures tasks == if id in cache then old(tasks)[cache[id] := old(tasks)[cache[id]].(status := status)] else old(tasks)
    {
      if id in cache {
        cache[id].status := status;
        tasks := tasks[cache[id] := cache[id].Value()];
      }
    }

    /** The field writes `completeTask` and `failTask` make on the looked-up task. */
    method Close(id: string, outcome: Outcome, now: int)
      requires Valid() && id in cache
      modifies this`tasks, cache[id]
      ensures Valid() && cache[id].alive
      ensures cache[id] in old(tasks) && tasks == old(tasks)[cache[id] := Closed(old(tasks)[cache[id]], outcome, now)]
      ensures cache[id].Value() == Closed(old(cache[id].Value()), outcome, now)
    {
      var task := cache[id];
      task.Close(outcome, now);
      tasks := tasks[task := task.Value()];
    }

    /** Erases the id and deletes its task. */
    method CompleteTask(id: string)
      requires Valid()
      modifies this, cache.Values
      ensures Valid()
      ensures id !in old(cache) ==> cache == old(cache) && tasks == old(tasks)
      ensures id in old(cache) ==>
                && cache == old(cache) - {id}
                && tasks == old(tasks) - {old(cache[id])}
                && !old(cache[id]).alive && old(cache[id]).Value() == old(cache[id].Value())
    {
      if id in cache {
        var task := cache[id];
        cache := cache - {id};
        task.Delete();
        tasks := tasks - {task};
      }
    }

    /** Every cached task of the status, each exactly once, and nothing else; the
        order of the table is not specified. */
    method GetTasksByStatus(status: TaskStatus) returns (found: seq<TaskContext>)
      requires Valid()
      ensures NoDup(found)
      ensures forall t :: t in found <==> t in cache.Values && tasks[t].status == status
    {
      found := [];
      var ids := cache.Keys;
      while ids != {}
        invariant ids <= cache.Keys
        invariant NoDup(found)
        invariant forall t :: t in found <==> exists id :: id in cache.Keys - ids && t == cache[id] && tasks[t].status == status
        decreases ids
      {
        var id :| id in ids;
        var t := cache[id];
        if t.status == status {
          forall id' | id' in cache.Keys - ids ensures cache[id'] != t {
            assert tasks[cache[id']].requestId == id' && tasks[t].requestId == id;
          }
          NoDupAppend(found, t);
          found := found + [t];
        }
        ids := ids - {id};
      }
    }
  }

  /** Two queues of borrowed pointers. */
  class TaskQueue {
    var pending: seq<TaskContext>
    var processing: seq<TaskContext>

    constructor ()
      ensures pending == [] && processing == []
    {
      pending, processing := [], [];
    }

    method AddToPendingQueue(task: TaskContext) returns (ok: bool)
      modifies this`pending
      ensures ok == (old(|pending|) < MAX_PENDING_QUEUE)
      ensures pending == if ok then old(pending) + [task] else old(pending)
    {
      ok := |pending| < MAX_PENDING_QUEUE;
      if ok {
        pending := pending + [task];
      }
    }

    method AddToProcessingQueue(task: TaskContext) returns (ok: bool)
      modifies this`processing
      ensures ok == (old(|processing|) < MAX_PROCESSING_QUEUE)
      ensures processing == if ok then old(processing) + [task] else old(processing)
    {
      ok := |processing| < MAX_PROCESSING_QUEUE;
      if ok {
        processing := processing + [task];
      }
    }

    method GetNextPendingTask() returns (task: TaskContext?)
      modifies this`pending
      ensures (task == null) == (old(pending) == [])
      ensures task != null ==> [task] + pending == old(pending)
      ensures task == null ==> pending == []
    {
      if pending == [] {
        return null;
      }
      task := pending[0];
      pending := pending[1..];
    }

    method GetNextProcessingTask() returns (task: TaskContext?)
      modifies this`processing
      ensures (task == null) == (old(processing) == [])
      ensures task != null ==> [task] + processing == old(processing)
      ensures task == null ==> processing == []
    {
      if processing == [] {
        return null;
      }
      task := processing[0];
      processing := processing[1..];
    }

    method RemoveFromPendingQueue(task: TaskContext)
      modifies this`pending
      ensures pending == Without(old(pending), task)
    {
      pending := RemoveFromQueue(pending, task);
    }

    method RemoveFromProcessingQueue(task: TaskContext)
      modifies this`processing
      ensures processing == Without(old(processing), task)
    {
      processing := RemoveFromQueue(processing, task);
    }

    /** Drains the queue into a second one, leaving the target out. */
    static method RemoveFromQueue(queue: seq<TaskContext>, target: TaskContext) returns (rebuilt: seq<TaskContext>)
      ensures rebuilt == Without(queue, target)
    {
      var rest := queue;
      rebuilt := [];
      while rest != []
        invariant |rest| <= |queue| && rest == queue[|queue| - |rest|..]
        invariant rebuilt == Without(queue[..|queue| - |rest|], target)
        decreases |rest|
      {
        ghost var n := |queue| - |rest|;
        var current := rest[0];
        assert queue[..n + 1] == queue[..n] + [current] && rest[1..] == queue[n + 1..];
        WithoutAppend(queue[..n], target, current);
        rest := rest[1..];
        if current != target {
          rebuilt := rebuilt + [current];
        }
      }
      assert queue[..|queue|] == queue;
    }
  }

  /** Coordinates the cache and the queues. */
  class TaskManager {
    const taskCache: TaskCache
    const taskQueue: TaskQueue

    ghost predicate Valid()
      reads taskCache, taskCache.tasks.Keys
    {
      taskCache.Valid()
    }

    ghost function View(): Engine<TaskContext>
      reads taskCache, taskQueue
    {
      Engine(taskCache.tasks, taskCache.cache, taskQueue.pending, taskQueue.processing)
    }

    constructor ()
      ensures Valid() && fresh(taskCache) && fresh(taskQueue)
      ensures View() == Engine(map[], map[], [], [])
    {
      taskCache := new TaskCache();
      taskQueue := new TaskQueue();
    }

    /** The result of the pending enqueue is ignored, and so is a taken id: the
        call returns the new task in both cases. */
    method CreateTask(o: Order, now: int) returns (task: TaskContext?)
      requires Valid()
      modifies taskCache, taskQueue
      ensures Valid()
      ensures (task == null) == (old(|taskCache.cache|) >= 128)
      ensures task != null ==> fresh(task) && NewFor(task.Value(), o, now)
      ensures task != null ==> View() == Create(old(View()), task, o, now)
      ensures task == null ==> View() == old(View())
    {
      task := taskCache.CreateTask(o, now);
      if task != null {
        var _ := taskQueue.AddToPendingQueue(task);
      }
    }

    /** Writes to the task it pops, so the head of the pending queue must not be
        a deleted task. */
    method GetNextPendingTask(now: int) returns (task: TaskContext?)
      requires Valid()
      requires taskQueue.pending != [] ==> taskQueue.pending[0] in taskCache.tasks
      modifies taskCache`tasks, taskQueue, taskQueue.pending
      ensures Valid()
      ensures (task == null) == (old(taskQueue.pending) == [])
      ensures task != null ==>
                && task == old(taskQueue.pending)[0]
                && task.Value() == old(taskQueue.pending[0].Value()).(status := PROCESSING, assignTime := now)
      ensures task == null ==> View() == old(View())
      ensures View() == Dispatch(old(View()), now)
    {
      task := taskQueue.GetNextPendingTask();
      if task != null {
        task.status := PROCESSING;
        task.assignTime := now;
        taskCache.tasks := taskCache.tasks[task := task.Value()];
        var _ := taskQueue.AddToProcessingQueue(task);
      }
    }

    method CompleteTask(id: string, result: string, now: int)
      requires Valid()
      modifies taskCache, taskQueue, taskCache.cache.Values
      ensures Valid()
      ensures View() == Finish(old(View()), id, Result(result), now)
      ensures id !in old(taskCache.cache) ==> View() == old(View())
      ensures id in old(taskCache.cache) ==>
                var task := old(taskCache.cache[id]);
                && !task.alive
                && task.Value() == old(taskCache.cache[id].Value()).(status := COMPLETED, responseData := result, completeTime := now)
    {
      hide TaskCache.Valid;
      var task := taskCache.GetTask(id);
      if task != null {
        taskCache.Close(id, Result(result), now);
        taskQueue.RemoveFromProcessingQueue(task);
        taskCache.CompleteTask(id);
      }
    }

    method FailTask(id: string, error: string, now: int)
      requires Valid()
      modifies taskCache, taskQueue, taskCache.cache.Values
      ensures Valid()
      ensures View() == Finish(old(View()), id, Error(error), now)
      ensures id !in old(taskCache.cache) ==> View() == old(View())
      ensures id in old(taskCache.cache) ==>
                var task := old(taskCache.cache[id]);
                && !task.alive
                && task.Value() == old(taskCache.cache[id].Value()).(status := FAILED, errorMsg := error, completeTime := now)
    {
      hide TaskCache.Valid;
      var task := taskCache.GetTask(id);
      if task != null {
        taskCache.Close(id, Error(error), now);
        taskQueue.RemoveFromProcessingQueue(task);
        taskCache.CompleteTask(id);
      }
    }

    method Counts() returns (pending: nat, processing: nat, total: nat)
      ensures pending == |View().pending| && processing == |View().processing| && total == |View().cache|
    {
      pending, processing, total := |taskQueue.pending|, |taskQueue.processing|, |taskCache.cache|;
    }
  }
}
