/** The invariant of the engine on the heap: the real manager, called as the usage
    protocol demands. */
module TaskHeap {
  import opened Common
  import opened Tasks
  import opened TaskEngines
  import opened TaskInvariants

  datatype Call =
    | Create(o: Order, now: int)
    | Next(now: int)
    | Complete(id: string, result: string, now: int)
    | Fail(id: string, error: string, now: int)

  ghost predicate Sound(m: TaskManager)
    reads m.taskCache, m.taskQueue, m.taskCache.tasks.Keys
  {
    m.Valid() && EngineInv(m.View())
  }

  method CreateTask(m: TaskManager, o: Order, now: int) returns (task: TaskContext?)
    requires Sound(m) && MayCreate(m.View(), o.requestId)
    modifies m.taskCache, m.taskQueue
    ensures Sound(m)
    ensures task != null ==> fresh(task) && m.taskCache.tasks.Keys == old(m.taskCache.tasks.Keys) + {task}
    ensures (task == null) == Full(old(m.View()))
    ensures m.View() == if task == null then old(m.View()) else Tasks.Create(old(m.View()), task, o, now)
    ensures m.View().pending == old(m.View().pending) +
                                if task != null && |old(m.View().pending)| < MAX_PENDING_QUEUE then [task] else []
  {
    hide TaskCache.Valid, EngineInv;
    ghost var e := m.View();
    task := m.CreateTask(o, now);
    if task != null {
      CreateEngine(e, task, o, now);
    }
  }

  lemma DispatchHandsOut<A>(e: Engine<A>, now: int)
    requires EngineInv(e)
    ensures e.pending != [] ==> e.pending[0] in e.tasks
    ensures var v := Dispatch(e, now);
            && EngineInv(v) && v.tasks.Keys == e.tasks.Keys
            && (e.pending != [] ==> v.tasks[e.pending[0]].status == PROCESSING && e.pending == [e.pending[0]] + v.pending)
            && (e.pending == [] ==> v.pending == [])
  {
    if e.pending != [] {
      DispatchEngine(e, now);
    }
  }

  /** Needs no protocol: the head is a live task. */
  method GetNextPendingTask(m: TaskManager, now: int) returns (task: TaskContext?)
    requires Sound(m)
    modifies m.taskCache`tasks, m.taskQueue, m.taskQueue.pending
    ensures Sound(m) && m.taskCache.tasks.Keys == old(m.taskCache.tasks.Keys)
    ensures m.View() == Dispatch(old(m.View()), now)
    ensures task != null ==> task in m.taskCache.tasks && m.taskCache.tasks[task].status == PROCESSING
    ensures old(m.View().pending) == (if task != null then [task] else []) + m.View().pending
  {
    hide TaskCache.Valid, EngineInv, Dispatch;
    DispatchHandsOut(m.View(), now);
    task := m.GetNextPendingTask(now);
  }

  lemma FinishRetires<A>(e: Engine<A>, id: string, outcome: Outcome, now: int)
    requires EngineInv(e) && MayFinish(e, id)
    ensures id in e.cache ==> e.cache[id] in e.tasks
    ensures var v := Finish(e, id, outcome, now);
            && EngineInv(v) && v.pending == e.pending && id !in v.cache
            && v.tasks.Keys == if id in e.cache then e.tasks.Keys - {e.cache[id]} else e.tasks.Keys
  {
    if id in e.cache {
      FinishEngine(e, id, outcome, now);
    }
  }

  method CompleteTask(m: TaskManager, id: string, result: string, now: int)
    requires Sound(m) && MayFinish(m.View(), id)
    modifies m.taskCache, m.taskQueue, m.taskCache.cache.Values
    ensures Sound(m) && id !in m.taskCache.cache
    ensures m.View() == Finish(old(m.View()), id, Result(result), now)
    ensures m.View().pending == old(m.View().pending)
    ensures m.taskCache.tasks.Keys ==
            old(if id in m.taskCache.cache then m.taskCache.tasks.Keys - {m.taskCache.cache[id]} else m.taskCache.tasks.Keys)
  {
    hide TaskCache.Valid, EngineInv, Finish;
    FinishRetires(m.View(), id, Result(result), now);
    m.CompleteTask(id, result, now);
  }

  method FailTask(m: TaskManager, id: string, error: string, now: int)
    requires Sound(m) && MayFinish(m.View(), id)
    modifies m.taskCache, m.taskQueue, m.taskCache.cache.Values
    ensures Sound(m) && id !in m.taskCache.cache
    ensures m.View() == Finish(old(m.View()), id, Error(error), now)
    ensures m.View().pending == old(m.View().pending)
    ensures m.taskCache.tasks.Keys ==
            old(if id in m.taskCache.cache then m.taskCache.tasks.Keys - {m.taskCache.cache[id]} else m.taskCache.tasks.Keys)
  {
    hide TaskCache.Valid, EngineInv, Finish;
    FinishRetires(m.View(), id, Error(error), now);
    m.FailTask(id, error, now);
  }

  lemma PendingIsLive<A>(e: Engine<A>)
    requires EngineInv(e)
    ensures forall a :: a in e.pending ==> a in e.tasks
  {
  }

  /** The usage protocol. */
  predicate Follows<A(==)>(e: Engine<A>, c: Call) {
    match c
    case Create(o, _) => MayCreate(e, o.requestId)
    case Next(_) => true
    case Complete(id, _, _) => MayFinish(e, id)
    case Fail(id, _, _) => MayFinish(e, id)
  }

  /** What the call does to the engine; a new task is at an address that was not
      in use. */
  ghost predicate Served<A>(e: Engine<A>, v: Engine<A>, c: Call)
    requires EngineInv(e)
  {
    match c
    case Create(o, now) => if Full(e) then v == e else exists a :: a in v.tasks && a !in e.tasks && v == Tasks.Create(e, a, o, now)
    case Next(now) => v == Dispatch(e, now)
    case Complete(id, result, now) => v == Finish(e, id, Result(result), now)
    case Fail(id, error, now) => v == Finish(e, id, Error(error), now)
  }

  /** One call, if the protocol allows it. */
  method ServeOne(m: TaskManager, c: Call) returns (queued: seq<TaskContext>, handedOut: seq<TaskContext>)
    requires Sound(m)
    modifies m.taskCache, m.taskQueue, m.taskCache.tasks.Keys
    ensures Sound(m)
    ensures forall t :: t in m.taskCache.tasks ==> t in old(m.taskCache.tasks) || fresh(t)
    ensures !Follows(old(m.View()), c) ==> m.View() == old(m.View())
    ensures Follows(old(m.View()), c) ==> Served(old(m.View()), m.View(), c)
    ensures old(m.View().pending) + queued == handedOut + m.View().pending
  {
    hide EngineInv, Tasks.Create, Dispatch, Finish;
    queued, handedOut := [], [];
    match c {
      case Create(o, now) =>
        if |m.taskCache.cache| >= MAX_TASKS || o.requestId !in m.taskCache.cache {
          var room := |m.taskQueue.pending| < MAX_PENDING_QUEUE;
          var task := CreateTask(m, o, now);
          assert task != null ==> task in m.View().tasks;
          queued := if task != null && room then [task] else [];
        }
      case Next(now) =>
        PendingIsLive(m.View());
        var task := GetNextPendingTask(m, now);
        handedOut := if task != null then [task] else [];
      case Complete(id, result, now) =>
        if id !in m.taskCache.cache || m.taskCache.cache[id] !in m.taskQueue.pending {
          CompleteTask(m, id, result, now);
        }
      case Fail(id, error, now) =>
        if id !in m.taskCache.cache || m.taskCache.cache[id] !in m.taskQueue.pending {
          FailTask(m, id, error, now);
        }
    }
  }

  /** A caller that keeps to the protocol, on any manager and for any calls it
      would like to make: the invariant holds throughout, and what was pending and
      then queued is what was handed out and then is pending, in order. Only new
      tasks and tasks of the manager are written to. */
  method Serve(m: TaskManager, calls: seq<Call>) returns (queued: seq<TaskContext>, handedOut: seq<TaskContext>)
    requires Sound(m)
    modifies m.taskCache, m.taskQueue, m.taskCache.tasks.Keys
    ensures Sound(m)
    ensures old(m.View().pending) + queued == handedOut + m.View().pending
  {
    queued, handedOut := [], [];
    for i := 0 to |calls|
      invariant Sound(m)
      invariant forall t :: t in m.taskCache.tasks ==> t in old(m.taskCache.tasks) || fresh(t)
      invariant old(m.View().pending) + queued == handedOut + m.View().pending
    {
      ghost var before := m.View().pending;
      var q, h := ServeOne(m, calls[i]);
      Regroup(old(m.View().pending), queued, q);
      Regroup(handedOut, before, q);
      Regroup(handedOut, h, m.View().pending);
      queued, handedOut := queued + q, handedOut + h;
    }
  }
}
