/** The task lifecycle as functions on an abstract engine: the live tasks, the
    id table that owns them and the two queues that only point to them. Every
    function below is one section of the code under one lock, or the unlocked
    field writes between two such sections. */
module Tasks {
  import opened Common

  const MAX_TASKS: nat := 128
  const MAX_PENDING_QUEUE: nat := 64
  const MAX_PROCESSING_QUEUE: nat := 32

  datatype TaskStatus = PENDING | ASSIGNING | PROCESSING | COMPLETED | FAILED | TIMEOUT | CANCELLED

  datatype Task = Task(
    requestId: string, clientSocket: int, request: string, priority: int,
    status: TaskStatus, createTime: int, assignTime: int, completeTime: int,
    responseData: string, errorMsg: string)

  /** The arguments of a creation; the request message is opaque here. */
  datatype Order = Order(requestId: string, clientSocket: int, request: string, priority: int)

  datatype Outcome = Result(data: string) | Error(message: string)

  /** `A` is the type of task addresses. A queue may hold an address that is no
      longer in `tasks`: that is a dangling pointer. */
  datatype Engine<A> = Engine(tasks: map<A, Task>, cache: map<string, A>, pending: seq<A>, processing: seq<A>)

  function NewTask(o: Order, now: int): Task {
    Task(o.requestId, o.clientSocket, o.request, o.priority, PENDING, now, 0, 0, "", "")
  }

  function Closed(t: Task, outcome: Outcome, now: int): Task {
    match outcome
    case Result(data) => t.(responseData := data, status := COMPLETED, completeTime := now)
    case Error(message) => t.(errorMsg := message, status := FAILED, completeTime := now)
  }

  // The locked sections

  predicate Full<A>(e: Engine<A>) {
    |e.cache| >= MAX_TASKS
  }

  /** A new task at address `a`; an id that is taken keeps its old task. */
  function Insert<A>(e: Engine<A>, a: A, o: Order, now: int): Engine<A> {
    e.(tasks := e.tasks[a := NewTask(o, now)],
       cache := if o.requestId in e.cache then e.cache else e.cache[o.requestId := a])
  }

  function Enqueue<A>(e: Engine<A>, a: A): Engine<A> {
    if |e.pending| < MAX_PENDING_QUEUE then e.(pending := e.pending + [a]) else e
  }

  function Dequeue<A>(e: Engine<A>): Engine<A>
    requires e.pending != []
  {
    e.(pending := e.pending[1..])
  }

  function Assign<A>(e: Engine<A>, a: A, now: int): Engine<A>
    requires a in e.tasks
  {
    e.(tasks := e.tasks[a := e.tasks[a].(status := PROCESSING, assignTime := now)])
  }

  function EnqueueProcessing<A>(e: Engine<A>, a: A): Engine<A> {
    if |e.processing| < MAX_PROCESSING_QUEUE then e.(processing := e.processing + [a]) else e
  }

  function Close<A>(e: Engine<A>, a: A, outcome: Outcome, now: int): Engine<A>
    requires a in e.tasks
  {
    e.(tasks := e.tasks[a := Closed(e.tasks[a], outcome, now)])
  }

  function Unlink<A(==)>(e: Engine<A>, a: A): Engine<A> {
    e.(processing := Without(e.processing, a))
  }

  /** Erases the id and deletes its task. */
  function Erase<A>(e: Engine<A>, id: string): Engine<A> {
    if id in e.cache then e.(tasks := e.tasks - {e.cache[id]}, cache := e.cache - {id}) else e
  }

  // The usage protocol, with one caller at a time

  /** A created id is not live. */
  predicate MayCreate<A>(e: Engine<A>, id: string) {
    Full(e) || id !in e.cache
  }

  /** A completed or failed task is no longer in the pending queue. */
  predicate MayFinish<A(==)>(e: Engine<A>, id: string) {
    id in e.cache ==> e.cache[id] !in e.pending
  }

  // The whole operations, nothing in between

  function Create<A>(e: Engine<A>, a: A, o: Order, now: int): Engine<A> {
    if Full(e) then e else Enqueue(Insert(e, a, o, now), a)
  }

  function Dispatch<A>(e: Engine<A>, now: int): Engine<A>
    requires e.pending != [] ==> e.pending[0] in e.tasks
  {
    if e.pending == [] then e
    else EnqueueProcessing(Assign(Dequeue(e), e.pending[0], now), e.pending[0])
  }

  /** `completeTask` and `failTask`. */
  function Finish<A>(e: Engine<A>, id: string, outcome: Outcome, now: int): Engine<A>
    requires id in e.cache ==> e.cache[id] in e.tasks
  {
    if id !in e.cache then e
    else Erase(Unlink(Close(e, e.cache[id], outcome, now), e.cache[id]), id)
  }
}
