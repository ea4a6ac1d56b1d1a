# Embedded gateway: a verified model

A Dafny model of the gateway's stateful core, with proofs. The gateway takes
requests from TCP clients, keeps them as tasks while compute nodes work on them,
and streams the resulting tokens back. Two parts carry the weight:

- **the task engine**: an id table that owns the tasks and two bounded queues that
  only point to them, each under its own lock (`Tasks`, `TaskEngines`,
  `TaskInvariants`, `TaskHeap`, `TaskProtocol`, `TaskHistory`, `TaskMisuse`,
  `TaskRuns`);
- **the token engine**: a hand-written linked list per request, a table of lists,
  and a pump that sends one token per active request and pass (`Streams`,
  `TokenLists`, `TokenMaps`, `Pump`, `Delivery`, `SystemDelivery`, `Traffic`,
  `Convergence`).

Around them: the client table and its sweep (`Sweep`, `ClientManagers`), who really
gets the tokens when descriptors are reused (`Connections`), the ring
buffer (`SimpleQueues`), the unlocked hand-off queue (`HandOff`), result chunking
and end-to-end delivery (`Streaming`), runs of the real client manager and token
table (`Gateway`), fragment reassembly (`Reassembly`) of dumped
JSON text (`JsonText`) and the message codec (`Codec`).
`Common` holds shared vocabulary.

Code that updates state is modelled by classes and methods on real objects. Each
method is proved against a function of its old state, and the properties of whole
runs are proved about those functions. Objects that the code frees carry a ghost
`alive` flag: `Delete` requires it and clears it, so deleting a node, list or task
twice would not verify. In the runs of the task engine a dangling pointer is
an address without a task, and a step that dereferences one is unsafe.

`send` appends to a log, `accept` and `recv` results are parameters, `new` returns
any address that is not in use, time is a parameter, and the JSON parser is a
function argument of which only soundness on NUL-free texts that start with a brace
is assumed.

## Where the code does not do what it says

The code is modelled as it is. Where it breaks a property, there is a concrete
witness or the exact condition under which the property holds:

- The sweep reads the dead client's descriptor through a reference into the vector
  after erasing that element (src/core/client_manager.cpp:91-94), while the comment
  on line 92 states that the dead client's own mappings are cleaned up. In the
  element storage that slot then holds the next client, or the dead one if it was
  last. So the neighbour loses its mappings and the dead client keeps its own:
  `SweepHitsTheNeighbour`, `SweepKeepsOwnedIff`, `SweepSparesLiveIff`,
  `SweepIsIntendedIff`, and over whole runs `OwnedThroughoutIff`. Read before the
  erase, the descriptor makes the same loop right in every run: `CapturedIsIntended`,
  `CapturedKeepsOwned`.
- What that leads to: a mapping left behind is inherited by the next connection that
  gets the descriptor, and its tokens go to a stranger: `StrangerGetsTokens`. The only
  other way is a registration that comes after its connection left and another one
  took over the descriptor: `FaithfulThroughoutIff`, `CapturedIsFaithful`.
- A mapping whose list does not exist yet is dropped by the next pass
  (src/core/client_manager.cpp:124-128), so a request registered before its first
  token is lost if a pass comes in between: `RegisteredTooEarly`. Exactly when a
  request is served: `FullyServedIff`.
- `isCompletelyFinished` is documented as "all tokens sent and the stream ended"
  (src/core/task_manager.h:73). A cursor that ran off the end stays null when more
  tokens arrive, so the list can be freed with tokens never sent:
  `FinishedButNotSent`, `EverythingSentIff`.
- Tokens and receive buffers are C strings, so a NUL byte cuts them:
  a request that has a reader gets exactly its result if and only if the result has
  none: `ResultDelivered`.
- `createTask` ignores a taken id, so the new task can never be deleted
  (`CreateKeepsEngineIff`, `DeletableIff`), and a refused enqueue, so the task is
  never handed out (`DispatchableIff`). `completeTask` and `failTask` unlink from one
  queue only: `FinishKeepsQueuesIff`, `FinishingPendingDangles`.
- Nothing in the task manager stops a thread from finishing a task it did not
  receive. One such call is enough for a later access to freed memory, although
  every later call follows the protocol: `FinishIsSafeIff`, `OneThreadIsEnough`.
- Two producers can push into a full hand-off queue: `TwoProducersOverflow`,
  `SafeIffOneProducer`.
- Two mappings of one request share its token list, and a pass takes two tokens from
  it: `SharedListBreaksClosedForm`, with the exact condition in `ClosedFormIff`; what a
  pass does to any table is `PassExactly`.
- A message added twice to the message cache is deleted twice: `ClearIsSafeIff`.
- A receive that completes a message and goes on into the next one stops the
  receiver for good: `OverrunIsFatal`, `ReassemblyIff`.
- An empty result is streamed as no message at all, so without an end mark:
  `StreamResult`.
- docs/json_protocol.md puts `client_socket` into node error and final responses
  (lines 47-63). The builders do not (src/core/json_utils.cpp:95-132); the model
  follows the builders.
- src/core/task_manager.cpp:131 writes `response_data`, which
  src/core/task_context.h does not declare; it is modelled as a field.

## Model

| member | source | states |
|---|---|---|
| TaskProtocol.ProtocolIsSafe | src/core/task_manager.cpp:106-150 | For any number of threads interleaving between lock sections, at every step of every run that follows the usage protocol (a created id is not live; a task is finished by the thread that received it, or by anyone if the full pending queue refused it): the bounds 128/64/32 hold, queue entries are live cached tasks in at most one place, no move touches or deletes a freed task, and pops come in the order of the enqueues |
| TaskProtocol.InvHoldsThroughout | src/core/task_queue.cpp:3-47 | The inductive invariant (id table one-to-one with live tasks, exclusive claims of threads, every live task accounted for) holds in every world of every run |
| TaskProtocol.MovesAreSafe | src/core/task_manager.cpp:114-150 | Under the invariant no enabled move dereferences or deletes a task that is gone; this is where insert-before-enqueue and unlink-before-delete are needed |
| TaskProtocol.QuiescentAccounting | src/core/task_manager.cpp:106-122 | Between calls every live task is pending, received by exactly one thread, or was refused by the full pending queue |
| TaskHistory.HistoryIsTrue | src/core/task_manager.cpp:106-150 | In every world of every interleaved run, against a history kept from the moves alone: each live task carries id, socket, request, priority and create time of its creation, status, assign time and complete time of the last write to it, and once it is closed COMPLETED with the caller's data or FAILED with the caller's message; each thread's task is as far as the thread; in the processing queue is exactly what the queue took and nobody unlinked |
| TaskHistory.StatusesInRuns | src/core/task_manager.cpp:114-150 | In every world of every interleaved run: pending, refused, just created and just popped tasks are PENDING, received and just assigned ones PROCESSING, closed ones COMPLETED or FAILED |
| TaskHistory.FirstInFirstOut | src/core/task_queue.cpp:3-47 | In every interleaved run, read off the moves: the tasks put into the pending queue are those the popping threads went on with, followed by the queue, in order |
| TaskMisuse.FinishIsSafeIff | src/core/task_manager.cpp:128-150 | From any state under the invariant, after a thread began to complete or fail a task, calls that follow the protocol can reach an access to a freed task if and only if that beginning did not follow it: the task was neither received by the thread nor refused by the pending queue |
| TaskMisuse.OneThreadIsEnough | src/core/task_manager.cpp:106-150 | From the empty manager, with any number of threads, one thread that creates a task and begins to fail it while it is pending makes such an access reachable |
| TaskMisuse.DeletableIff | src/core/task_cache.cpp:4-24 | A created task can be deleted by some later calls of some threads if and only if its id was free |
| TaskHeap.ServeOne | src/core/task_manager.cpp:106-150 | On the heap: a call that follows the protocol does exactly its abstract operation and keeps the full engine invariant, any other call is not made; the popped head is always live |
| TaskHeap.Serve | src/core/task_manager.cpp:106-150 | On the heap, over any calls: the invariant holds at the end, and what was pending and then queued is what was handed out and then is pending, in order |
| TaskRuns.LegalRunsAreCorrect | src/core/task_manager.cpp:106-150 | Every sequential run that follows the protocol touches live tasks only; the tasks as dispatched so far, followed by the pending ones, are the creations with all their arguments, in creation order whatever the priority; partition, statuses and time stamps hold at the end, live and retired tasks still carry their creation's arguments, and retired ones what their call reported |
| TaskRuns.KeepsItsOrder | src/core/task_manager.cpp:106-150 | Over every run that follows the protocol and does not finish it, a task keeps id, socket, request, priority and create time |
| TaskRuns.FinishWrites | src/core/task_manager.cpp:128-150 | Field by field: completing writes COMPLETED, the result and the complete time, failing writes FAILED, the message and the complete time, and nothing else changes |
| TaskRuns.StepKeepsInv | src/core/task_manager.cpp:106-150 | Each operation keeps: live tasks are the disjoint union of pending, processing and the two kinds of overflow; statuses agree; create <= assign <= complete; processing sorted by assign time |
| TaskRuns.PendingIsSorted | src/core/task_manager.cpp:106-122 | The pending queue is sorted by create time |
| TaskRuns.TotalCount | src/core/task_manager.cpp:153-163 | The total count is the sum of pending, processing and the two kinds of overflow |
| TaskRuns.CountsAgreeIff | src/core/task_manager.cpp:153-163 | Total equals pending plus processing exactly when no live task was refused by a full queue |
| TaskRuns.StatusMoves | src/core/task_manager.cpp:114-150 | A status only moves from pending to processing at dispatch, and leaves as COMPLETED with a result or FAILED with an error |
| TaskRuns.AssignWithout | src/core/task_queue.cpp:66-79 | Removing a task by drain and rebuild leaves the processing queue sorted by assign time |
| TaskRuns.FinishKeepsQueuesIff | src/core/task_manager.cpp:128-150 | Completing a task keeps queue entries live if and only if the task is not in the pending queue |
| TaskRuns.CreateKeepsEngineIff | src/core/task_cache.cpp:4-24 | Creating a task keeps id table and live tasks consistent if and only if the id is free |
| TaskRuns.DispatchableIff | src/core/task_manager.cpp:106-122 | The created task is cached in any case, and some later calls that follow the protocol and do not finish it first hand it out if and only if the pending queue had room |
| TaskRuns.RefusedIsStranded | src/core/task_manager.cpp:106-122 | Over every run that follows the protocol and does not finish it, a task the pending queue refused stays unchanged, with status pending, and is never handed out |
| TaskInvariants.FinishEngine | src/core/task_manager.cpp:128-150 | Completing a task that is not pending removes exactly that task, leaves the pending queue alone and keeps the engine invariant |
| TaskInvariants.DispatchEngine | src/core/task_manager.cpp:114-122 | Dispatching keeps the engine invariant, and the head is live and nowhere else |
| TaskEngines.TaskManager.CreateTask | src/core/task_manager.cpp:106-112 | On the heap: null exactly at 128 cached tasks, otherwise a new task that carries the four arguments and the time, is PENDING and has nothing else set, and exactly the state change of the abstract creation |
| TaskEngines.TaskManager.GetNextPendingTask | src/core/task_manager.cpp:114-122 | On the heap: returns the head of the pending queue with PROCESSING and the assign time written and nothing else; needs only that the head is a live task; exactly the abstract dispatch |
| TaskEngines.TaskManager.CompleteTask | src/core/task_manager.cpp:128-138 | On the heap: an unknown id changes nothing; otherwise the task gets COMPLETED, the result and the complete time and is deleted, and the engine makes exactly the abstract completion |
| TaskEngines.TaskManager.FailTask | src/core/task_manager.cpp:140-150 | On the heap: an unknown id changes nothing; otherwise the task gets FAILED, the message and the complete time and is deleted, and the engine makes exactly the abstract failure |
| TaskEngines.TaskCache.CreateTask | src/core/task_cache.cpp:4-24 | Refused exactly at 128 entries; otherwise a new pending task with the four arguments and the time; a taken id keeps its old task |
| TaskEngines.TaskCache.CompleteTask | src/core/task_cache.cpp:40-48 | Erases the id and deletes exactly its task |
| TaskEngines.TaskCache.GetTasksByStatus | src/core/task_cache.cpp:50-59 | Every cached task of the status exactly once and nothing else |
| TaskEngines.TaskQueue.RemoveFromQueue | src/core/task_queue.cpp:65-79 | The drain-and-rebuild loop terminates with exactly the entries different from the target, in order |
| Common.WithoutMultiset | src/core/task_queue.cpp:66-79 | The removal drops every occurrence of the target and keeps the multiplicity of everything else |
| Common.WithoutKeepsOrder | src/core/task_queue.cpp:66-79 | Every pair of kept entries comes, in the same order, from a pair of the original queue |
| TokenLists.TokenList.AddToken | src/core/task_manager.h:46-56 | Appends one node holding the C string, null ignored; earlier nodes stay the prefix of the chain, cursor and end flag stay |
| Streams.OneFieldEach | src/core/task_manager.h:46-110 | A token changes the tokens only, a reset the cursor only, an end mark the flag only |
| Streams.MoreWithoutTokenIff | src/core/task_manager.h:68-71 | A list claims more although nothing can be read if and only if its cursor is null while it holds tokens and is not finished |
| TokenLists.TokenList.GetNextToken | src/core/task_manager.h:105-110 | Returns the token under the cursor and moves on by one, to null at the end |
| TokenLists.TokenList.ResetOutput | src/core/task_manager.h:100-102 | The cursor goes to the head, null for an empty list |
| TokenLists.TokenList.Acyclic | src/core/task_manager.h:46-56 | The chain from head never visits a node twice |
| TokenLists.TokenList.Clear | src/core/task_manager.h:85-96 | Terminates with every node deleted exactly once and the list empty, unfinished and without a cursor |
| TokenMaps.TokenMap.AddToken | src/core/task_manager.cpp:70-79 | Appends to the id's list, made first if unknown even for a null token; every other id keeps its value |
| TokenMaps.TokenMap.ClearTokenList | src/core/task_manager.cpp:89-95 | Forgets the id, deletes its list and nodes; every other id keeps its value |
| TokenMaps.TokenMap.MarkTokenStreamFinished | src/core/task_manager.cpp:98-103 | Sets one list's end flag; an unknown id changes nothing |
| TokenMaps.TokenMap.NoSharedNodes | src/core/task_manager.cpp:70-79 | Lists of different ids share no node |
| ClientManagers.ClientManager.ProcessPendingTokens | src/core/client_manager.cpp:119-154 | The in-place pass over heap lists, freeing some of them on the way, equals the abstract pass |
| Pump.PassExactly | src/core/client_manager.cpp:119-154 | For every table, shared lists included: mapping i survives a pass if and only if it was active and its list outlives the visits of the mappings up to i; it sends the token that is current after the visits before it; every list ends as its visits leave it, and the lists those used up are the ones removed |
| Pump.ClosedFormIff | src/core/client_manager.cpp:121-153 | For every table the pass has a closed form on the lists it started from (who sends what in table order, which lists disappear, which mappings survive) if and only if no list with a token under its cursor has two active mappings |
| Pump.PassClosed | src/core/client_manager.cpp:121-153 | The closed form itself, under exactly that condition |
| Pump.SharedListBreaksClosedForm | src/core/client_manager.cpp:121-146 | A concrete table with two mappings of one list: each sends a token of it in one pass, and the second mapping goes with the list |
| Pump.OneTokenEach | src/core/client_manager.cpp:121-138 | In any table a pass sends at most one token per active mapping, in table order, to that mapping's socket |
| SystemDelivery.PassProjects | src/core/client_manager.cpp:121-146 | In any table, shared lists included, a pass is for each id exactly one visit per active mapping of it |
| Delivery.SentUpToFrontier | src/core/task_manager.h:46-110 | From any cursor position, over any adds, visits and end marks, the tokens sent are exactly the added ones from there to the frontier |
| Delivery.EverythingSentIff | src/core/task_manager.h:68-76 | Everything added was sent if and only if the cursor is null and no token arrived while it was null |
| Delivery.FinishedButNotSent | src/core/task_manager.h:73-76 | A list can be completely finished and freed with a token never sent |
| SystemDelivery.ExactDelivery | src/core/client_manager.cpp:119-154 | In every run of the whole gateway after one reset of an id, the tokens sent for it are the first n ever added: n is the cursor index or, once it became null, the list length at that moment |
| SystemDelivery.EverythingSentIff | src/core/client_manager.cpp:131-145 | In every such run nothing is lost if and only if the cursor ended null and no token for the id arrived while it was null |
| SystemDelivery.NothingWithoutReset | src/core/task_manager.h:99-110 | Without a reset an id whose cursor is null sends nothing |
| Traffic.ServedInTraffic | src/core/client_manager.cpp:119-154 | In any run that leaves one id and its sockets alone, with any other requests coming, going, streaming and sharing lists: each pass takes one token for every active mapping of the id, in order, until its list is used up; the list ends as that number of visits leaves it |
| Traffic.FreedInTraffic | src/core/client_manager.cpp:140-145 | In any such run the list is freed once it was marked finished and as many visits followed as tokens remained, at least one |
| Traffic.StillFreed | src/core/task_manager.h:46-110 | A finished list that gets more tokens, resets and end marks before the next pass stays finished and is freed by enough passes for all its tokens |
| Traffic.RequestServed | src/core/client_manager.cpp:119-154 | A request from before its first token on, its tokens, its registrations and all other traffic interleaved with passes: sent are exactly the first tokens, one for each reader and each pass after the reset, all on its own sockets; readers are the mappings registered with no pass between the registration and the first token, or later |
| Traffic.FullyServedIff | src/core/client_manager.cpp:119-154 | Such a request is sent all its tokens if and only if it has as many as readers times passes, or fewer |
| Traffic.RegisteredTooEarly | src/core/client_manager.cpp:124-128 | If a pass finds no list for an id, nothing is ever sent for it again, whatever arrives, unless the id is registered again |
| Gateway.Serve | src/core/client_manager.cpp:73-154 | Any calls on the real client manager and token table, in any order (tokens, end marks, resets, registrations, passes, accepts, sweeps), are a run of the abstract gateway in which a sweep is the disconnects of the sockets it drops; the client table is the one the sweeps leave |
| Convergence.PassMakesProgress | src/core/client_manager.cpp:119-154 | Over finished streams every pass on a non-empty table strictly decreases the sum of (1 + remaining tokens) |
| Convergence.TableAfter | src/core/client_manager.cpp:148-153 | After n >= 1 passes exactly the mappings with more than n tokens are left, in order |
| Convergence.ServedAfter | src/core/client_manager.cpp:131-145 | After n passes over any table, unfinished and shared lists included, every list is what n visits for each of its active mappings leave, and exactly the tokens these take were sent, in order |
| Convergence.EmptyAfterLongest | src/core/client_manager.cpp:119-154 | The table is empty after n >= 1 passes if and only if no mapping had more than n tokens: max(1, longest list) passes are needed |
| Convergence.Drained | src/core/client_manager.cpp:119-154 | By then every mapped list is freed, every other list untouched, and each request got all its tokens in order |
| Convergence.EverySendIsMapped | src/core/client_manager.cpp:121-146 | In any table and over any number of passes the log only grows, and only by sends to the socket of an active mapping, of the same request, that was in the table at the start |
| Streaming.StreamResult | examples/npu_node_example.cpp:131-139 | The chunking loop gives ceil(n/2) pieces whose concatenation is the result, with the end mark on exactly the last; none for an empty result |
| Streaming.ResultDelivered | src/core/client_manager.cpp:119-146 | End to end, in any traffic of other requests: the pieces of a result arrive, the output is reset and at least as many passes follow as there are pieces; the bytes sent are exactly the result if and only if it holds no NUL and the request has a reader; all go to its sockets; its list is freed once it was marked finished and as many passes followed |
| Sweep.SweepKeepsOwnedIff | src/core/client_manager.cpp:85-99 | The sweep keeps every mapping's socket a connected client's if and only if no dead client with a live one behind it has a mapping |
| Sweep.SweepSparesLiveIff | src/core/client_manager.cpp:90-97 | Every live client keeps its mappings if and only if no live client right behind a dead one has any |
| Sweep.SweepIsIntendedIff | src/core/client_manager.cpp:90-97 | The sweep does what line 92 states if and only if neither kind of client has a mapping |
| Sweep.SweepHitsTheNeighbour | src/core/client_manager.cpp:86-97 | Two clients, the first closed: the second loses its mapping and the first one's stays |
| Sweep.CapturedIsIntended | src/core/client_manager.cpp:85-99 | The same descending loop with the descriptor copied before the erase does exactly what line 92 states, for every table |
| Sweep.SweepKeepsLive | src/core/client_manager.cpp:85-99 | The descending in-place erasure leaves the stable filter of the live clients |
| Sweep.ExaminedOnce | src/core/client_manager.cpp:85-88 | Every readable client of the table is examined, each exactly once |
| Sweep.ExaminedAt | src/core/client_manager.cpp:85-88 | `recv` is called once for each connected client whose socket is readable, from the last in the table to the first |
| Sweep.HandedAt | src/core/client_manager.cpp:101-106 | The messages handed to the parser come once from each connected client with bytes to read, in the same order, each with its socket and cut at its first NUL |
| Sweep.HandedExactly | src/core/client_manager.cpp:101-106 | A socket and a text are handed to the parser if and only if a connected client has the socket, bytes came on it, and the text is these up to the first NUL; once each with distinct sockets |
| Sweep.LiveAt | src/core/client_manager.cpp:85-99 | The clients that stay are all those not connected, not readable, or with bytes to read, in their old order |
| Sweep.PassIsRetiring | src/core/client_manager.cpp:148-153 | To the table a pump pass is a number of single erasures, so runs with passes are among the runs considered here |
| Sweep.ClientsBounded | src/core/client_manager.cpp:73-99 | Over every run of accepts, registrations, retired mappings and sweeps of either kind in which `accept` returns descriptors of no client: at most 512 clients, no socket twice |
| Sweep.OwnedThroughoutIff | src/core/client_manager.cpp:73-99 | Over every such run every mapping has a connected client in every table if and only if every registration was for a connected client and no sweep as written met a dead client with a mapping and a live client behind it |
| Sweep.CapturedKeepsOwned | src/core/client_manager.cpp:90-97 | With the descriptor copied before the erase, every such run with registrations for connected clients keeps every mapping owned, whatever the sweeps meet |
| Connections.FaithfulThroughoutIff | src/core/client_manager.cpp:73-99 | Over every run with fresh accepts, swept either way, and registrations of requests of any connection accepted so far, still there or not: in every table no mapping's socket leads to a connection other than the one it was registered for, if and only if no connection joins on a descriptor that still has a mapping and no request is registered after another connection took over its descriptor |
| Connections.CapturedIsFaithful | src/core/client_manager.cpp:90-97 | From the empty table, with the descriptor copied before the erase and every request registered while its connection is there, this holds throughout |
| Connections.StrangerGetsTokens | src/core/client_manager.cpp:73-146 | As written, six steps from the empty table send a token of connection 1 to connection 3 |
| Connections.PassIsFaithful | src/core/client_manager.cpp:119-146 | In a table without such mappings, everything a pass sends to a client was asked for by that very connection |
| ClientManagers.ClientManager.SweepClients | src/core/client_manager.cpp:85-110 | The loop over the vector's storage equals the abstract sweep, with the same examinations and parsed buffers in the same order |
| ClientManagers.ClientManager.Accept | src/core/client_manager.cpp:73-83 | A connection joins behind the others exactly below the limit of 512; otherwise the table is unchanged, and the connection is closed |
| SimpleQueues.SimpleQueue.Push | src/common/data_structures.h:18-26 | Refused exactly when full; otherwise the item joins behind the others and no queued slot is written |
| SimpleQueues.SimpleQueue.Pop | src/common/data_structures.h:28-35 | Empty gives nothing; otherwise the oldest item leaves |
| SimpleQueues.Execute | src/common/data_structures.h:13-47 | Any calls in any order on one ring with any contents: its answers are those of the abstract run, and what was queued and then accepted is what was popped and then is queued, in order |
| SimpleQueues.NothingLost | src/common/data_structures.h:13-47 | The same conservation and the bound for every abstract run |
| SimpleQueues.ClientMessageCache.ClearMessages | src/common/data_structures.h:337-345 | With any entries: terminates with the queue empty; every delete is of an allocated message if and only if no message was queued twice and all were allocated, and then all of them are deleted |
| SimpleQueues.ClearIsSafeIff | src/common/data_structures.h:317-345 | Deleting the queued messages one by one deletes only what is allocated if and only if no message is queued twice and all are allocated |
| HandOff.HandOffIsSafe | src/core/task_manager.cpp:24-55 | One producer and one consumer, tests and acts as separate steps: no push when full, no front or pop when empty, and accepted requests are those sent, then the one in hand, then the queue, in order |
| HandOff.TestTellsIff | src/core/task_manager.cpp:43-45 | The consumer's test leaves it polling if and only if the queue is empty, and changes nothing else |
| HandOff.TakesOldest | src/core/task_manager.cpp:45-49 | A polling consumer with a request in the queue takes exactly the oldest one in four enabled and safe steps, hands it over and, with a node, sends it |
| HandOff.AllCanBeSent | src/core/task_manager.cpp:43-52 | From every state under the invariant the consumer alone can empty the queue; with a node everything accepted is then sent, in order |
| HandOff.PutsLast | src/core/task_manager.cpp:24-28 | A producer that finds room gets its request accepted behind the others; one that finds 128 queued drops it and nothing changes |
| HandOff.TwoProducersOverflow | src/core/task_manager.cpp:24-28 | With any two producers a run from the empty queue fills it to 127, lets both see the last free place, and has the second push enabled on a full queue |
| HandOff.SafeIffOneProducer | src/core/task_manager.cpp:24-55 | For every set of producers: all enabled queue calls in all states of all runs are safe if and only if the set has at most one member |
| Reassembly.ReceiveLoop | examples/client_example.cpp:59-80 | The loop handles exactly the messages of the buffer function |
| Reassembly.HandledExactly | examples/npu_node_example.cpp:82-103 | For every fragmentation, and wherever the connection ends, the handled messages are exactly the leading ones that end where a fragment ends |
| Reassembly.ReassemblyIff | examples/client_example.cpp:63-79 | The messages received in full are all handled, in order and once each, if and only if each of them ends where a receive ends |
| Reassembly.OverrunIsFatal | examples/client_example.cpp:70-78 | Once the buffer extends a complete message by the start of the next, nothing is ever handled again |
| Reassembly.PrefixFree | src/core/json_utils.cpp:12-14 | No dumped object is a proper prefix of another |
| JsonText.DumpIsObjectText | src/core/json_utils.cpp:12-14 | Every dumped object, whatever its strings and its nesting, is one whole object to the receive loops and holds no NUL: what the laws above ask of a message |
| Codec.ReadTwice | src/core/message_handler.cpp:37-54 | Reading one value and then another is reading the first overridden by the second's well-typed known fields |
| Codec.MessageRoundTrip | src/core/message_handler.cpp:37-73 | Writing a message and reading it into any other restores every field but the type |
| Codec.ContextRoundTripIff | src/core/task_context.cpp:32-58 | A task context is restored onto any prior one if and only if its request and response carry their own types |
| Codec.BuiltParses | src/core/json_utils.cpp:72-143 | What any of the builders built, parsed over any message, sets the builder's type and every argument and leaves the rest |
| Codec.TypeIff | src/core/message_handler.cpp:206-214 | A message has a type if and only if its `type` is that name, and no type if and only if it is none of the six |
| Codec.NumbersRead | src/core/json_utils.cpp:24-30 | Integers in range are read as they are, fractions are cut towards zero, and a real is read from either |
| Codec.RefusedIff | src/core/task_context.cpp:47-58 | A context is refused if and only if the value is not an object or a known field has a type that does not convert |
| Codec.Defaults | src/core/task_context.cpp:47-58 | Each absent field of a context gets its default, each absent message stays |
| Codec.Message.ParseMessage | src/core/message_handler.cpp:103-131 | In place: a text that is not JSON changes nothing, otherwise type and known fields are set |

## Left out

- Sockets, `select`, `fcntl`, the engine IPC under `infer/`, signals, logging and `main`: input and output only.
- JSON text parsing: a library whose source is not part of the repository. Keys are an enumeration, and the parser in `Reassembly` is any function that is sound on objects. Dumping is modelled in `JsonText` with numbers as given text; an invalid UTF-8 string, which the library refuses, is not.
- UTF-8: results are cut between bytes, and a cut character would be refused by the JSON dump; tokens are byte strings here.
- etl::string<64> truncation of request ids longer than 64 characters in the request table.
- Partial `send`, and `send` failing on a non-blocking socket: every call is taken to send its whole token.
- Memory ordering and tearing of unsynchronised accesses: each queue call and each group of field writes is one step.
- `int` overflow of list sizes and the 64-bit clock; memory exhaustion.
- Floats: `load` is a real number. A float outside the range of `int` is undefined in C++; the codec wraps it.
- `pushResponse`, `popFinishedResponse` and `responseLoop`: the same queue discipline as `HandOff` with nothing new.
- `getNextMessage` of the message cache, `ResponseTracker`, and the request and response classes of data_structures.h: legacy code that copies types whose copying is deleted.
- InferenceNodeManager, node selection and timeouts are not part of this model: their source is not in the repository.
- `TaskQueue::removeFromPendingQueue`, `getNextProcessingTask` and `TaskCache::updateTaskStatus` are modelled as methods but take part in no run: nothing in the task manager calls them.
- Filling `client_requests` and calling `resetOutput`: no code in the repository does either; both are explicit events of the runs.
- The polling loops of the task thread run until the process stops: they are a step relation over their queue calls, not Dafny loops.
- The fields a `TaskContext::from_json` that throws has already written: the model returns no context at all in that case.
