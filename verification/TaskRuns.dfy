/** Whole runs of the task manager with one caller at a time: where every task
    is, in which order tasks are dispatched, and what their time stamps say. */
module TaskRuns {
  import opened Common
  import opened Tasks
  import opened TaskInvariants

  type Addr = nat

  /** One creation, with all its arguments; ids and addresses may be used again. */
  datatype Ticket = Ticket(a: Addr, order: Order, createTime: int)

  /** A task at the moment it is freed, the ticket it was created with, and the
      call that freed it. */
  datatype Retired = Retired(task: Task, wasDispatched: bool, ticket: Option<Ticket>, outcome: Outcome, at: int)

  /** `lostPending` and `lostProcessing` are the live tasks whose enqueue was
      refused by a full queue; `issued` keeps the ticket of the last creation at
      every address. */
  datatype Ledger = Ledger(
    e: Engine<Addr>, clock: int,
    lostPending: set<Addr>, lostProcessing: set<Addr>, issued: map<Addr, Ticket>,
    accepted: seq<Ticket>, dispatched: seq<Ticket>, retired: seq<Retired>)

  datatype Op = CreateTask(o: Order, a: Addr) | NextTask | FinishTask(id: string, outcome: Outcome)

  /** The usage protocol; `new` gives an unused address. */
  predicate Legal(e: Engine<Addr>, op: Op) {
    match op
    case CreateTask(o, a) => MayCreate(e, o.requestId) && (Full(e) || a !in e.tasks)
    case NextTask => true
    case FinishTask(id, _) => MayFinish(e, id)
  }

  /** The operation dereferences live tasks only. */
  predicate Safe(e: Engine<Addr>, op: Op) {
    match op
    case CreateTask(_, _) => true
    case NextTask => e.pending != [] ==> e.pending[0] in e.tasks
    case FinishTask(id, _) => id in e.cache ==> e.cache[id] in e.tasks
  }

  /** The ticket as the fields of the task tell it. */
  function TicketOf(tasks: map<Addr, Task>, a: Addr): Ticket
    requires a in tasks
  {
    ReadTicket(a, tasks[a])
  }

  function ReadTicket(a: Addr, t: Task): Ticket {
    Ticket(a, Order(t.requestId, t.clientSocket, t.request, t.priority), t.createTime)
  }

  function Step(l: Ledger, op: Op, now: int): Ledger
    requires Safe(l.e, op)
  {
    var e := l.e;
    match op
    case CreateTask(o, a) =>
      if Full(e) then l.(clock := now)
      else
        var room := |e.pending| < MAX_PENDING_QUEUE;
        l.(e := Create(e, a, o, now), clock := now,
           issued := l.issued[a := Ticket(a, o, now)],
           accepted := if room then l.accepted + [Ticket(a, o, now)] else l.accepted,
           lostPending := if room then l.lostPending else l.lostPending + {a})
    case NextTask =>
      if e.pending == [] then l.(clock := now)
      else
        var a := e.pending[0];
        var room := |e.processing| < MAX_PROCESSING_QUEUE;
        l.(e := Dispatch(e, now), clock := now,
           dispatched := l.dispatched + [TicketOf(Dispatch(e, now).tasks, a)],
           lostProcessing := if room then l.lostProcessing else l.lostProcessing + {a})
    case FinishTask(id, outcome) =>
      if id !in e.cache then l.(clock := now)
      else
        var a := e.cache[id];
        l.(e := Finish(e, id, outcome, now), clock := now,
           lostPending := l.lostPending - {a}, lostProcessing := l.lostProcessing - {a},
           retired := l.retired + [Retired(
             Closed(e.tasks[a], outcome, now), a in e.processing || a in l.lostProcessing,
             if a in l.issued then Some(l.issued[a]) else None, outcome, now)])
  }

  // Where every task is

  /** The live tasks are the disjoint union of the two queues and the two kinds
      of tasks a full queue refused. */
  ghost predicate PartitionInv(l: Ledger) {
    && (forall a :: a in l.e.tasks <==>
          a in l.e.pending || a in l.e.processing || a in l.lostPending || a in l.lostProcessing)
    && l.lostPending !! l.lostProcessing
    && (forall a :: a in l.lostPending || a in l.lostProcessing ==> a !in l.e.pending && a !in l.e.processing)
  }

  /** A live task still says what it was created with, and its status and time
      stamps agree with where it is. */
  ghost predicate TaskInv(l: Ledger, a: Addr)
    requires a in l.e.tasks
  {
    var t := l.e.tasks[a];
    && a in l.issued && ReadTicket(a, t) == l.issued[a]
    && t.completeTime == 0 && t.responseData == "" && t.errorMsg == ""
    && t.createTime <= l.clock
    && (a in l.e.pending || a in l.lostPending ==> t.status == PENDING && t.assignTime == 0)
    && (a in l.e.processing || a in l.lostProcessing ==> t.status == PROCESSING && t.createTime <= t.assignTime <= l.clock)
  }

  /** A retired task still says what it was created with, and what the call that
      retired it reported. If it was ever dispatched its three time stamps are in
      order, otherwise it never got an assign time. */
  predicate RetiredInv(r: Retired, clock: int) {
    && r.ticket.Some? && ReadTicket(r.ticket.value.a, r.task) == r.ticket.value
    && (match r.outcome
        case Result(data) => r.task.status == COMPLETED && r.task.responseData == data && r.task.errorMsg == ""
        case Error(message) => r.task.status == FAILED && r.task.errorMsg == message && r.task.responseData == "")
    && r.task.completeTime == r.at
    && (if r.wasDispatched
        then r.task.createTime <= r.task.assignTime <= r.task.completeTime <= clock
        else r.task.assignTime == 0 && r.task.createTime <= r.task.completeTime <= clock)
  }

  function Tickets(tasks: map<Addr, Task>, q: seq<Addr>): (r: seq<Ticket>)
    requires forall a :: a in q ==> a in tasks
    ensures |r| == |q|
    ensures forall i :: 0 <= i < |q| ==> r[i] == TicketOf(tasks, q[i])
  {
    if q == [] then [] else [TicketOf(tasks, q[0])] + Tickets(tasks, q[1..])
  }

  /** First in, first out, whatever the priorities: what was dispatched followed
      by what is pending is what was accepted. */
  ghost predicate Fifo(l: Ledger) {
    && (forall a :: a in l.e.pending ==> a in l.e.tasks)
    && l.accepted == l.dispatched + Tickets(l.e.tasks, l.e.pending)
  }

  ghost predicate InCreationOrder(accepted: seq<Ticket>, clock: int) {
    && (forall i, j :: 0 <= i < j < |accepted| ==> accepted[i].createTime <= accepted[j].createTime)
    && (forall t :: t in accepted ==> t.createTime <= clock)
  }

  /** The processing queue is sorted by assign time. */
  ghost predicate SortedByAssign(tasks: map<Addr, Task>, q: seq<Addr>, clock: int) {
    && (forall a :: a in q ==> a in tasks && tasks[a].assignTime <= clock)
    && (forall i, j :: 0 <= i < j < |q| ==> tasks[q[i]].assignTime <= tasks[q[j]].assignTime)
  }

  ghost predicate AllRetired(retired: seq<Retired>, clock: int) {
    forall r :: r in retired ==> RetiredInv(r, clock)
  }

  /** Where tasks are and what they say about it. */
  ghost predicate PlaceInv(l: Ledger) {
    PartitionInv(l) && forall a :: a in l.e.tasks ==> TaskInv(l, a)
  }

  ghost predicate Inv(l: Ledger) {
    && EngineInv(l.e)
    && PlaceInv(l)
    && Fifo(l)
    && InCreationOrder(l.accepted, l.clock)
    && SortedByAssign(l.e.tasks, l.e.processing, l.clock)
    && AllRetired(l.retired, l.clock)
  }

  const START: Ledger := Ledger(Engine(map[], map[], [], []), 0, {}, {}, map[], [], [], [])

  lemma LegalIsSafe(l: Ledger, op: Op)
    requires Inv(l) && Legal(l.e, op)
    ensures Safe(l.e, op)
  {
  }

  // Places

  /** A step that concerns one task: everything else is where and as it was. */
  ghost predicate Local(l: Ledger, v: Ledger, d: Addr) {
    && l.clock <= v.clock
    && (forall a :: a != d ==>
          && (a in v.e.tasks <==> a in l.e.tasks)
          && (a in l.e.tasks && a in v.e.tasks ==> v.e.tasks[a] == l.e.tasks[a])
          && (a in l.issued ==> a in v.issued && v.issued[a] == l.issued[a])
          && (a in v.e.pending <==> a in l.e.pending)
          && (a in v.e.processing <==> a in l.e.processing)
          && (a in v.lostPending <==> a in l.lostPending)
          && (a in v.lostProcessing <==> a in l.lostProcessing))
  }

  /** The task is in exactly one place, or nowhere if it does not exist. */
  ghost predicate PlacedOnce(l: Ledger, d: Addr) {
    && (d in l.e.tasks <==> d in l.e.pending || d in l.e.processing || d in l.lostPending || d in l.lostProcessing)
    && !(d in l.lostPending && d in l.lostProcessing)
    && (d in l.lostPending || d in l.lostProcessing ==> d !in l.e.pending && d !in l.e.processing)
  }

  lemma LocalPlaces(l: Ledger, v: Ledger, d: Addr)
    requires PlaceInv(l) && Local(l, v, d) && PlacedOnce(v, d)
    requires d in v.e.tasks ==> TaskInv(v, d)
    ensures PlaceInv(v)
  {
    forall a | a in v.e.tasks ensures TaskInv(v, a) {
      assert a != d ==> TaskInv(l, a);
    }
    forall a ensures PlacedOnce(v, a) {
      assert a != d ==> PlacedOnce(l, a);
    }
  }

  // The orders

  lemma TicketsFrame(before: map<Addr, Task>, after: map<Addr, Task>, q: seq<Addr>)
    requires forall a :: a in q ==> a in before && a in after && after[a] == before[a]
    ensures Tickets(before, q) == Tickets(after, q)
  {
    assert forall i :: 0 <= i < |q| ==> q[i] in q;
  }

  lemma AssignFrame(before: map<Addr, Task>, after: map<Addr, Task>, q: seq<Addr>, clock: int, now: int)
    requires SortedByAssign(before, q, clock) && clock <= now
    requires forall a :: a in q ==> a in after && after[a] == before[a]
    ensures SortedByAssign(after, q, now)
  {
    assert forall i :: 0 <= i < |q| ==> q[i] in q;
  }

  lemma AssignAppend(tasks: map<Addr, Task>, q: seq<Addr>, a: Addr, now: int)
    requires SortedByAssign(tasks, q, now) && a in tasks && tasks[a].assignTime == now
    ensures SortedByAssign(tasks, q + [a], now)
  {
    assert forall i :: 0 <= i < |q| ==> q[i] in q;
  }

  /** Removing one task from the processing queue leaves it sorted. */
  lemma AssignWithout(before: map<Addr, Task>, after: map<Addr, Task>, q: seq<Addr>, a: Addr, clock: int, now: int)
    requires SortedByAssign(before, q, clock) && clock <= now
    requires forall b :: b in q && b != a ==> b in after && after[b] == before[b]
    ensures SortedByAssign(after, Without(q, a), now)
  {
    var r := Without(q, a);
    forall i, j | 0 <= i < j < |r| ensures after[r[i]].assignTime <= after[r[j]].assignTime {
      var p, k := WithoutKeepsOrder(q, a, i, j);
      assert r[i] in r && r[j] in r;
    }
  }

  lemma Later(l: Ledger, now: int)
    requires Inv(l) && l.clock <= now
    ensures InCreationOrder(l.accepted, now) && AllRetired(l.retired, now)
  {
  }

  // Each operation

  lemma ClockKeeps(l: Ledger, now: int)
    requires Inv(l) && l.clock <= now
    ensures Inv(l.(clock := now))
  {
    hide EngineInv, PlaceInv, SortedByAssign, Fifo, AllRetired;
    ClockPlaces(l, now);
    Later(l, now);
    ClockSorted(l, now);
    ClockFifo(l, now);
  }

  lemma ClockSorted(l: Ledger, now: int)
    requires SortedByAssign(l.e.tasks, l.e.processing, l.clock) && l.clock <= now
    ensures SortedByAssign(l.e.tasks, l.e.processing, now)
  {
    AssignFrame(l.e.tasks, l.e.tasks, l.e.processing, l.clock, now);
  }

  lemma ClockFifo(l: Ledger, now: int)
    requires Fifo(l)
    ensures Fifo(l.(clock := now))
  {
  }

  lemma ClockPlaces(l: Ledger, now: int)
    requires PlaceInv(l) && l.clock <= now
    ensures PlaceInv(l.(clock := now))
  {
    assert forall a :: a in l.e.tasks ==> TaskInv(l, a);
  }

  lemma CreateKeeps(l: Ledger, o: Order, a: Addr, now: int)
    requires Inv(l) && !Full(l.e) && o.requestId !in l.e.cache && a !in l.e.tasks && l.clock <= now
    ensures Inv(Step(l, CreateTask(o, a), now))
  {
    hide EngineInv, PlaceInv, Fifo, SortedByAssign, Create, AllRetired;
    CreateEngine(l.e, a, o, now);
    CreatePlaces(l, o, a, now);
    CreateFifo(l, o, a, now);
    CreateSorted(l, o, a, now);
    Later(l, now);
  }

  lemma CreateSorted(l: Ledger, o: Order, a: Addr, now: int)
    requires SortedByAssign(l.e.tasks, l.e.processing, l.clock) && !Full(l.e) && a !in l.e.tasks && l.clock <= now
    ensures var v := Step(l, CreateTask(o, a), now); SortedByAssign(v.e.tasks, v.e.processing, now)
  {
    AssignFrame(l.e.tasks, Step(l, CreateTask(o, a), now).e.tasks, l.e.processing, l.clock, now);
  }

  lemma CreateFifo(l: Ledger, o: Order, a: Addr, now: int)
    requires Fifo(l) && !Full(l.e) && a !in l.e.tasks
    ensures Fifo(Step(l, CreateTask(o, a), now))
  {
    var v := Step(l, CreateTask(o, a), now);
    TicketsFrame(l.e.tasks, v.e.tasks, l.e.pending);
    if |l.e.pending| < MAX_PENDING_QUEUE {
      var t := Ticket(a, o, now);
      assert Tickets(v.e.tasks, v.e.pending) == Tickets(l.e.tasks, l.e.pending) + [t];
      assert v.accepted == l.dispatched + (Tickets(l.e.tasks, l.e.pending) + [t]);
    }
  }

  lemma CreatePlaces(l: Ledger, o: Order, a: Addr, now: int)
    requires Inv(l) && !Full(l.e) && o.requestId !in l.e.cache && a !in l.e.tasks && l.clock <= now
    ensures PlaceInv(Step(l, CreateTask(o, a), now))
  {
    assert PlacedOnce(l, a);
    hide EngineInv;
    LocalPlaces(l, Step(l, CreateTask(o, a), now), a);
  }

  lemma NextKeeps(l: Ledger, now: int)
    requires Inv(l) && l.e.pending != [] && l.clock <= now
    ensures Inv(Step(l, NextTask, now))
  {
    DispatchEngine(l.e, now);
    NextPlaces(l, now);
    NextFifo(l, now);
    NextSorted(l, now);
    Later(l, now);
    hide EngineInv, PlaceInv, Fifo, SortedByAssign, Dispatch;
  }

  lemma NextFifo(l: Ledger, now: int)
    requires Fifo(l) && l.e.pending != [] && l.e.pending[0] !in l.e.pending[1..]
    ensures Fifo(Step(l, NextTask, now))
  {
    var v := Step(l, NextTask, now);
    assert v.e.pending == l.e.pending[1..];
    TicketsFrame(l.e.tasks, v.e.tasks, v.e.pending);
    Regroup(l.dispatched, [TicketOf(l.e.tasks, l.e.pending[0])], Tickets(l.e.tasks, v.e.pending));
  }

  lemma NextSorted(l: Ledger, now: int)
    requires SortedByAssign(l.e.tasks, l.e.processing, l.clock) && l.clock <= now
    requires l.e.pending != [] && l.e.pending[0] in l.e.tasks && l.e.pending[0] !in l.e.processing
    ensures SortedByAssign(Step(l, NextTask, now).e.tasks, Step(l, NextTask, now).e.processing, now)
  {
    var a, v := l.e.pending[0], Step(l, NextTask, now);
    AssignFrame(l.e.tasks, v.e.tasks, l.e.processing, l.clock, now);
    AssignAppend(v.e.tasks, l.e.processing, a, now);
  }

  lemma NextPlaces(l: Ledger, now: int)
    requires Inv(l) && l.e.pending != [] && l.clock <= now
    ensures PlaceInv(Step(l, NextTask, now))
  {
    hide EngineInv, Fifo, InCreationOrder, SortedByAssign, AllRetired;
    var a := l.e.pending[0];
    DequeueKeeps(l.e);
    NextIsLocal(l, now);
    assert TaskInv(l, a) && PlacedOnce(l, a);
    LocalPlaces(l, Step(l, NextTask, now), a);
  }

  lemma NextIsLocal(l: Ledger, now: int)
    requires l.e.pending != [] && l.e.pending[0] in l.e.tasks && l.clock <= now
    ensures Local(l, Step(l, NextTask, now), l.e.pending[0])
  {
    assert l.e.pending == [l.e.pending[0]] + l.e.pending[1..];
  }

  lemma FinishKeeps(l: Ledger, id: string, outcome: Outcome, now: int)
    requires Inv(l) && id in l.e.cache && l.e.cache[id] !in l.e.pending && l.clock <= now
    ensures Inv(Step(l, FinishTask(id, outcome), now))
  {
    hide EngineInv, PlaceInv, Fifo, SortedByAssign, RetiredInv, Finish;
    FinishEngine(l.e, id, outcome, now);
    FinishPlaces(l, id, outcome, now);
    FinishOrders(l, id, outcome, now);
    FinishRetires(l, id, outcome, now);
    Later(l, now);
  }

  lemma FinishOrders(l: Ledger, id: string, outcome: Outcome, now: int)
    requires Inv(l) && id in l.e.cache && l.e.cache[id] !in l.e.pending && l.clock <= now
    ensures var v := Step(l, FinishTask(id, outcome), now); Fifo(v) && SortedByAssign(v.e.tasks, v.e.processing, now)
  {
    hide EngineInv, PlaceInv, Finish, InCreationOrder, AllRetired;
    var a := l.e.cache[id];
    FinishEngine(l.e, id, outcome, now);
    TicketsFrame(l.e.tasks, l.e.tasks - {a}, l.e.pending);
    AssignWithout(l.e.tasks, l.e.tasks - {a}, l.e.processing, a, l.clock, now);
  }

  lemma FinishRetires(l: Ledger, id: string, outcome: Outcome, now: int)
    requires Inv(l) && id in l.e.cache && l.e.cache[id] !in l.e.pending && l.clock <= now
    ensures var retired := Step(l, FinishTask(id, outcome), now).retired;
            retired == l.retired + [retired[|l.retired|]] && RetiredInv(retired[|l.retired|], now)
  {
    assert TaskInv(l, l.e.cache[id]) && PlacedOnce(l, l.e.cache[id]);
  }

  lemma FinishPlaces(l: Ledger, id: string, outcome: Outcome, now: int)
    requires Inv(l) && id in l.e.cache && l.e.cache[id] !in l.e.pending && l.clock <= now
    ensures PlaceInv(Step(l, FinishTask(id, outcome), now))
  {
    FinishEngine(l.e, id, outcome, now);
    hide EngineInv, Finish;
    LocalPlaces(l, Step(l, FinishTask(id, outcome), now), l.e.cache[id]);
  }

  lemma StepKeepsInv(l: Ledger, op: Op, now: int)
    requires Inv(l) && Legal(l.e, op) && Safe(l.e, op) && l.clock <= now
    ensures Inv(Step(l, op, now))
  {
    hide Inv;
    match op
    case CreateTask(o, a) => if Full(l.e) { ClockKeeps(l, now); } else { CreateKeeps(l, o, a, now); }
    case NextTask => if l.e.pending == [] { ClockKeeps(l, now); } else { NextKeeps(l, now); }
    case FinishTask(id, outcome) => if id !in l.e.cache { ClockKeeps(l, now); } else { FinishKeeps(l, id, outcome, now); }
  }

  // Whole runs

  /** An operation and the clock reading it sees. */
  datatype Call = Call(op: Op, now: int)

  /** Every call follows the protocol and the clock never goes back. */
  ghost predicate LegalRun(l: Ledger, calls: seq<Call>)
    decreases |calls|
  {
    calls == [] ||
    (var c := calls[0];
     && Legal(l.e, c.op) && l.clock <= c.now
     && (Safe(l.e, c.op) ==> LegalRun(Step(l, c.op, c.now), calls[1..])))
  }

  /** No call completes or fails the id. */
  ghost predicate Spared(calls: seq<Call>, id: string) {
    forall c :: c in calls && c.op.FinishTask? ==> c.op.id != id
  }

  /** No call of the run dereferences a freed task. */
  ghost predicate SafeRun(l: Ledger, calls: seq<Call>)
    decreases |calls|
  {
    calls == [] || (Safe(l.e, calls[0].op) && SafeRun(Step(l, calls[0].op, calls[0].now), calls[1..]))
  }

  ghost function Run(l: Ledger, calls: seq<Call>): Ledger
    requires SafeRun(l, calls)
    decreases |calls|
  {
    if calls == [] then l else Run(Step(l, calls[0].op, calls[0].now), calls[1..])
  }

  lemma {:induction false} RunKeepsInv(l: Ledger, calls: seq<Call>)
    requires Inv(l) && LegalRun(l, calls)
    ensures SafeRun(l, calls) && Inv(Run(l, calls))
    decreases |calls|
  {
    if calls != [] {
      LegalIsSafe(l, calls[0].op);
      StepKeepsInv(l, calls[0].op, calls[0].now);
      hide Inv, Step;
      RunKeepsInv(Step(l, calls[0].op, calls[0].now), calls[1..]);
    }
  }

  lemma StartInv(clock: int)
    ensures Inv(START.(clock := clock))
  {
  }

  /** Every legal run from the empty manager touches live tasks only and ends
      with: all live tasks accounted for, statuses and time stamps in step with
      the queues, and tasks dispatched in creation order, each once. */
  lemma LegalRunsAreCorrect(clock: int, calls: seq<Call>)
    requires LegalRun(START.(clock := clock), calls)
    ensures SafeRun(START.(clock := clock), calls)
    ensures var l := Run(START.(clock := clock), calls);
            Inv(l) && l.dispatched <= l.accepted && l.accepted == l.dispatched + Tickets(l.e.tasks, l.e.pending)
  {
    StartInv(clock);
    RunKeepsInv(START.(clock := clock), calls);
  }

  /** The pending queue is sorted by create time. */
  lemma PendingIsSorted(l: Ledger, i: nat, j: nat)
    requires Inv(l) && i < j < |l.e.pending|
    ensures l.e.pending[i] in l.e.tasks && l.e.pending[j] in l.e.tasks
    ensures l.e.tasks[l.e.pending[i]].createTime <= l.e.tasks[l.e.pending[j]].createTime
  {
    hide EngineInv, PlaceInv, SortedByAssign, AllRetired;
    var n, tickets := |l.dispatched|, Tickets(l.e.tasks, l.e.pending);
    assert l.accepted[n + i] == tickets[i] && l.accepted[n + j] == tickets[j];
  }

  // Counters

  lemma {:induction false} OneIdPerTask<A>(e: Engine<A>)
    requires CacheInv(e)
    ensures |e.cache| == |e.tasks|
    decreases |e.cache|
  {
    if e.cache == map[] {
      assert e.tasks == map[];
    } else {
      var id :| id in e.cache;
      var rest := Erase(e, id);
      assert rest.cache.Keys == e.cache.Keys - {id} && rest.tasks.Keys == e.tasks.Keys - {e.cache[id]};
      OneIdPerTask(rest);
    }
  }

  /** `getTotalTaskCount` counts the four kinds of places. */
  lemma TotalCount(l: Ledger)
    requires Inv(l)
    ensures |l.e.cache| == |l.e.pending| + |l.e.processing| + |l.lostPending| + |l.lostProcessing|
  {
    hide Fifo, InCreationOrder, SortedByAssign, AllRetired, NoDup, TaskInv;
    OneIdPerTask(l.e);
    var p, q := set a | a in l.e.pending, set a | a in l.e.processing;
    NoDupCardinality(l.e.pending);
    NoDupCardinality(l.e.processing);
    FourPlaces(l.e.tasks.Keys, p, q, l.lostPending, l.lostProcessing);
  }

  lemma FourPlaces(all: set<Addr>, p: set<Addr>, q: set<Addr>, r: set<Addr>, s: set<Addr>)
    requires forall a :: a in all <==> a in p || a in q || a in r || a in s
    requires p !! q && p !! r && p !! s && q !! r && q !! s && r !! s
    ensures |all| == |p| + |q| + |r| + |s|
  {
    assert all == p + q + r + s;
    assert p + q !! r && p + q + r !! s;
  }

  /** The total equals pending plus processing exactly when no live task was
      refused by a full queue. */
  lemma CountsAgreeIff(l: Ledger)
    requires Inv(l)
    ensures |l.e.cache| == |l.e.pending| + |l.e.processing| <==> l.lostPending == {} && l.lostProcessing == {}
  {
    TotalCount(l);
  }

  // Life cycle

  /** The only status change of a task that stays alive is from pending to
      processing, when it is dispatched; the only way out is a retirement of a
      task that was processing, or that was refused by the pending queue. */
  lemma StatusMoves(l: Ledger, op: Op, now: int, a: Addr)
    requires Inv(l) && Legal(l.e, op) && Safe(l.e, op) && a in l.e.tasks
    ensures var v := Step(l, op, now);
            if a in v.e.tasks then
              v.e.tasks[a].status == l.e.tasks[a].status
              || (op.NextTask? && a == l.e.pending[0] && l.e.tasks[a].status == PENDING && v.e.tasks[a].status == PROCESSING)
            else
              && op.FinishTask? && v.retired == l.retired + [v.retired[|l.retired|]]
              && v.retired[|l.retired|].task.status == (if op.outcome.Result? then COMPLETED else FAILED)
              && (if v.retired[|l.retired|].wasDispatched then l.e.tasks[a].status == PROCESSING
                  else l.e.tasks[a].status == PENDING && a in l.lostPending)
  {
    hide EngineInv, Finish, Fifo, SortedByAssign, AllRetired, InCreationOrder;
    assert TaskInv(l, a);
    match op
    case CreateTask(o, b) =>
    case NextTask =>
    case FinishTask(id, outcome) =>
      if id in l.e.cache {
        FinishEngine(l.e, id, outcome, now);
      }
  }

  /** What completing and failing write, field by field. */
  lemma FinishWrites(l: Ledger, id: string, outcome: Outcome, now: int)
    requires Inv(l) && Legal(l.e, FinishTask(id, outcome)) && id in l.e.cache
    ensures l.e.cache[id] in l.e.tasks && Safe(l.e, FinishTask(id, outcome))
    ensures var t, retired := l.e.tasks[l.e.cache[id]], Step(l, FinishTask(id, outcome), now).retired;
            && |retired| == |l.retired| + 1
            && (outcome.Result? ==>
                  retired[|l.retired|].task == t.(status := COMPLETED, responseData := outcome.data, completeTime := now))
            && (outcome.Error? ==>
                  retired[|l.retired|].task == t.(status := FAILED, errorMsg := outcome.message, completeTime := now))
  {
  }

  /** A task keeps all it was created with from the creation on: whatever calls
      follow, while it is not finished. */
  lemma {:induction false} KeepsItsOrder(l: Ledger, calls: seq<Call>, a: Addr)
    requires Inv(l) && a in l.e.tasks && LegalRun(l, calls) && Spared(calls, l.e.tasks[a].requestId)
    ensures SafeRun(l, calls)
    ensures var r := Run(l, calls);
            a in r.e.tasks && ReadTicket(a, r.e.tasks[a]) == ReadTicket(a, l.e.tasks[a])
    decreases |calls|
  {
    hide Inv, Step;
    if calls != [] {
      var c := calls[0];
      assert c in calls && forall d :: d in calls[1..] ==> d in calls;
      LegalIsSafe(l, c.op);
      StepKeepsInv(l, c.op, c.now);
      KeepsItsOrderOnce(l, c, a);
      KeepsItsOrder(Step(l, c.op, c.now), calls[1..], a);
    }
  }

  lemma KeepsItsOrderOnce(l: Ledger, c: Call, a: Addr)
    requires Inv(l) && a in l.e.tasks && Legal(l.e, c.op) && Safe(l.e, c.op)
    requires c.op.FinishTask? ==> c.op.id != l.e.tasks[a].requestId
    ensures var v := Step(l, c.op, c.now);
            a in v.e.tasks && ReadTicket(a, v.e.tasks[a]) == ReadTicket(a, l.e.tasks[a])
  {
    hide Finish, PlaceInv, Fifo, InCreationOrder, SortedByAssign, AllRetired;
    match c.op
    case CreateTask(o, b) =>
    case NextTask =>
    case FinishTask(id, outcome) =>
      if id in l.e.cache {
        FinishEngine(l.e, id, outcome, c.now);
        assert l.e.cache[id] != a;
      }
  }

  // Exactly when the protocol is needed

  /** Completing a task keeps "queue entries are live tasks" exactly when the
      task is not in the pending queue: only the processing queue is unlinked. */
  lemma FinishKeepsQueuesIff<A>(e: Engine<A>, id: string, outcome: Outcome, now: int)
    requires EngineInv(e) && id in e.cache
    ensures QueueInv(Finish(e, id, outcome, now)) <==> e.cache[id] !in e.pending
  {
    if e.cache[id] !in e.pending {
      FinishEngine(e, id, outcome, now);
    } else {
      assert e.cache[id] in Finish(e, id, outcome, now).pending;
    }
  }

  /** Creating a task keeps the engine consistent exactly when the id is free:
      an id that is taken leaves a task the id table does not know. */
  lemma CreateKeepsEngineIff<A>(e: Engine<A>, a: A, o: Order, now: int)
    requires EngineInv(e) && !Full(e) && a !in e.tasks
    ensures EngineInv(Create(e, a, o, now)) <==> o.requestId !in e.cache
  {
    if o.requestId !in e.cache {
      CreateEngine(e, a, o, now);
    } else {
      var v := Create(e, a, o, now);
      assert a in v.tasks && v.tasks[a].requestId == o.requestId && v.cache[o.requestId] != a;
    }
  }

  /** After a pending task at the head of the queue is completed, the next
      dispatch writes to freed memory. */
  lemma FinishingPendingDangles(l: Ledger, id: string, outcome: Outcome, now: int)
    requires Inv(l) && id in l.e.cache && l.e.pending != [] && l.e.cache[id] == l.e.pending[0]
    ensures Safe(l.e, FinishTask(id, outcome)) && !Legal(l.e, FinishTask(id, outcome))
    ensures !Safe(Step(l, FinishTask(id, outcome), now).e, NextTask)
  {
  }

  // Tasks the pending queue refused

  /** While nobody completes or fails it, a refused task stays as it is: pending
      for ever, in no queue, never handed out. */
  lemma {:induction false} RefusedIsStranded(l: Ledger, calls: seq<Call>, a: Addr)
    requires Inv(l) && a in l.lostPending && a in l.e.tasks
    requires LegalRun(l, calls) && Spared(calls, l.e.tasks[a].requestId)
    ensures SafeRun(l, calls)
    ensures var r := Run(l, calls);
            && a in r.lostPending && a in r.e.tasks && r.e.tasks[a] == l.e.tasks[a] && r.e.tasks[a].status == PENDING
            && NotHandedOut(l.dispatched, r.dispatched, a)
    decreases |calls|
  {
    LostIsPending(l, a);
    hide Inv, Step, NotHandedOut;
    if calls == [] {
      NoneHandedOut(l.dispatched, a);
    } else {
      assert calls[0] in calls && forall d :: d in calls[1..] ==> d in calls;
      StrandedStep(l, calls[0], a);
      var next := Step(l, calls[0].op, calls[0].now);
      RefusedIsStranded(next, calls[1..], a);
      NoneHandedOutSince(l.dispatched, next.dispatched, Run(next, calls[1..]).dispatched, a);
    }
  }

  /** The log of dispatches grew, and not by this task. */
  ghost predicate NotHandedOut(before: seq<Ticket>, after: seq<Ticket>, a: Addr) {
    before <= after && forall t :: t in after[|before|..] ==> t.a != a
  }

  lemma NoneHandedOut(log: seq<Ticket>, a: Addr)
    ensures NotHandedOut(log, log, a)
  {
  }

  lemma NoneHandedOutSince(x: seq<Ticket>, y: seq<Ticket>, z: seq<Ticket>, a: Addr)
    requires NotHandedOut(x, y, a) && NotHandedOut(y, z, a)
    ensures NotHandedOut(x, z, a)
  {
    assert z[|x|..] == y[|x|..] + z[|y|..];
  }

  lemma LostIsPending(l: Ledger, a: Addr)
    requires Inv(l) && a in l.lostPending && a in l.e.tasks
    ensures l.e.tasks[a].status == PENDING && a !in l.e.pending
    ensures l.e.tasks[a].requestId in l.e.cache && l.e.cache[l.e.tasks[a].requestId] == a
  {
    assert TaskInv(l, a);
  }

  lemma StrandedStep(l: Ledger, c: Call, a: Addr)
    requires Inv(l) && a in l.lostPending && a in l.e.tasks && Legal(l.e, c.op) && l.clock <= c.now
    requires c.op.FinishTask? ==> c.op.id != l.e.tasks[a].requestId
    ensures Safe(l.e, c.op)
    ensures var next := Step(l, c.op, c.now);
            && Inv(next) && a in next.lostPending && a in next.e.tasks && next.e.tasks[a] == l.e.tasks[a]
            && NotHandedOut(l.dispatched, next.dispatched, a)
  {
    LegalIsSafe(l, c.op);
    StepKeepsInv(l, c.op, c.now);
    LostIsPending(l, a);
    StrandedEffect(l, c, a);
    hide *;
  }

  lemma StrandedEffect(l: Ledger, c: Call, a: Addr)
    requires EngineInv(l.e) && Legal(l.e, c.op) && Safe(l.e, c.op)
    requires a in l.lostPending && a in l.e.tasks && a !in l.e.pending
    requires l.e.tasks[a].requestId in l.e.cache && l.e.cache[l.e.tasks[a].requestId] == a
    requires c.op.FinishTask? ==> c.op.id != l.e.tasks[a].requestId
    ensures var next := Step(l, c.op, c.now);
            && a in next.lostPending && a in next.e.tasks && next.e.tasks[a] == l.e.tasks[a]
            && NotHandedOut(l.dispatched, next.dispatched, a)
  {
    match c.op
    case CreateTask(_, _) =>
    case NextTask =>
    case FinishTask(id, outcome) =>
      if id in l.e.cache {
        assert l.e.cache[id] != a;
        FinishEngine(l.e, id, outcome, c.now);
        hide EngineInv, Finish;
      }
  }

  function NextCalls(n: nat, now: int): seq<Call> {
    if n == 0 then [] else [Call(NextTask, now)] + NextCalls(n - 1, now)
  }

  /** Asking for as many tasks as are pending hands out every accepted one. */
  lemma {:induction false} DrainAll(l: Ledger, now: int)
    requires Inv(l) && l.clock <= now
    ensures var calls := NextCalls(|l.e.pending|, now);
            && LegalRun(l, calls) && SafeRun(l, calls)
            && Run(l, calls).dispatched == l.accepted && forall c :: c in calls ==> c.op.NextTask?
    decreases |l.e.pending|
  {
    hide Inv, Step;
    if l.e.pending == [] {
      NothingPending(l);
    } else {
      NextShrinks(l, now);
      var calls, next := NextCalls(|l.e.pending|, now), Step(l, NextTask, now);
      DrainAll(next, now);
      assert calls == [Call(NextTask, now)] + NextCalls(|next.e.pending|, now);
      assert calls[1..] == NextCalls(|next.e.pending|, now);
    }
  }

  lemma NothingPending(l: Ledger)
    requires Inv(l) && l.e.pending == []
    ensures l.dispatched == l.accepted
  {
    hide EngineInv, PlaceInv, InCreationOrder, SortedByAssign, AllRetired;
    assert Tickets(l.e.tasks, l.e.pending) == [];
  }

  lemma NextShrinks(l: Ledger, now: int)
    requires Inv(l) && l.clock <= now && l.e.pending != []
    ensures Safe(l.e, NextTask)
    ensures var next := Step(l, NextTask, now);
            Inv(next) && next.clock == now && next.accepted == l.accepted && |next.e.pending| == |l.e.pending| - 1
  {
    hide Inv;
    LegalIsSafe(l, NextTask);
    StepKeepsInv(l, NextTask, now);
  }

  ghost predicate HandedOut(before: seq<Ticket>, after: seq<Ticket>, a: Addr) {
    before <= after && exists t :: t in after[|before|..] && t.a == a
  }

  /** Some calls that follow the protocol, and do not finish the task before,
      hand it out. */
  ghost predicate CanBeDispatched(l: Ledger, a: Addr, id: string) {
    exists calls :: LegalRun(l, calls) && Spared(calls, id) && SafeRun(l, calls)
      && HandedOut(l.dispatched, Run(l, calls).dispatched, a)
  }

  /** The task at the end of the pending queue is handed out once the queue is drained. */
  lemma LastIsDispatchable(l: Ledger, a: Addr, id: string)
    requires Inv(l) && l.e.pending != [] && l.e.pending[|l.e.pending| - 1] == a
    ensures CanBeDispatched(l, a, id)
  {
    hide Inv, Run, SafeRun, LegalRun;
    var calls := NextCalls(|l.e.pending|, l.clock);
    DrainAll(l, l.clock);
    LastIsAccepted(l, a);
    assert HandedOut(l.dispatched, Run(l, calls).dispatched, a);
  }

  lemma LastIsAccepted(l: Ledger, a: Addr)
    requires Inv(l) && l.e.pending != [] && l.e.pending[|l.e.pending| - 1] == a
    ensures HandedOut(l.dispatched, l.accepted, a)
  {
    hide EngineInv, PlaceInv, SortedByAssign, AllRetired, InCreationOrder;
    var tickets := Tickets(l.e.tasks, l.e.pending);
    assert tickets[|l.e.pending| - 1].a == a && l.accepted[|l.dispatched|..] == tickets;
    assert tickets[|l.e.pending| - 1] in tickets;
  }

  lemma RefusedIsNotDispatchable(l: Ledger, a: Addr, id: string)
    requires Inv(l) && a in l.lostPending && a in l.e.tasks && l.e.tasks[a].requestId == id
    ensures !CanBeDispatched(l, a, id)
  {
    hide Inv, Step;
    forall calls | LegalRun(l, calls) && Spared(calls, id)
      ensures SafeRun(l, calls) && !HandedOut(l.dispatched, Run(l, calls).dispatched, a)
    {
      RefusedIsStranded(l, calls, a);
    }
  }

  /** A created task is returned and cached in any case, but it can ever be handed
      out if and only if the pending queue had room for it. */
  lemma DispatchableIff(l: Ledger, o: Order, a: Addr, now: int)
    requires Inv(l) && !Full(l.e) && Legal(l.e, CreateTask(o, a)) && l.clock <= now
    ensures var v := Step(l, CreateTask(o, a), now);
            && a in v.e.tasks && o.requestId in v.e.cache && v.e.cache[o.requestId] == a
            && (CanBeDispatched(v, a, o.requestId) <==> |l.e.pending| < 64)
  {
    hide Inv, CanBeDispatched;
    var v := Step(l, CreateTask(o, a), now);
    StepKeepsInv(l, CreateTask(o, a), now);
    if |l.e.pending| < MAX_PENDING_QUEUE {
      LastIsDispatchable(v, a, o.requestId);
    } else {
      RefusedIsNotDispatchable(v, a, o.requestId);
    }
  }
}
