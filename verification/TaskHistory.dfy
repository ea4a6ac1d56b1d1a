/** What the interleaved calls write into the tasks. A history kept beside a run,
    from the moves alone, says what was asked for each task; in every world of the
    run every live task carries exactly that. */
module TaskHistory {
  import opened Common
  import opened Tasks
  import opened TaskInvariants
  import opened TaskProtocol

  /** What happened to the task at an address since it was created: the order, the
      clock readings of the writes, whether the processing queue took it, and what
      the call that finishes it was asked to report. */
  datatype Record = Record(
    order: Order, created: int, started: Option<int>, listed: Option<bool>, asked: Option<Outcome>, ended: Option<int>)

  type History = map<Addr, Record>

  /** The history after a move; the world only says whose turn it is, which task
      the thread is at and how full the table and the queues are. */
  function Note(h: History, w: World, t: Tid, m: Move): History
    requires Possible(w, t, m)
  {
    var pc := w.threads[t].pc;
    match m
    case BeginCreate(o, a, now) => if |w.e.cache| >= 128 then h else h[a := Record(o, now, None, None, None, None)]
    case WriteAssigned(now) => if pc.a in h then h[pc.a := h[pc.a].(started := Some(now))] else h
    case EnqueueAssigned => if pc.a in h then h[pc.a := h[pc.a].(listed := Some(|w.e.processing| < 32))] else h
    case BeginFinish(id, outcome) =>
      if id in w.e.cache && w.e.cache[id] in h then h[w.e.cache[id] := h[w.e.cache[id]].(asked := Some(outcome))] else h
    case WriteClosed(now) => if pc.a in h then h[pc.a := h[pc.a].(ended := Some(now))] else h
    case _ => h
  }

  // What a task says

  /** The task carries its order, the clock readings of the writes, and the outcome
      once it is written. */
  predicate Tells(x: Task, r: Record) {
    && x.requestId == r.order.requestId && x.clientSocket == r.order.clientSocket
    && x.request == r.order.request && x.priority == r.order.priority
    && x.createTime == r.created
    && x.assignTime == (if r.started.Some? then r.started.value else 0)
    && x.completeTime == (if r.ended.Some? then r.ended.value else 0)
    && (if r.ended.Some? && r.asked.Some? then
          match r.asked.value
          case Result(data) => x.status == COMPLETED && x.responseData == data && x.errorMsg == ""
          case Error(message) => x.status == FAILED && x.errorMsg == message && x.responseData == ""
        else
          && x.status == (if r.started.Some? then PROCESSING else PENDING)
          && x.responseData == "" && x.errorMsg == "")
  }

  predicate Untouched(r: Record) {
    r.started.None? && r.listed.None? && r.asked.None? && r.ended.None?
  }

  predicate Dispatched(r: Record) {
    r.started.Some? && r.listed.Some? && r.asked.None? && r.ended.None?
  }

  /** How far the task is that a thread is at. */
  predicate PcStage(pc: Pc, r: Record, inProcessing: bool) {
    match pc
    case Idle => true
    case Inserted(_) => Untouched(r)
    case Popped(_) => Untouched(r)
    case Assigned(_) => r.started.Some? && r.listed.None? && r.asked.None? && r.ended.None?
    case Found(_, _, outcome) => r.asked == Some(outcome) && r.ended.None? && (inProcessing <==> r.listed == Some(true))
    case Written(_, _) => r.asked.Some? && r.ended.Some? && (inProcessing <==> r.listed == Some(true))
    case Unlinked(_, _) => r.asked.Some? && r.ended.Some?
  }

  ghost predicate ThreadStage(th: Thread, h: History, processing: seq<Addr>) {
    && (!th.pc.Idle? ==> th.pc.a in h && PcStage(th.pc, h[th.pc.a], th.pc.a in processing))
    && (forall a :: a in th.received ==> a in h && Dispatched(h[a]) && (a in processing <==> h[a].listed == Some(true)))
  }

  ghost predicate HistoryInv(w: World, h: History) {
    && (forall a :: a in w.e.tasks ==> a in h && Tells(w.e.tasks[a], h[a]))
    && (forall t :: t in w.threads ==> ThreadStage(w.threads[t], h, w.e.processing))
    && (forall a :: a in w.e.pending || a in w.overflowed ==> a in h && Untouched(h[a]))
  }

  // Moves concern one task

  /** The task a move is about. */
  function Subject(w: World, t: Tid, m: Move): Addr
    requires Possible(w, t, m)
  {
    match m
    case BeginCreate(_, a, _) => a
    case BeginNext => if w.e.pending == [] then 0 else w.e.pending[0]
    case BeginFinish(id, _) => if id in w.e.cache then w.e.cache[id] else 0
    case _ => w.threads[t].pc.a
  }

  /** The move changes nothing. */
  predicate Idles(w: World, m: Move) {
    || (m.BeginCreate? && |w.e.cache| >= 128)
    || (m.BeginNext? && w.e.pending == [])
    || (m.BeginFinish? && m.id !in w.e.cache)
  }

  lemma MoveIsLocal(w: World, t: Tid, m: Move)
    requires Inv(w) && Enabled(w, t, m) && Safe(w, t, m) && !Idles(w, m)
    ensures Local(w, Apply(w, t, m), t, Subject(w, t, m))
  {
    match m
    case BeginCreate(o, a, now) => BeginCreateIsLocal(w, t, o, a, now);
    case EnqueueNew => EnqueueNewIsLocal(w, t);
    case BeginNext => BeginNextIsLocal(w, t);
    case EnqueueAssigned => EnqueueAssignedIsLocal(w, t);
    case UnlinkDone => UnlinkDoneIsLocal(w, t);
    case EraseDone => EraseIsLocal(w, t);
    case _ => WriteIsLocal(w, t, m);
  }

  lemma EraseIsLocal(w: World, t: Tid)
    requires Inv(w) && Enabled(w, t, EraseDone) && Safe(w, t, EraseDone)
    ensures Local(w, Apply(w, t, EraseDone), t, w.threads[t].pc.a)
  {
    hide Inv, EngineInv;
    InvFacts(w, t);
  }

  lemma WriteIsLocal(w: World, t: Tid, m: Move)
    requires Inv(w) && Enabled(w, t, m) && Safe(w, t, m) && !Idles(w, m)
    requires m.WriteAssigned? || m.BeginFinish? || m.WriteClosed?
    ensures Local(w, Apply(w, t, m), t, Subject(w, t, m))
  {
    hide Inv, EngineInv;
    InvFacts(w, t);
  }

  /** What is not about the task of the move stays true. */
  lemma OthersStay(w: World, h: History, v: World, g: History, t: Tid, d: Addr)
    requires Inv(w) && HistoryInv(w, h) && Local(w, v, t, d)
    requires forall a :: a != d ==> (a in g <==> a in h) && (a in h ==> g[a] == h[a])
    requires forall a :: a != d && a in v.e.tasks ==> v.e.tasks[a] == w.e.tasks[a]
    requires d in v.e.tasks ==> d in g && Tells(v.e.tasks[d], g[d])
    requires d in v.e.pending || d in v.overflowed ==> d in g && Untouched(g[d])
    requires ThreadStage(v.threads[t], g, v.e.processing)
    ensures HistoryInv(v, g)
  {
    hide Inv, Tells, Untouched, Local, ThreadStage;
    LocalFacts(w, v, t, d);
    forall u | u in v.threads ensures ThreadStage(v.threads[u], g, v.e.processing) {
      if u != t {
        OtherStage(w.threads[u], h, w.e.processing, g, v.e.processing, d);
      }
    }
  }

  lemma LocalFacts(w: World, v: World, t: Tid, d: Addr)
    requires Local(w, v, t, d)
    ensures v.threads.Keys == w.threads.Keys
    ensures forall u :: u in w.threads && u != t ==> v.threads[u] == w.threads[u] && d !in Claims(w.threads[u])
    ensures forall a :: a != d ==>
              && (a in v.e.tasks <==> a in w.e.tasks) && (a in v.e.pending <==> a in w.e.pending)
              && (a in v.e.processing <==> a in w.e.processing) && (a in v.overflowed <==> a in w.overflowed)
  {
  }

  lemma OtherStage(th: Thread, h: History, before: seq<Addr>, g: History, after: seq<Addr>, d: Addr)
    requires ThreadStage(th, h, before) && d !in Claims(th)
    requires forall a :: a != d ==> (a in g <==> a in h) && (a in h ==> g[a] == h[a]) && (a in after <==> a in before)
    ensures ThreadStage(th, g, after)
  {
    hide Dispatched, PcStage;
    assert !th.pc.Idle? ==> th.pc.a in Claims(th);
  }

  /** What the history says about thread t and the task it is at. */
  lemma StageFacts(w: World, h: History, t: Tid)
    requires Inv(w) && HistoryInv(w, h) && t in w.threads
    ensures ThreadStage(w.threads[t], h, w.e.processing) && Busy(w.threads[t]) !! w.threads[t].received
    ensures forall a :: a in Claims(w.threads[t]) ==> a !in w.e.pending && a !in w.overflowed
    ensures OffQueue(w.threads[t].pc) ==> w.threads[t].pc.a !in w.e.processing
    ensures !w.threads[t].pc.Idle? ==> TaskFacts(w, h, w.threads[t].pc.a)
  {
    assert ClaimInv(w, t);
  }

  predicate TaskFacts(w: World, h: History, a: Addr) {
    a in w.e.tasks && a in h && Tells(w.e.tasks[a], h[a])
  }

  // What each write makes the task say

  lemma NewTells(o: Order, now: int)
    ensures Tells(NewTask(o, now), Record(o, now, None, None, None, None))
  {
  }

  lemma AssignedTells(x: Task, r: Record, now: int)
    requires Tells(x, r) && Untouched(r)
    ensures Tells(x.(status := PROCESSING, assignTime := now), r.(started := Some(now)))
  {
  }

  lemma AskedTells(x: Task, r: Record, outcome: Outcome)
    requires Tells(x, r) && r.ended.None?
    ensures Tells(x, r.(asked := Some(outcome)))
  {
  }

  lemma ClosedTells(x: Task, r: Record, now: int)
    requires Tells(x, r) && r.ended.None? && r.asked.Some?
    ensures Tells(Closed(x, r.asked.value, now), r.(ended := Some(now)))
  {
  }

  lemma ListedTells(x: Task, r: Record, b: bool)
    requires Tells(x, r)
    ensures Tells(x, r.(listed := Some(b)))
  {
  }

  // Every move keeps the history true

  lemma CreateNoted(w: World, h: History, t: Tid, m: Move)
    requires Inv(w) && HistoryInv(w, h) && Enabled(w, t, m) && m.BeginCreate? && |w.e.cache| < 128
    ensures HistoryInv(Apply(w, t, m), Note(h, w, t, m))
  {
    hide Inv, HistoryInv, Local, Tells, NewTask, Dispatched;
    MoveIsLocal(w, t, m);
    UnusedAddress(w, m.a);
    StageFacts(w, h, t);
    NewTells(m.o, m.now);
    assert m.a !in Claims(w.threads[t]);
    OthersStay(w, h, Apply(w, t, m), Note(h, w, t, m), t, m.a);
  }

  lemma EnqueueNewNoted(w: World, h: History, t: Tid)
    requires Inv(w) && HistoryInv(w, h) && Enabled(w, t, EnqueueNew)
    ensures HistoryInv(Apply(w, t, EnqueueNew), h)
  {
    hide Inv, HistoryInv, Local, Tells, Dispatched, Untouched;
    MoveIsLocal(w, t, EnqueueNew);
    StageFacts(w, h, t);
    OthersStay(w, h, Apply(w, t, EnqueueNew), h, t, w.threads[t].pc.a);
  }

  lemma EnqueueAssignedNoted(w: World, h: History, t: Tid)
    requires Inv(w) && HistoryInv(w, h) && Enabled(w, t, EnqueueAssigned)
    ensures HistoryInv(Apply(w, t, EnqueueAssigned), Note(h, w, t, EnqueueAssigned))
  {
    hide Inv, HistoryInv, Local, Tells;
    var a := w.threads[t].pc.a;
    MoveIsLocal(w, t, EnqueueAssigned);
    StageFacts(w, h, t);
    ListedTells(w.e.tasks[a], h[a], |w.e.processing| < 32);
    OthersStay(w, h, Apply(w, t, EnqueueAssigned), Note(h, w, t, EnqueueAssigned), t, a);
  }

  lemma NextNoted(w: World, h: History, t: Tid)
    requires Inv(w) && HistoryInv(w, h) && Enabled(w, t, BeginNext) && w.e.pending != []
    ensures HistoryInv(Apply(w, t, BeginNext), h)
  {
    hide Inv, HistoryInv, Local, Tells, Untouched, Dispatched, Dequeue;
    MoveIsLocal(w, t, BeginNext);
    StageFacts(w, h, t);
    HeadIsUnclaimed(w);
    Popping(w);
    PendingFacts(w, h, w.e.pending[0]);
    OthersStay(w, h, Apply(w, t, BeginNext), h, t, w.e.pending[0]);
  }

  lemma PendingFacts(w: World, h: History, a: Addr)
    requires HistoryInv(w, h) && a in w.e.tasks
    ensures TaskFacts(w, h, a)
    ensures a in w.e.pending || a in w.overflowed ==> Untouched(h[a])
  {
  }

  lemma AssignNoted(w: World, h: History, t: Tid, now: int)
    requires Inv(w) && HistoryInv(w, h) && Enabled(w, t, WriteAssigned(now)) && Safe(w, t, WriteAssigned(now))
    ensures HistoryInv(Apply(w, t, WriteAssigned(now)), Note(h, w, t, WriteAssigned(now)))
  {
    hide Inv, HistoryInv, Local, Tells, Dispatched;
    var a := w.threads[t].pc.a;
    MoveIsLocal(w, t, WriteAssigned(now));
    StageFacts(w, h, t);
    AssignedTells(w.e.tasks[a], h[a], now);
    OthersStay(w, h, Apply(w, t, WriteAssigned(now)), Note(h, w, t, WriteAssigned(now)), t, a);
  }

  lemma CloseNoted(w: World, h: History, t: Tid, now: int)
    requires Inv(w) && HistoryInv(w, h) && Enabled(w, t, WriteClosed(now)) && Safe(w, t, WriteClosed(now))
    ensures HistoryInv(Apply(w, t, WriteClosed(now)), Note(h, w, t, WriteClosed(now)))
  {
    hide Inv, HistoryInv, Local, Tells, Dispatched, Closed;
    var a := w.threads[t].pc.a;
    MoveIsLocal(w, t, WriteClosed(now));
    StageFacts(w, h, t);
    ClosedTells(w.e.tasks[a], h[a], now);
    OthersStay(w, h, Apply(w, t, WriteClosed(now)), Note(h, w, t, WriteClosed(now)), t, a);
  }

  lemma FinishNoted(w: World, h: History, t: Tid, m: Move)
    requires Inv(w) && HistoryInv(w, h) && Enabled(w, t, m) && m.BeginFinish? && m.id in w.e.cache
    ensures HistoryInv(Apply(w, t, m), Note(h, w, t, m))
  {
    hide Inv, HistoryInv, Local, Tells;
    var a := w.e.cache[m.id];
    MoveIsLocal(w, t, m);
    StageFacts(w, h, t);
    FinishableFacts(w, h, t, m.id);
    AskedTells(w.e.tasks[a], h[a], m.outcome);
    OthersStay(w, h, Apply(w, t, m), Note(h, w, t, m), t, a);
  }

  /** A task that may be finished was received, or refused by the pending queue. */
  lemma FinishableFacts(w: World, h: History, t: Tid, id: string)
    requires Inv(w) && HistoryInv(w, h) && t in w.threads && id in w.e.cache
    requires w.e.cache[id] in w.threads[t].received + w.overflowed
    ensures var a := w.e.cache[id];
            && TaskFacts(w, h, a) && h[a].ended.None? && a !in w.e.pending
            && (a in w.e.processing <==> h[a].listed == Some(true))
  {
    hide EngineInv;
    InvFacts(w, t);
    PendingFacts(w, h, w.e.cache[id]);
  }

  lemma RetireNoted(w: World, h: History, t: Tid, m: Move)
    requires Inv(w) && HistoryInv(w, h) && Enabled(w, t, m) && Safe(w, t, m) && (m.UnlinkDone? || m.EraseDone?)
    ensures HistoryInv(Apply(w, t, m), h)
  {
    hide Inv, HistoryInv, Local, Tells, Dispatched, Untouched;
    MoveIsLocal(w, t, m);
    StageFacts(w, h, t);
    OthersStay(w, h, Apply(w, t, m), h, t, w.threads[t].pc.a);
  }

  lemma MoveIsNoted(w: World, h: History, t: Tid, m: Move)
    requires Inv(w) && HistoryInv(w, h) && Enabled(w, t, m) && Safe(w, t, m)
    ensures HistoryInv(Apply(w, t, m), Note(h, w, t, m))
  {
    hide Inv, HistoryInv;
    if !Idles(w, m) {
      match m
      case BeginCreate(_, _, _) => CreateNoted(w, h, t, m);
      case EnqueueNew => EnqueueNewNoted(w, h, t);
      case EnqueueAssigned => EnqueueAssignedNoted(w, h, t);
      case BeginNext => NextNoted(w, h, t);
      case BeginFinish(_, _) => FinishNoted(w, h, t, m);
      case WriteAssigned(now) => AssignNoted(w, h, t, now);
      case WriteClosed(now) => CloseNoted(w, h, t, now);
      case _ => RetireNoted(w, h, t, m);
    }
  }

  // Whole runs, with the moves that make them

  ghost predicate Made(w: World, t: Tid, m: Move, v: World) {
    Enabled(w, t, m) && Safe(w, t, m) && v == Apply(w, t, m)
  }

  ghost predicate Labelled(trace: seq<World>, moves: seq<(Tid, Move)>) {
    && |trace| == |moves| + 1 && Init(trace[0])
    && forall i :: 0 <= i < |moves| ==> Made(trace[i], moves[i].0, moves[i].1, trace[i + 1])
  }

  /** Every run of the protocol is made of moves. */
  lemma {:induction false} RunsAreLabelled(trace: seq<World>) returns (moves: seq<(Tid, Move)>)
    requires Run(trace)
    ensures Labelled(trace, moves)
    decreases |trace|
  {
    hide Apply, Init, Inv;
    var n := |trace| - 1;
    if n == 0 {
      moves := [];
    } else {
      var before := trace[..n];
      assert Run(before) by {
        forall i | 0 <= i < n - 1 ensures Step(before[i], before[i + 1]) {
          assert Step(trace[i], trace[i + 1]);
        }
      }
      moves := RunsAreLabelled(before);
      var w := trace[n - 1];
      assert Step(trace[n - 1], trace[n - 1 + 1]);
      var t: Tid, m: Move :| Enabled(w, t, m) && (Safe(w, t, m) ==> trace[n] == Apply(w, t, m));
      InvHoldsThroughout(trace, n - 1);
      MovesAreSafe(w, t, m);
      moves := moves + [(t, m)];
      forall i | 0 <= i < n ensures Made(trace[i], moves[i].0, moves[i].1, trace[i + 1]) {
        if i < n - 1 {
          assert Made(before[i], moves[..n - 1][i].0, moves[..n - 1][i].1, before[i + 1]);
        }
      }
    }
  }

  lemma LabelledIsRun(trace: seq<World>, moves: seq<(Tid, Move)>)
    requires Labelled(trace, moves)
    ensures Run(trace)
  {
    forall i | 0 <= i < |trace| - 1 ensures Step(trace[i], trace[i + 1]) {
      assert Made(trace[i], moves[i].0, moves[i].1, trace[i + 1]);
    }
  }

  /** The history at world i of the run. */
  ghost function HistoryAt(trace: seq<World>, moves: seq<(Tid, Move)>, i: nat): History
    requires Labelled(trace, moves) && i <= |moves|
  {
    if i == 0 then map[]
    else
      assert Made(trace[i - 1], moves[i - 1].0, moves[i - 1].1, trace[i - 1 + 1]);
      Note(HistoryAt(trace, moves, i - 1), trace[i - 1], moves[i - 1].0, moves[i - 1].1)
  }

  /** In every world of every run of any number of threads: every live task carries
      its order, the clock readings the calls wrote and the outcome they were asked
      to report, and is as far as its thread; what is in the processing queue is
      what the queue took and no call unlinked. */
  lemma {:induction false} HistoryIsTrue(trace: seq<World>, moves: seq<(Tid, Move)>, i: nat)
    requires Labelled(trace, moves) && i <= |moves|
    ensures HistoryInv(trace[i], HistoryAt(trace, moves, i))
    decreases i
  {
    hide Inv, Apply, Note;
    if i == 0 {
      StartIsTrue(trace[0]);
    } else {
      HistoryIsTrue(trace, moves, i - 1);
      LabelledIsRun(trace, moves);
      InvHoldsThroughout(trace, i - 1);
      assert Made(trace[i - 1], moves[i - 1].0, moves[i - 1].1, trace[i - 1 + 1]);
      MoveIsNoted(trace[i - 1], HistoryAt(trace, moves, i - 1), moves[i - 1].0, moves[i - 1].1);
    }
  }

  lemma StartIsTrue(w: World)
    requires Init(w)
    ensures HistoryInv(w, map[])
  {
  }

  /** The statuses alone, in every world of every run: pending until written by the
      call that pops the task, processing from then on, completed or failed only
      between the last writes to it and its deletion. */
  lemma StatusesInRuns(trace: seq<World>, i: nat)
    requires Run(trace) && i < |trace|
    ensures var e := trace[i].e; forall a :: a in e.pending || a in trace[i].overflowed ==>
              a in e.tasks && e.tasks[a].status == PENDING && e.tasks[a].assignTime == 0
    ensures forall t :: t in trace[i].threads ==> StatusOf(trace[i].threads[t], trace[i].e.tasks)
  {
    hide Inv, Init;
    var moves := RunsAreLabelled(trace);
    var w, h := trace[i], HistoryAt(trace, moves, i);
    HistoryIsTrue(trace, moves, i);
    InvHoldsThroughout(trace, i);
    forall t | t in w.threads ensures StatusOf(w.threads[t], w.e.tasks) {
      StageFacts(w, h, t);
      ReceivedFacts(w, h, t);
    }
    forall a | a in w.e.pending || a in w.overflowed
      ensures a in w.e.tasks && w.e.tasks[a].status == PENDING && w.e.tasks[a].assignTime == 0
    {
      QueuedAreLive(w, a);
      PendingFacts(w, h, a);
    }
  }

  lemma QueuedAreLive(w: World, a: Addr)
    requires Inv(w) && (a in w.e.pending || a in w.overflowed)
    ensures a in w.e.tasks
  {
  }

  lemma ReceivedFacts(w: World, h: History, t: Tid)
    requires Inv(w) && HistoryInv(w, h) && t in w.threads
    ensures forall a :: a in w.threads[t].received ==> TaskFacts(w, h, a) && Dispatched(h[a])
  {
    assert ClaimInv(w, t);
  }

  predicate StatusOf(th: Thread, tasks: map<Addr, Task>) {
    && (forall a :: a in th.received ==> a in tasks && tasks[a].status == PROCESSING)
    && (th.pc.Idle? || (th.pc.a in tasks &&
          var s := tasks[th.pc.a].status;
          match th.pc
          case Idle => true
          case Inserted(_) => s == PENDING
          case Popped(_) => s == PENDING
          case Assigned(_) => s == PROCESSING
          case Found(_, _, _) => s == PENDING || s == PROCESSING
          case Written(_, _) => s == COMPLETED || s == FAILED
          case Unlinked(_, _) => s == COMPLETED || s == FAILED))
  }

  // First in, first out, read off the moves

  /** The tasks that `createTask` calls put into the pending queue, in order. */
  ghost function Queued(trace: seq<World>, moves: seq<(Tid, Move)>, i: nat): seq<Addr>
    requires Labelled(trace, moves) && i <= |moves|
  {
    if i == 0 then []
    else
      assert Made(trace[i - 1], moves[i - 1].0, moves[i - 1].1, trace[i - 1 + 1]);
      Queued(trace, moves, i - 1) + QueuedBy(trace[i - 1], moves[i - 1].0, moves[i - 1].1)
  }

  function QueuedBy(w: World, t: Tid, m: Move): seq<Addr>
    requires Possible(w, t, m)
  {
    if m.EnqueueNew? && |w.e.pending| < 64 then [w.threads[t].pc.a] else []
  }

  /** The tasks that calls of `getNextPendingTask` went on with, in order. */
  ghost function TakenOut(trace: seq<World>, moves: seq<(Tid, Move)>, i: nat): seq<Addr>
    requires Labelled(trace, moves) && i <= |moves|
  {
    if i == 0 then []
    else TakenOut(trace, moves, i - 1) + TakenBy(moves[i - 1].0, moves[i - 1].1, trace[i])
  }

  /** After a pop the thread is at the task it popped. */
  function TakenBy(t: Tid, m: Move, after: World): seq<Addr> {
    if m.BeginNext? && t in after.threads && after.threads[t].pc.Popped? then [after.threads[t].pc.a] else []
  }

  lemma {:induction false} FirstInFirstOut(trace: seq<World>, moves: seq<(Tid, Move)>, i: nat)
    requires Labelled(trace, moves) && i <= |moves|
    ensures Queued(trace, moves, i) == TakenOut(trace, moves, i) + trace[i].e.pending
    decreases i
  {
    hide Apply, Possible, Follows, Safe, QueuedBy, TakenBy;
    if i > 0 {
      FirstInFirstOut(trace, moves, i - 1);
      var w, t, m := trace[i - 1], moves[i - 1].0, moves[i - 1].1;
      assert Made(trace[i - 1], moves[i - 1].0, moves[i - 1].1, trace[i - 1 + 1]);
      OneInOneOut(w, t, m);
      Shift(TakenOut(trace, moves, i - 1), w.e.pending, QueuedBy(w, t, m), TakenBy(t, m, trace[i]), trace[i].e.pending);
    }
  }

  lemma Shift(before: seq<Addr>, pending: seq<Addr>, put: seq<Addr>, taken: seq<Addr>, left: seq<Addr>)
    requires pending + put == taken + left
    ensures before + pending + put == before + taken + left
  {
    Regroup(before, pending, put);
    Regroup(before, taken, left);
  }

  lemma OneInOneOut(w: World, t: Tid, m: Move)
    requires Enabled(w, t, m) && Safe(w, t, m)
    ensures w.e.pending + QueuedBy(w, t, m) == TakenBy(t, m, Apply(w, t, m)) + Apply(w, t, m).e.pending
  {
  }
}
