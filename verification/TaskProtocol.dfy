/** Any number of threads calling the task manager at once. Each call is a
    sequence of separately locked sections and unlocked field writes; a step of
    the model is one of those, by one thread. */
module TaskProtocol {
  import opened Common
  import opened Tasks
  import opened TaskInvariants

  type Addr = nat  // addresses are reused after a delete
  type Tid = nat

  /** Where a thread stands inside a call. */
  datatype Pc =
    | Idle
    | Inserted(a: Addr)                         // createTask: in the cache, not yet enqueued
    | Popped(a: Addr)                           // getNextPendingTask: popped, fields not yet written
    | Assigned(a: Addr)                         // getNextPendingTask: written, not yet in the processing queue
    | Found(id: string, a: Addr, outcome: Outcome)  // complete/fail: looked up, fields not yet written
    | Written(id: string, a: Addr)              // complete/fail: written, not yet unlinked
    | Unlinked(id: string, a: Addr)             // complete/fail: unlinked, not yet erased

  /** `received` are the tasks `getNextPendingTask` returned to the thread and
      that it has not begun to complete or fail. */
  datatype Thread = Thread(pc: Pc, received: set<Addr>)

  /** `overflowed` are the live tasks whose pending enqueue was refused;
      `accepted` and `dispatched` log every enqueue and every pop. */
  datatype World = World(
    e: Engine<Addr>, threads: map<Tid, Thread>,
    overflowed: set<Addr>, accepted: seq<Addr>, dispatched: seq<Addr>)

  datatype Move =
    | BeginCreate(o: Order, a: Addr, now: int)
    | EnqueueNew
    | BeginNext
    | WriteAssigned(now: int)
    | EnqueueAssigned
    | BeginFinish(id: string, outcome: Outcome)
    | WriteClosed(now: int)
    | UnlinkDone
    | EraseDone

  /** Which move the code of a thread can make next; `new` returns an address not
      in use. */
  predicate Possible(w: World, t: Tid, m: Move) {
    t in w.threads &&
    var pc := w.threads[t].pc;
    match m
    case BeginCreate(_, a, _) => pc.Idle? && a !in w.e.tasks
    case EnqueueNew => pc.Inserted?
    case BeginNext => pc.Idle?
    case WriteAssigned(_) => pc.Popped?
    case EnqueueAssigned => pc.Assigned?
    case BeginFinish(_, _) => pc.Idle?
    case WriteClosed(_) => pc.Found?
    case UnlinkDone => pc.Written?
    case EraseDone => pc.Unlinked?
  }

  /** The usage protocol: a created id is not live, and a task is completed or
      failed only by the thread that received it, or by anyone if the full pending
      queue refused it. */
  predicate Follows(w: World, t: Tid, m: Move)
    requires Possible(w, t, m)
  {
    match m
    case BeginCreate(o, _, _) => o.requestId !in w.e.cache
    case BeginFinish(id, _) => id in w.e.cache ==> w.e.cache[id] in w.threads[t].received + w.overflowed
    case _ => true
  }

  predicate Enabled(w: World, t: Tid, m: Move) {
    Possible(w, t, m) && Follows(w, t, m)
  }

  /** What the move dereferences or deletes is a live task. */
  predicate Safe(w: World, t: Tid, m: Move)
    requires Possible(w, t, m)
  {
    var th := w.threads[t];
    match m
    case WriteAssigned(_) => th.pc.a in w.e.tasks
    case WriteClosed(_) => th.pc.a in w.e.tasks
    case EraseDone => th.pc.id in w.e.cache ==> w.e.cache[th.pc.id] in w.e.tasks
    case _ => true
  }

  function SetThread(w: World, t: Tid, pc: Pc, received: set<Addr>): World {
    w.(threads := w.threads[t := Thread(pc, received)])
  }

  function Apply(w: World, t: Tid, m: Move): World
    requires Possible(w, t, m) && Safe(w, t, m)
  {
    var th := w.threads[t];
    var r := th.received;
    match m
    case BeginCreate(o, a, now) =>
      if Full(w.e) then w else SetThread(w.(e := Insert(w.e, a, o, now)), t, Inserted(a), r)
    case EnqueueNew =>
      var a := th.pc.a;
      var room := |w.e.pending| < MAX_PENDING_QUEUE;
      SetThread(w.(e := Enqueue(w.e, a),
                   accepted := if room then w.accepted + [a] else w.accepted,
                   overflowed := if room then w.overflowed else w.overflowed + {a}), t, Idle, r)
    case BeginNext =>
      if w.e.pending == [] then w
      else
        var a := w.e.pending[0];
        SetThread(w.(e := Dequeue(w.e), dispatched := w.dispatched + [a]), t, Popped(a), r)
    case WriteAssigned(now) => SetThread(w.(e := Assign(w.e, th.pc.a, now)), t, Assigned(th.pc.a), r)
    case EnqueueAssigned => SetThread(w.(e := EnqueueProcessing(w.e, th.pc.a)), t, Idle, r + {th.pc.a})
    case BeginFinish(id, outcome) =>
      if id !in w.e.cache then w
      else
        var a := w.e.cache[id];
        SetThread(w.(overflowed := w.overflowed - {a}), t, Found(id, a, outcome), r - {a})
    case WriteClosed(now) =>
      SetThread(w.(e := Close(w.e, th.pc.a, th.pc.outcome, now)), t, Written(th.pc.id, th.pc.a), r)
    case UnlinkDone => SetThread(w.(e := Unlink(w.e, th.pc.a)), t, Unlinked(th.pc.id, th.pc.a), r)
    case EraseDone => SetThread(w.(e := Erase(w.e, th.pc.id)), t, Idle, r)
  }

  // The invariant

  /** The task a thread is in the middle of handling. */
  function Busy(th: Thread): set<Addr> {
    if th.pc.Idle? then {} else {th.pc.a}
  }

  /** Everything a thread answers for. */
  function Claims(th: Thread): set<Addr> {
    Busy(th) + th.received
  }

  /** Between the pop and the processing enqueue, before the pending enqueue, and
      after the unlinking, the task is in no queue. */
  predicate OffQueue(pc: Pc) {
    pc.Inserted? || pc.Popped? || pc.Assigned? || pc.Unlinked?
  }

  predicate Finishing(pc: Pc) {
    pc.Found? || pc.Written? || pc.Unlinked?
  }

  /** What a thread claims is live, exclusively its own and not pending. */
  ghost predicate ClaimInv(w: World, t: Tid)
    requires t in w.threads
  {
    var th := w.threads[t];
    && (forall a :: a in Claims(th) ==> a in w.e.tasks && a !in w.e.pending && a !in w.overflowed)
    && Busy(th) !! th.received
    && (Finishing(th.pc) ==> th.pc.id in w.e.cache && w.e.cache[th.pc.id] == th.pc.a)
    && (OffQueue(th.pc) ==> th.pc.a !in w.e.processing)
    && (forall u :: u in w.threads && u != t ==> Claims(th) !! Claims(w.threads[u]))
  }

  ghost predicate Claimed(w: World, a: Addr) {
    exists t :: t in w.threads && a in Claims(w.threads[t])
  }

  /** Every live task is pending, claimed by a thread, or overflowed. */
  ghost predicate AccountInv(w: World) {
    && (forall a :: a in w.e.tasks ==> a in w.e.pending || a in w.overflowed || Claimed(w, a))
    && (forall a :: a in w.overflowed ==> a in w.e.tasks && a !in w.e.pending)
    && (forall a :: a in w.e.processing ==> Claimed(w, a))
  }

  ghost predicate Inv(w: World) {
    && EngineInv(w.e)
    && (forall t :: t in w.threads ==> ClaimInv(w, t))
    && AccountInv(w)
    && w.accepted == w.dispatched + w.e.pending
  }

  ghost predicate Init(w: World) {
    && w.e == Engine(map[], map[], [], [])
    && (forall t :: t in w.threads ==> w.threads[t] == Thread(Idle, {}))
    && w.overflowed == {} && w.accepted == [] && w.dispatched == []
  }

  // No move ever touches a deleted task

  lemma MovesAreSafe(w: World, t: Tid, m: Move)
    requires Inv(w) && Enabled(w, t, m)
    ensures Safe(w, t, m)
  {
    assert ClaimInv(w, t);
  }

  // Every move keeps the invariant

  /** The move of thread t from w to v concerns the address d only, which no
      other thread claims. */
  ghost predicate Local(w: World, v: World, t: Tid, d: Addr) {
    && t in w.threads && v.threads.Keys == w.threads.Keys
    && (forall u :: u in w.threads && u != t ==> v.threads[u] == w.threads[u] && d !in Claims(w.threads[u]))
    && (forall a :: a in Claims(w.threads[t]) && a != d <==> a in Claims(v.threads[t]) && a != d)
    && (forall a :: a != d ==>
          && (a in v.e.tasks <==> a in w.e.tasks)
          && (a in v.e.pending <==> a in w.e.pending)
          && (a in v.e.processing <==> a in w.e.processing)
          && (a in v.overflowed <==> a in w.overflowed))
    && (forall id :: id in w.e.cache && w.e.cache[id] != d ==> id in v.e.cache && v.e.cache[id] == w.e.cache[id])
  }

  lemma OtherThread(w: World, v: World, t: Tid, d: Addr, u: Tid)
    requires (forall x :: x in w.threads ==> ClaimInv(w, x)) && Local(w, v, t, d)
    requires u in w.threads && u != t
    ensures ClaimInv(v, u)
  {
    assert ClaimInv(w, u) && ClaimInv(w, t);
    var th := w.threads[u];
    assert !th.pc.Idle? ==> th.pc.a in Claims(th) && th.pc.a != d;
    forall x | x in v.threads && x != u ensures Claims(th) !! Claims(v.threads[x]) {
      assert Claims(th) !! Claims(w.threads[x]);
    }
  }

  /** Where the address of the move is afterwards. */
  ghost predicate Accounted(v: World, t: Tid, d: Addr)
    requires t in v.threads
  {
    && (d in v.e.tasks ==> d in v.e.pending || d in v.overflowed || d in Claims(v.threads[t]))
    && (d in v.overflowed ==> d in v.e.tasks && d !in v.e.pending)
    && (d in v.e.processing ==> d in Claims(v.threads[t]))
  }

  /** A local move leaves all other threads and the accounts of all other
      addresses as they were: what is left to show is about t and d. */
  lemma LocalKeeps(w: World, v: World, t: Tid, d: Addr)
    requires Inv(w) && Local(w, v, t, d)
    requires EngineInv(v.e)
    requires ClaimInv(v, t) && Accounted(v, t, d)
    requires v.accepted == v.dispatched + v.e.pending
    ensures Inv(v)
  {
    hide EngineInv;
    forall u | u in v.threads ensures ClaimInv(v, u) {
      if u != t { OtherThread(w, v, t, d, u); }
    }
    assert d in Claims(v.threads[t]) ==> Claimed(v, d);
    StillClaimed(w, v, t, d);
  }

  lemma StillClaimed(w: World, v: World, t: Tid, d: Addr)
    requires Local(w, v, t, d)
    ensures forall a :: a != d && Claimed(w, a) ==> Claimed(v, a)
  {
    forall a | a != d && Claimed(w, a) ensures Claimed(v, a) {
      var u :| u in w.threads && a in Claims(w.threads[u]);
      assert u in v.threads && a in Claims(v.threads[u]);
    }
  }

  /** The parts of the invariant a move of thread t relies on. */
  lemma InvFacts(w: World, t: Tid)
    requires Inv(w) && t in w.threads
    ensures EngineInv(w.e) && ClaimInv(w, t) && w.accepted == w.dispatched + w.e.pending
    ensures forall a :: a in w.e.pending || a in w.overflowed || a !in w.e.tasks ==> !Claimed(w, a)
    ensures forall a :: a in w.e.pending ==> a in w.e.tasks && a !in w.overflowed && a !in w.e.processing
    ensures forall a :: a !in w.e.tasks ==> a !in w.e.pending && a !in w.e.processing && a !in w.overflowed
    ensures forall a :: a in w.e.processing ==> Claimed(w, a)
    ensures forall id :: id in w.e.cache ==> w.e.cache[id] in w.e.tasks && w.e.tasks[w.e.cache[id]].requestId == id
  {
    assert forall u :: u in w.threads ==> ClaimInv(w, u);
  }

  lemma BeginCreateKeeps(w: World, t: Tid, o: Order, a: Addr, now: int)
    requires Inv(w) && Enabled(w, t, BeginCreate(o, a, now))
    ensures Inv(Apply(w, t, BeginCreate(o, a, now)))
  {
    var v := Apply(w, t, BeginCreate(o, a, now));
    if !Full(w.e) {
      BeginCreateIsLocal(w, t, o, a, now);
      BeginCreateClaims(w, t, o, a, now);
      InvFacts(w, t);
      UnusedAddress(w, a);
      InsertKeeps(w.e, a, o, now);
      hide Inv, EngineInv, Local, ClaimInv;
      LocalKeeps(w, v, t, a);
    }
  }

  lemma BeginCreateIsLocal(w: World, t: Tid, o: Order, a: Addr, now: int)
    requires Inv(w) && Enabled(w, t, BeginCreate(o, a, now)) && !Full(w.e)
    ensures Local(w, Apply(w, t, BeginCreate(o, a, now)), t, a)
  {
    UnusedAddress(w, a);
  }

  lemma BeginCreateClaims(w: World, t: Tid, o: Order, a: Addr, now: int)
    requires Inv(w) && Enabled(w, t, BeginCreate(o, a, now)) && !Full(w.e)
    ensures ClaimInv(Apply(w, t, BeginCreate(o, a, now)), t)
  {
    UnusedAddress(w, a);
    assert ClaimInv(w, t);
    assert forall u :: u in w.threads ==> a !in Claims(w.threads[u]);
  }

  /** Nothing refers to an address that holds no task. */
  lemma UnusedAddress(w: World, a: Addr)
    requires Inv(w) && a !in w.e.tasks
    ensures a !in w.e.pending && a !in w.e.processing && a !in w.overflowed
    ensures forall u :: u in w.threads ==> a !in Claims(w.threads[u])
  {
    assert forall u :: u in w.threads ==> ClaimInv(w, u);
  }

  lemma EnqueueNewKeeps(w: World, t: Tid)
    requires Inv(w) && Enabled(w, t, EnqueueNew)
    ensures Inv(Apply(w, t, EnqueueNew))
  {
    hide Inv, EngineInv, Local, ClaimInv, Accounted;
    EnqueueNewIsLocal(w, t);
    EnqueueNewClaims(w, t);
    LocalKeeps(w, Apply(w, t, EnqueueNew), t, w.threads[t].pc.a);
  }

  lemma EnqueueNewIsLocal(w: World, t: Tid)
    requires Inv(w) && Enabled(w, t, EnqueueNew)
    ensures Local(w, Apply(w, t, EnqueueNew), t, w.threads[t].pc.a)
  {
    hide Inv, EngineInv;
    InvFacts(w, t);
  }

  lemma EnqueueNewClaims(w: World, t: Tid)
    requires Inv(w) && Enabled(w, t, EnqueueNew)
    ensures var v, a := Apply(w, t, EnqueueNew), w.threads[t].pc.a;
            EngineInv(v.e) && ClaimInv(v, t) && Accounted(v, t, a) && v.accepted == v.dispatched + v.e.pending
  {
    hide Inv, EngineInv;
    InvFacts(w, t);
    EnqueueKeeps(w.e, w.threads[t].pc.a);
    Regroup(w.dispatched, w.e.pending, [w.threads[t].pc.a]);
  }

  lemma BeginNextKeeps(w: World, t: Tid)
    requires Inv(w) && Enabled(w, t, BeginNext)
    ensures Inv(Apply(w, t, BeginNext))
  {
    hide Inv, EngineInv, Local, ClaimInv, Accounted, Dequeue;
    if w.e.pending != [] {
      HeadIsUnclaimed(w);
      Popping(w);
      BeginNextIsLocal(w, t);
      BeginNextClaims(w, t);
      LocalKeeps(w, Apply(w, t, BeginNext), t, w.e.pending[0]);
    }
  }

  lemma BeginNextIsLocal(w: World, t: Tid)
    requires Inv(w) && Enabled(w, t, BeginNext) && w.e.pending != []
    ensures Local(w, Apply(w, t, BeginNext), t, w.e.pending[0])
  {
    hide Inv, EngineInv, Dequeue;
    HeadIsUnclaimed(w);
    Popping(w);
  }

  lemma BeginNextClaims(w: World, t: Tid)
    requires Inv(w) && Enabled(w, t, BeginNext) && w.e.pending != []
    ensures var v := Apply(w, t, BeginNext); ClaimInv(v, t) && Accounted(v, t, w.e.pending[0])
  {
    assert ClaimInv(w, t);
    hide Inv, EngineInv, Dequeue;
    HeadIsUnclaimed(w);
    Popping(w);
  }

  lemma HeadIsUnclaimed(w: World)
    requires Inv(w) && w.e.pending != []
    ensures EngineInv(w.e) && w.accepted == w.dispatched + w.e.pending
    ensures w.e.pending[0] in w.e.tasks && w.e.pending[0] !in w.overflowed && w.e.pending[0] !in w.e.processing
    ensures forall u :: u in w.threads ==> w.e.pending[0] !in Claims(w.threads[u])
  {
    forall u | u in w.threads ensures w.e.pending[0] !in Claims(w.threads[u]) {
      assert ClaimInv(w, u);
    }
  }

  /** The head leaves the pending queue, and nothing else changes. */
  lemma Popping(w: World)
    requires EngineInv(w.e) && w.e.pending != []
    ensures var a, e := w.e.pending[0], Dequeue(w.e);
            && EngineInv(e) && Loose(e, a)
            && e.tasks == w.e.tasks && e.cache == w.e.cache && e.processing == w.e.processing
            && (forall b :: b in e.pending <==> b in w.e.pending && b != a)
            && w.dispatched + w.e.pending == w.dispatched + [a] + e.pending
  {
    hide EngineInv;
    DequeueKeeps(w.e);
    Regroup(w.dispatched, [w.e.pending[0]], w.e.pending[1..]);
  }

  lemma WriteAssignedKeeps(w: World, t: Tid, now: int)
    requires Inv(w) && Enabled(w, t, WriteAssigned(now)) && Safe(w, t, WriteAssigned(now))
    ensures Inv(Apply(w, t, WriteAssigned(now)))
  {
    hide Inv, EngineInv;
    InvFacts(w, t);
    var v := Apply(w, t, WriteAssigned(now));
    var a := w.threads[t].pc.a;
    WriteKeeps(w.e, a, v.e.tasks[a]);
    LocalKeeps(w, v, t, a);
  }

  lemma EnqueueAssignedKeeps(w: World, t: Tid)
    requires Inv(w) && Enabled(w, t, EnqueueAssigned)
    ensures Inv(Apply(w, t, EnqueueAssigned))
  {
    hide Inv, EngineInv, Local, ClaimInv, Accounted;
    EnqueueAssignedIsLocal(w, t);
    EnqueueAssignedClaims(w, t);
    LocalKeeps(w, Apply(w, t, EnqueueAssigned), t, w.threads[t].pc.a);
  }

  lemma EnqueueAssignedIsLocal(w: World, t: Tid)
    requires Inv(w) && Enabled(w, t, EnqueueAssigned)
    ensures Local(w, Apply(w, t, EnqueueAssigned), t, w.threads[t].pc.a)
  {
    hide Inv, EngineInv;
    InvFacts(w, t);
  }

  lemma EnqueueAssignedClaims(w: World, t: Tid)
    requires Inv(w) && Enabled(w, t, EnqueueAssigned)
    ensures var v, a := Apply(w, t, EnqueueAssigned), w.threads[t].pc.a;
            EngineInv(v.e) && ClaimInv(v, t) && Accounted(v, t, a) && v.accepted == v.dispatched + v.e.pending
  {
    hide Inv, EngineInv;
    InvFacts(w, t);
    EnqueueProcessingKeeps(w.e, w.threads[t].pc.a);
  }

  lemma BeginFinishKeeps(w: World, t: Tid, id: string, outcome: Outcome)
    requires Inv(w) && Enabled(w, t, BeginFinish(id, outcome))
    ensures Inv(Apply(w, t, BeginFinish(id, outcome)))
  {
    hide Inv, EngineInv;
    InvFacts(w, t);
    if id in w.e.cache {
      var v := Apply(w, t, BeginFinish(id, outcome));
      LocalKeeps(w, v, t, w.e.cache[id]);
    }
  }

  lemma WriteClosedKeeps(w: World, t: Tid, now: int)
    requires Inv(w) && Enabled(w, t, WriteClosed(now)) && Safe(w, t, WriteClosed(now))
    ensures Inv(Apply(w, t, WriteClosed(now)))
  {
    hide Inv, EngineInv;
    InvFacts(w, t);
    var v := Apply(w, t, WriteClosed(now));
    var a := w.threads[t].pc.a;
    WriteKeeps(w.e, a, v.e.tasks[a]);
    LocalKeeps(w, v, t, a);
  }

  lemma UnlinkDoneKeeps(w: World, t: Tid)
    requires Inv(w) && Enabled(w, t, UnlinkDone)
    ensures Inv(Apply(w, t, UnlinkDone))
  {
    hide Inv, EngineInv, Local, ClaimInv, Accounted;
    UnlinkDoneIsLocal(w, t);
    UnlinkDoneClaims(w, t);
    LocalKeeps(w, Apply(w, t, UnlinkDone), t, w.threads[t].pc.a);
  }

  lemma UnlinkDoneIsLocal(w: World, t: Tid)
    requires Inv(w) && Enabled(w, t, UnlinkDone)
    ensures Local(w, Apply(w, t, UnlinkDone), t, w.threads[t].pc.a)
  {
    hide Inv, EngineInv;
    InvFacts(w, t);
  }

  lemma UnlinkDoneClaims(w: World, t: Tid)
    requires Inv(w) && Enabled(w, t, UnlinkDone)
    ensures var v, a := Apply(w, t, UnlinkDone), w.threads[t].pc.a;
            EngineInv(v.e) && ClaimInv(v, t) && Accounted(v, t, a) && v.accepted == v.dispatched + v.e.pending
  {
    hide Inv, EngineInv;
    InvFacts(w, t);
    UnlinkKeeps(w.e, w.threads[t].pc.a);
  }

  lemma EraseDoneKeeps(w: World, t: Tid)
    requires Inv(w) && Enabled(w, t, EraseDone) && Safe(w, t, EraseDone)
    ensures Inv(Apply(w, t, EraseDone))
  {
    hide Inv, EngineInv, Erase;
    InvFacts(w, t);
    var v := Apply(w, t, EraseDone);
    EraseKeeps(w.e, w.threads[t].pc.id);
    LocalKeeps(w, v, t, w.threads[t].pc.a);
  }

  lemma MoveKeepsInv(w: World, t: Tid, m: Move)
    requires Inv(w) && Enabled(w, t, m) && Safe(w, t, m)
    ensures Inv(Apply(w, t, m))
  {
    hide Inv, Apply;
    match m
    case BeginCreate(o, a, now) => BeginCreateKeeps(w, t, o, a, now);
    case EnqueueNew => EnqueueNewKeeps(w, t);
    case BeginNext => BeginNextKeeps(w, t);
    case WriteAssigned(now) => WriteAssignedKeeps(w, t, now);
    case EnqueueAssigned => EnqueueAssignedKeeps(w, t);
    case BeginFinish(id, outcome) => BeginFinishKeeps(w, t, id, outcome);
    case WriteClosed(now) => WriteClosedKeeps(w, t, now);
    case UnlinkDone => UnlinkDoneKeeps(w, t);
    case EraseDone => EraseDoneKeeps(w, t);
  }

  // Whole runs

  /** One step of some thread. A move on a deleted task is undefined behaviour:
      the world after it may be anything. */
  ghost predicate Step(w: World, v: World) {
    exists t: Tid, m: Move :: Enabled(w, t, m) && (Safe(w, t, m) ==> v == Apply(w, t, m))
  }

  ghost predicate Run(trace: seq<World>) {
    && trace != [] && Init(trace[0])
    && forall i :: 0 <= i < |trace| - 1 ==> Step(trace[i], trace[i + 1])
  }

  /** In every world of every run, whatever the number of threads and the
      interleaving, the invariant holds. */
  lemma {:induction false} InvHoldsThroughout(trace: seq<World>, i: nat)
    requires Run(trace) && i < |trace|
    ensures Inv(trace[i])
    decreases i
  {
    if i == 0 {
      assert forall t :: t in trace[0].threads ==> ClaimInv(trace[0], t);
    } else {
      hide Inv, Init, Apply;
      InvHoldsThroughout(trace, i - 1);
      var w, v := trace[i - 1], trace[i];
      assert Step(trace[i - 1], trace[i - 1 + 1]);
      var t: Tid, m: Move :| Enabled(w, t, m) && (Safe(w, t, m) ==> v == Apply(w, t, m));
      MovesAreSafe(w, t, m);
      MoveKeepsInv(w, t, m);
    }
  }

  /** What the code relies on, at every step of every run: bounds, queue entries
      that are live cached tasks and in one place only, no access to and no
      second delete of a freed task, and pops in the order of the enqueues. */
  lemma ProtocolIsSafe(trace: seq<World>, i: nat)
    requires Run(trace) && i < |trace|
    ensures var e := trace[i].e;
            && |e.cache| <= MAX_TASKS && |e.pending| <= MAX_PENDING_QUEUE && |e.processing| <= MAX_PROCESSING_QUEUE
            && NoDup(e.pending) && NoDup(e.processing)
            && (forall a :: a in e.pending ==> a !in e.processing)
            && (forall a :: a in e.pending || a in e.processing ==> a in e.tasks && a in e.cache.Values)
    ensures forall t, m :: Enabled(trace[i], t, m) ==> Safe(trace[i], t, m)
    ensures trace[i].accepted == trace[i].dispatched + trace[i].e.pending
  {
    InvHoldsThroughout(trace, i);
    var w := trace[i];
    forall t, m | Enabled(w, t, m) ensures Safe(w, t, m) {
      MovesAreSafe(w, t, m);
    }
    forall a | a in w.e.tasks ensures a in w.e.cache.Values {
      assert w.e.cache[w.e.tasks[a].requestId] == a;
    }
  }

  /** When no call is in progress, every live task is pending, received by
      exactly one thread, or lost to a full pending queue. */
  lemma QuiescentAccounting(trace: seq<World>, i: nat, a: Addr)
    requires Run(trace) && i < |trace| && a in trace[i].e.tasks
    requires forall t :: t in trace[i].threads ==> trace[i].threads[t].pc.Idle?
    ensures var w := trace[i];
            a in w.e.pending || a in w.overflowed || exists t :: t in w.threads && a in w.threads[t].received
    ensures var w := trace[i];
            forall t, u :: t in w.threads && u in w.threads && a in w.threads[t].received && a in w.threads[u].received ==> t == u
  {
    InvHoldsThroughout(trace, i);
    var w := trace[i];
    assert forall t :: t in w.threads ==> ClaimInv(w, t) && Claims(w.threads[t]) == w.threads[t].received;
  }
}
