/** What happens outside the usage protocol of the task manager: one call that
    breaks it is enough, even if every later call follows it. */
module TaskMisuse {
  import opened Tasks
  import opened TaskInvariants
  import opened TaskProtocol

  /** The moves follow the protocol, each is made in the world the one before it
      left, and the last one touches or deletes a task that is gone. */
  ghost predicate GoesWrong(w: World, moves: seq<(Tid, Move)>)
    decreases |moves|
  {
    && moves != []
    && Enabled(w, moves[0].0, moves[0].1)
    && (Safe(w, moves[0].0, moves[0].1) ==> GoesWrong(Apply(w, moves[0].0, moves[0].1), moves[1..]))
  }

  ghost predicate CanGoWrong(w: World) {
    exists moves :: GoesWrong(w, moves)
  }

  lemma Before(w: World, t: Tid, m: Move)
    requires Enabled(w, t, m)
    requires Safe(w, t, m) ==> CanGoWrong(Apply(w, t, m))
    ensures CanGoWrong(w)
  {
    if Safe(w, t, m) {
      var moves :| GoesWrong(Apply(w, t, m), moves);
      assert ([(t, m)] + moves)[1..] == moves;
      assert GoesWrong(w, [(t, m)] + moves);
    } else {
      assert GoesWrong(w, [(t, m)]);
    }
  }

  /** Under the invariant no moves that follow the protocol go wrong. */
  lemma {:induction false} NeverGoesWrong(w: World, moves: seq<(Tid, Move)>)
    requires Inv(w)
    ensures !GoesWrong(w, moves)
    decreases |moves|
  {
    if moves != [] && Enabled(w, moves[0].0, moves[0].1) {
      hide Inv, Apply;
      MovesAreSafe(w, moves[0].0, moves[0].1);
      MoveKeepsInv(w, moves[0].0, moves[0].1);
      NeverGoesWrong(Apply(w, moves[0].0, moves[0].1), moves[1..]);
    }
  }

  // Calls that run to their end

  /** Everything but thread t is the same, and so is what t received. */
  ghost predicate OnlyBy(w: World, v: World, t: Tid) {
    && t in w.threads && t in v.threads && v.threads == w.threads[t := Thread(v.threads[t].pc, w.threads[t].received)]
    && v.e.pending == w.e.pending
  }

  /** The rest of a `completeTask` or `failTask`: the task is gone. */
  lemma FinishRest(w: World, t: Tid) returns (v: World)
    requires t in w.threads && Finishing(w.threads[t].pc)
    requires var pc := w.threads[t].pc; pc.id in w.e.cache && w.e.cache[pc.id] == pc.a && pc.a in w.e.tasks
    ensures OnlyBy(w, v, t) && v.threads[t].pc == Idle
    ensures v.e.tasks.Keys == w.e.tasks.Keys - {w.threads[t].pc.a} && v.e.cache == w.e.cache - {w.threads[t].pc.id}
    ensures CanGoWrong(v) ==> CanGoWrong(w)
    decreases w.threads[t].pc.Found?, w.threads[t].pc.Written?
  {
    hide CanGoWrong;
    var m := match w.threads[t].pc case Found(_, _, _) => WriteClosed(0) case Written(_, _) => UnlinkDone case _ => EraseDone;
    var next := Apply(w, t, m);
    if w.threads[t].pc.Unlinked? {
      v := next;
    } else {
      v := FinishRest(next, t);
    }
    if CanGoWrong(v) {
      Before(w, t, m);
    }
  }

  /** A dispatch pops the head of the queue, or goes wrong. */
  lemma DispatchOne(w: World, u: Tid) returns (v: World)
    requires u in w.threads && w.threads[u].pc.Idle? && w.e.pending != []
    ensures CanGoWrong(w) || w.e.pending[0] in w.e.tasks
    ensures u in v.threads && v.threads[u].pc.Idle? && v.threads == w.threads[u := v.threads[u]]
    ensures v.e.tasks.Keys == w.e.tasks.Keys && v.e.pending == w.e.pending[1..]
    ensures CanGoWrong(v) ==> CanGoWrong(w)
  {
    hide CanGoWrong;
    var a := w.e.pending[0];
    var w1 := Apply(w, u, BeginNext);
    if a in w.e.tasks {
      var w2 := Apply(w1, u, WriteAssigned(0));
      v := Apply(w2, u, EnqueueAssigned);
      if CanGoWrong(v) {
        Before(w2, u, EnqueueAssigned);
        Before(w1, u, WriteAssigned(0));
        Before(w, u, BeginNext);
      }
    } else {
      v := w.(e := Dequeue(w.e));
      Before(w1, u, WriteAssigned(0));
      Before(w, u, BeginNext);
    }
  }

  /** A freed task in the pending queue is written to once it is dispatched. */
  lemma {:induction false} DanglingPending(w: World, u: Tid, a: Addr)
    requires u in w.threads && w.threads[u].pc.Idle?
    requires a in w.e.pending && a !in w.e.tasks
    ensures CanGoWrong(w)
    decreases |w.e.pending|
  {
    hide CanGoWrong;
    var v := DispatchOne(w, u);
    if w.e.pending[0] in w.e.tasks {
      assert w.e.pending == [w.e.pending[0]] + v.e.pending;
      DanglingPending(v, u, a);
    }
  }

  /** The rest of a call that creates or dispatches: a popped task is received. */
  lemma RunToIdle(w: World, t: Tid) returns (v: World)
    requires t in w.threads && !Finishing(w.threads[t].pc)
    requires w.threads[t].pc.Popped? ==> w.threads[t].pc.a in w.e.tasks
    ensures t in v.threads && v.threads[t].pc == Idle && v.threads == w.threads[t := v.threads[t]]
    ensures w.threads[t].received <= v.threads[t].received
    ensures w.threads[t].pc.Popped? || w.threads[t].pc.Assigned? ==> w.threads[t].pc.a in v.threads[t].received
    ensures v.e.tasks.Keys == w.e.tasks.Keys && v.e.cache == w.e.cache
    ensures CanGoWrong(v) ==> CanGoWrong(w)
    decreases w.threads[t].pc.Popped?
  {
    hide CanGoWrong;
    if w.threads[t].pc.Idle? {
      v := w;
    } else {
      var m := match w.threads[t].pc case Inserted(_) => EnqueueNew case Popped(_) => WriteAssigned(0) case _ => EnqueueAssigned;
      var next := Apply(w, t, m);
      if w.threads[t].pc.Popped? {
        v := RunToIdle(next, t);
      } else {
        v := next;
      }
      if CanGoWrong(v) {
        Before(w, t, m);
      }
    }
  }

  // One call outside the protocol

  /** Two threads in the middle of finishing one task. */
  lemma TwoFinishing(w: World, u: Tid, t: Tid)
    requires u in w.threads && t in w.threads && u != t
    requires w.threads[u].pc.Found? && Finishing(w.threads[t].pc) && w.threads[u].pc.a == w.threads[t].pc.a
    requires var pc := w.threads[t].pc; pc.id in w.e.cache && w.e.cache[pc.id] == pc.a && pc.a in w.e.tasks
    ensures CanGoWrong(w)
  {
    var v := FinishRest(w, t);
    Before(v, u, WriteClosed(0));
  }

  /** One thread finishes a task, and then the thread that received it does. */
  lemma ReceiverFinishesToo(w: World, u: Tid, t: Tid)
    requires u in w.threads && t in w.threads && u != t
    requires w.threads[u].pc.Found? && w.threads[t].pc.Idle? && w.threads[u].pc.a in w.threads[t].received
    requires var pc := w.threads[u].pc; pc.id in w.e.cache && w.e.cache[pc.id] == pc.a && pc.a in w.e.tasks
    ensures CanGoWrong(w)
  {
    var m := BeginFinish(w.threads[u].pc.id, Error(""));
    TwoFinishing(Apply(w, t, m), u, t);
    Before(w, t, m);
  }

  /** One thread finishes a task that another one is about to put into the
      pending queue. */
  lemma FinishedBeforeEnqueue(w: World, u: Tid, t: Tid)
    requires u in w.threads && t in w.threads && u != t && |w.e.pending| <= MAX_PENDING_QUEUE
    requires w.threads[u].pc.Idle? && w.threads[t].pc.Inserted? && w.threads[t].pc.a !in w.e.tasks
    ensures CanGoWrong(w)
  {
    hide CanGoWrong;
    var v := w;
    if |w.e.pending| == MAX_PENDING_QUEUE {
      v := DispatchOne(w, u);
    }
    var next := Apply(v, t, EnqueueNew);
    DanglingPending(next, u, w.threads[t].pc.a);
    Before(v, t, EnqueueNew);
  }

  /** Thread u has just begun to finish a task that thread t claims. */
  lemma ClaimedElsewhere(w: World, u: Tid, t: Tid)
    requires u in w.threads && t in w.threads && u != t && |w.e.pending| <= MAX_PENDING_QUEUE
    requires w.threads[u].pc.Found? && w.threads[u].pc.a in Claims(w.threads[t])
    requires var pc := w.threads[u].pc; pc.id in w.e.cache && w.e.cache[pc.id] == pc.a && pc.a in w.e.tasks
    requires var pc := w.threads[t].pc;
             && (!pc.Idle? ==> pc.a in w.e.tasks)
             && (Finishing(pc) ==> pc.id in w.e.cache && w.e.cache[pc.id] == pc.a)
             && Busy(w.threads[t]) !! w.threads[t].received
    ensures CanGoWrong(w)
  {
    hide CanGoWrong;
    var a, pc := w.threads[u].pc.a, w.threads[t].pc;
    if a in Busy(w.threads[t]) && pc.Inserted? {
      var v := FinishRest(w, u);
      FinishedBeforeEnqueue(v, u, t);
    } else if a in Busy(w.threads[t]) && Finishing(pc) {
      TwoFinishing(w, u, t);
    } else if Finishing(pc) {
      var v := FinishRest(w, t);
      ReceiverFinishesToo(v, u, t);
    } else {
      var v := RunToIdle(w, t);
      ReceiverFinishesToo(v, u, t);
    }
  }

  /** The protocol is exactly what keeps finishing safe: after a thread has begun
      to complete or fail a task, calls that follow the protocol can reach a freed
      task if and only if that beginning did not follow it. */
  lemma FinishIsSafeIff(w: World, u: Tid, id: string, outcome: Outcome)
    requires Inv(w) && Possible(w, u, BeginFinish(id, outcome))
    ensures CanGoWrong(Apply(w, u, BeginFinish(id, outcome))) <==> !Follows(w, u, BeginFinish(id, outcome))
  {
    var m := BeginFinish(id, outcome);
    var v := Apply(w, u, m);
    if Follows(w, u, m) {
      MoveKeepsInv(w, u, m);
      forall moves ensures !GoesWrong(v, moves) {
        NeverGoesWrong(v, moves);
      }
    } else {
      BreaksProtocol(w, u, id, outcome);
    }
  }

  lemma BreaksProtocol(w: World, u: Tid, id: string, outcome: Outcome)
    requires Inv(w) && Possible(w, u, BeginFinish(id, outcome)) && !Follows(w, u, BeginFinish(id, outcome))
    ensures CanGoWrong(Apply(w, u, BeginFinish(id, outcome)))
  {
    hide CanGoWrong;
    var v, a := Apply(w, u, BeginFinish(id, outcome)), w.e.cache[id];
    InvFacts(w, u);
    if a in w.e.pending {
      var x := FinishRest(v, u);
      DanglingPending(x, u, a);
    } else {
      assert Claimed(w, a);
      var t :| t in w.threads && a in Claims(w.threads[t]);
      assert ClaimInv(w, t);
      ClaimedElsewhere(v, u, t);
    }
  }

  /** From the very start one thread is enough: it creates a task and fails it
      while it is pending. */
  lemma OneThreadIsEnough(w: World, t: Tid, o: Order) returns (trace: seq<World>)
    requires Init(w) && t in w.threads
    ensures Run(trace) && trace[0] == w
    ensures var v := trace[|trace| - 1]; var m := BeginFinish(o.requestId, Error(""));
            Possible(v, t, m) && CanGoWrong(Apply(v, t, m))
  {
    var w1 := Apply(w, t, BeginCreate(o, 0, 0));
    var w2 := Apply(w1, t, EnqueueNew);
    trace := [w, w1, w2];
    TwoSteps(w, t, BeginCreate(o, 0, 0), EnqueueNew);
    InvHoldsThroughout(trace, 2);
    assert w2.e.cache[o.requestId] == 0 && w2.threads[t] == Thread(Idle, {}) && w2.overflowed == {};
    hide Inv, Run, CanGoWrong, Apply;
    FinishIsSafeIff(w2, t, o.requestId, Error(""));
  }

  lemma TwoSteps(w: World, t: Tid, m: Move, n: Move)
    requires Init(w) && Enabled(w, t, m) && Safe(w, t, m)
    requires Enabled(Apply(w, t, m), t, n) && Safe(Apply(w, t, m), t, n)
    ensures Run([w, Apply(w, t, m), Apply(Apply(w, t, m), t, n)])
  {
    hide Apply, Init;
    assert Step(w, Apply(w, t, m)) && Step(Apply(w, t, m), Apply(Apply(w, t, m), t, n));
  }

  // Creating under a taken id

  /** The moves lead from w to v, whether or not they follow the protocol. */
  ghost predicate LeadsTo(w: World, moves: seq<(Tid, Move)>, v: World)
    decreases |moves|
  {
    if moves == [] then v == w
    else
      && Possible(w, moves[0].0, moves[0].1) && Safe(w, moves[0].0, moves[0].1)
      && LeadsTo(Apply(w, moves[0].0, moves[0].1), moves[1..], v)
  }

  ghost predicate CanBeDeleted(w: World, a: Addr) {
    exists moves, v :: LeadsTo(w, moves, v) && a !in v.e.tasks
  }

  /** A task the id table does not know stays for good. */
  lemma {:induction false} LeaksForever(w: World, moves: seq<(Tid, Move)>, v: World, a: Addr)
    requires a in w.e.tasks && a !in w.e.cache.Values && LeadsTo(w, moves, v)
    ensures a in v.e.tasks
    decreases |moves|
  {
    if moves != [] {
      LeaksForever(Apply(w, moves[0].0, moves[0].1), moves[1..], v, a);
    }
  }

  lemma LeadsOn(w: World, t: Tid, m: Move, moves: seq<(Tid, Move)>, v: World)
    requires Possible(w, t, m) && Safe(w, t, m) && LeadsTo(Apply(w, t, m), moves, v)
    ensures LeadsTo(w, [(t, m)] + moves, v)
  {
    assert ([(t, m)] + moves)[1..] == moves;
  }

  /** A task the id table knows can be deleted by the thread that created it. */
  lemma KnownIsDeletable(w: World, t: Tid, id: string, a: Addr)
    requires t in w.threads && w.threads[t].pc == Inserted(a)
    requires a in w.e.tasks && id in w.e.cache && w.e.cache[id] == a
    ensures CanBeDeleted(w, a)
  {
    var m1, m2, m3, m4, m5 := EnqueueNew, BeginFinish(id, Error("")), WriteClosed(0), UnlinkDone, EraseDone;
    var w1 := Apply(w, t, m1);
    var w2 := Apply(w1, t, m2);
    var w3 := Apply(w2, t, m3);
    var w4 := Apply(w3, t, m4);
    var w5 := Apply(w4, t, m5);
    LeadsOn(w4, t, m5, [], w5);
    LeadsOn(w3, t, m4, [(t, m5)] + [], w5);
    LeadsOn(w2, t, m3, [(t, m4)] + ([(t, m5)] + []), w5);
    LeadsOn(w1, t, m2, [(t, m3)] + ([(t, m4)] + ([(t, m5)] + [])), w5);
    LeadsOn(w, t, m1, [(t, m2)] + ([(t, m3)] + ([(t, m4)] + ([(t, m5)] + []))), w5);
  }

  /** A new task can ever be deleted again, by any later moves of any threads, if
      and only if its id was free. */
  lemma DeletableIff(w: World, t: Tid, o: Order, a: Addr, now: int)
    requires Inv(w) && Possible(w, t, BeginCreate(o, a, now)) && !Full(w.e)
    ensures CanBeDeleted(Apply(w, t, BeginCreate(o, a, now)), a) <==> o.requestId !in w.e.cache
  {
    var w1 := Apply(w, t, BeginCreate(o, a, now));
    InvFacts(w, t);
    if o.requestId in w.e.cache {
      forall moves, v | LeadsTo(w1, moves, v) ensures a in v.e.tasks {
        LeaksForever(w1, moves, v, a);
      }
    } else {
      hide LeadsTo, CanBeDeleted;
      KnownIsDeletable(w1, t, o.requestId, a);
    }
  }
}
