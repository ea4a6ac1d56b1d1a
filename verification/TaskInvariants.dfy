/** What the engine's sections keep, whoever calls them. */
module TaskInvariants {
  import opened Common
  import opened Tasks

  /** The id table and the live tasks are in one-to-one correspondence. */
  ghost predicate CacheInv<A>(e: Engine<A>) {
    && |e.cache| <= MAX_TASKS
    && (forall id :: id in e.cache ==> e.cache[id] in e.tasks && e.tasks[e.cache[id]].requestId == id)
    && (forall a :: a in e.tasks ==> e.tasks[a].requestId in e.cache && e.cache[e.tasks[a].requestId] == a)
  }

  /** Every queue entry is a live cached task, at most once in at most one queue,
      and the queues are bounded. */
  ghost predicate QueueInv<A>(e: Engine<A>) {
    && |e.pending| <= MAX_PENDING_QUEUE && |e.processing| <= MAX_PROCESSING_QUEUE
    && NoDup(e.pending) && NoDup(e.processing)
    && (forall a :: a in e.pending ==> a in e.tasks && a !in e.processing)
    && (forall a :: a in e.processing ==> a in e.tasks)
  }

  ghost predicate EngineInv<A>(e: Engine<A>) {
    CacheInv(e) && QueueInv(e)
  }

  /** A live task in no queue. */
  predicate Loose<A>(e: Engine<A>, a: A) {
    a in e.tasks && a !in e.pending && a !in e.processing
  }

  lemma InsertKeeps<A>(e: Engine<A>, a: A, o: Order, now: int)
    requires EngineInv(e) && !Full(e) && a !in e.tasks && o.requestId !in e.cache
    ensures EngineInv(Insert(e, a, o, now)) && Loose(Insert(e, a, o, now), a)
  {
    hide CacheInv, NoDup;
    InsertKeepsCache(e, a, o, now);
  }

  lemma InsertKeepsCache<A>(e: Engine<A>, a: A, o: Order, now: int)
    requires CacheInv(e) && !Full(e) && a !in e.tasks && o.requestId !in e.cache
    ensures CacheInv(Insert(e, a, o, now))
  {
    var v := Insert(e, a, o, now);
    assert |v.cache| <= MAX_TASKS by {
      assert v.cache.Keys == e.cache.Keys + {o.requestId};
    }
    forall id | id in v.cache ensures v.cache[id] in v.tasks && v.tasks[v.cache[id]].requestId == id {
      assert id != o.requestId ==> id in e.cache && v.cache[id] == e.cache[id] && e.cache[id] != a;
    }
    forall b | b in v.tasks ensures v.tasks[b].requestId in v.cache && v.cache[v.tasks[b].requestId] == b {
      assert b != a ==> b in e.tasks && v.tasks[b] == e.tasks[b];
    }
  }

  lemma EnqueueKeeps<A>(e: Engine<A>, a: A)
    requires EngineInv(e) && Loose(e, a)
    ensures EngineInv(Enqueue(e, a))
  {
    NoDupAppend(e.pending, a);
  }

  lemma DequeueKeeps<A>(e: Engine<A>)
    requires EngineInv(e) && e.pending != []
    ensures EngineInv(Dequeue(e)) && Loose(Dequeue(e), e.pending[0])
    ensures forall b :: b in e.pending <==> b == e.pending[0] || b in Dequeue(e).pending
  {
    assert e.pending == [e.pending[0]] + e.pending[1..];
  }

  /** Field writes that leave the id alone. */
  lemma WriteKeeps<A>(e: Engine<A>, a: A, t: Task)
    requires EngineInv(e) && a in e.tasks && t.requestId == e.tasks[a].requestId
    ensures EngineInv(e.(tasks := e.tasks[a := t]))
  {
  }

  lemma EnqueueProcessingKeeps<A>(e: Engine<A>, a: A)
    requires EngineInv(e) && Loose(e, a)
    ensures EngineInv(EnqueueProcessing(e, a))
  {
    NoDupAppend(e.processing, a);
  }

  lemma UnlinkKeeps<A>(e: Engine<A>, a: A)
    requires EngineInv(e)
    ensures EngineInv(Unlink(e, a))
    ensures a in e.tasks && a !in e.pending ==> Loose(Unlink(e, a), a)
  {
    WithoutNoDup(e.processing, a);
  }

  lemma EraseKeeps<A>(e: Engine<A>, id: string)
    requires EngineInv(e) && id in e.cache && Loose(e, e.cache[id])
    ensures EngineInv(Erase(e, id))
    ensures var v := Erase(e, id);
            v.tasks.Keys == e.tasks.Keys - {e.cache[id]} && v.cache == e.cache - {id} && v.pending == e.pending && v.processing == e.processing
  {
    assert Erase(e, id).cache.Keys == e.cache.Keys - {id};
  }

  // The whole operations

  lemma CreateEngine<A>(e: Engine<A>, a: A, o: Order, now: int)
    requires EngineInv(e) && !Full(e) && a !in e.tasks && o.requestId !in e.cache
    ensures EngineInv(Create(e, a, o, now))
    ensures a !in e.pending && a !in e.processing
  {
    InsertKeeps(e, a, o, now);
    EnqueueKeeps(Insert(e, a, o, now), a);
  }

  lemma DispatchEngine<A>(e: Engine<A>, now: int)
    requires EngineInv(e) && e.pending != []
    ensures e.pending[0] in e.tasks && EngineInv(Dispatch(e, now))
    ensures e.pending[0] !in e.pending[1..] && e.pending[0] !in e.processing
  {
    var a := e.pending[0];
    DequeueKeeps(e);
    WriteKeeps(Dequeue(e), a, Assign(Dequeue(e), a, now).tasks[a]);
    EnqueueProcessingKeeps(Assign(Dequeue(e), a, now), a);
  }

  lemma FinishEngine<A>(e: Engine<A>, id: string, outcome: Outcome, now: int)
    requires EngineInv(e) && id in e.cache && e.cache[id] !in e.pending
    ensures e.cache[id] in e.tasks && EngineInv(Finish(e, id, outcome, now))
    ensures var v := Finish(e, id, outcome, now);
            v.tasks == e.tasks - {e.cache[id]} && v.pending == e.pending && v.processing == Without(e.processing, e.cache[id])
  {
    var a := e.cache[id];
    var closed := Close(e, a, outcome, now);
    WriteKeeps(e, a, closed.tasks[a]);
    UnlinkKeeps(closed, a);
    EraseKeeps(Unlink(closed, a), id);
  }
}
