/** The fixed-size ring buffer and the message cache built on it. */
module SimpleQueues {
  import opened Common

  /** Position k of a ring of n slots that is passed at most once around. */
  function Around(k: nat, n: nat): nat {
    if k < n then k else k - n
  }

  lemma AroundIsMod(k: nat, n: nat)
    requires 0 < n && k < 2 * n
    ensures k % n == if k < n then k else k - n
  {
    if k >= n {
      Multiples(k / n - 1, n);
      assert (k / n - 1) * n == k - n - k % n;
    }
  }

  lemma Multiples(q: int, n: nat)
    requires 0 < n
    ensures q > 0 ==> q * n >= n
    ensures q < 0 ==> q * n + n <= 0
  {
  }

  class SimpleQueue<T(0)> {
    const data: array<T>
    var head: nat
    var tail: nat
    var size: nat

    /** The tail is `size` slots behind the head, around the ring. */
    ghost predicate Valid()
      reads this
    {
      && 0 < data.Length
      && head < data.Length && size <= data.Length
      && tail == (head + size) % data.Length
    }

    /** The slot of the i-th queued item. */
    ghost function Slot(i: nat): (r: nat)
      requires Valid() && i < data.Length
      reads this
      ensures r < data.Length && r == (head + i) % data.Length
    {
      AroundIsMod(head + i, data.Length);
      Around(head + i, data.Length)
    }

    ghost function Contents(): (r: seq<T>)
      requires Valid()
      reads this, data
      ensures |r| == size
      ensures forall i :: 0 <= i < size ==> r[i] == data[Slot(i)]
    {
      seq(size, i requires 0 <= i < size && Valid() reads this, data => data[Slot(i)])
    }

    constructor (maxSize: nat)
      requires maxSize > 0
      ensures Valid() && fresh(data) && data.Length == maxSize
      ensures Contents() == []
    {
      data := new T[maxSize];
      head, tail, size := 0, 0, 0;
    }

    /** Refused on a full ring; otherwise the new item joins behind the others
        and no slot of a queued item is written. */
    method Push(item: T) returns (ok: bool)
      requires Valid()
      modifies this`tail, this`size, data
      ensures Valid()
      ensures ok == (old(size) < data.Length)
      ensures Contents() == if ok then old(Contents()) + [item] else old(Contents())
      ensures forall i :: 0 <= i < old(size) ==> data[Slot(i)] == old(data[Slot(i)])
    {
      if size >= data.Length {
        return false;
      }
      AroundIsMod(head + size, data.Length);
      data[tail] := item;
      AroundIsMod(tail + 1, data.Length);
      tail := (tail + 1) % data.Length;
      size := size + 1;
      AroundIsMod(head + size, data.Length);
      ok := true;
    }

    /** Empty rings give nothing; otherwise the oldest item leaves. */
    method Pop() returns (ok: bool, item: Option<T>)
      requires Valid()
      modifies this`head, this`size
      ensures Valid()
      ensures ok == item.Some? == (old(size) > 0)
      ensures ok ==> old(Contents()) == [item.value] + Contents()
      ensures !ok ==> Contents() == old(Contents()) == []
    {
      if size == 0 {
        return false, None;
      }
      item := Some(data[head]);
      AroundIsMod(head + 1, data.Length);
      AroundIsMod(head + size, data.Length);
      head := (head + 1) % data.Length;
      size := size - 1;
      AroundIsMod(head + size, data.Length);
      assert old(Contents()) == [item.value] + Contents();
      ok := true;
    }
  }

  // Whole runs, on the abstract queue the methods are proved against

  datatype Op<T> = Push(item: T) | Pop

  /** The queued items, and logs of what was accepted and what was popped. */
  datatype State<T> = State(contents: seq<T>, accepted: seq<T>, popped: seq<T>)

  function Step<T>(s: State<T>, op: Op<T>, max: nat): State<T> {
    match op
    case Push(item) =>
      if |s.contents| < max then State(s.contents + [item], s.accepted + [item], s.popped) else s
    case Pop =>
      if s.contents == [] then s else State(s.contents[1..], s.accepted, s.popped + [s.contents[0]])
  }

  function Run<T>(s: State<T>, ops: seq<Op<T>>, max: nat): State<T>
    decreases |ops|
  {
    if ops == [] then s else Run(Step(s, ops[0], max), ops[1..], max)
  }

  /** Over every run nothing is lost, repeated or reordered: what was queued and
      accepted is what was popped followed by what is still queued. */
  lemma {:induction false} NothingLost<T>(queued: seq<T>, s: State<T>, ops: seq<Op<T>>, max: nat)
    requires queued + s.accepted == s.popped + s.contents && |s.contents| <= max
    ensures var r := Run(s, ops, max); queued + r.accepted == r.popped + r.contents && |r.contents| <= max
    decreases |ops|
  {
    if ops != [] {
      var next := Step(s, ops[0], max);
      match ops[0] {
        case Push(item) =>
          Regroup(queued, s.accepted, [item]);
          Regroup(s.popped, s.contents, [item]);
        case Pop =>
          if s.contents != [] {
            assert s.contents == [s.contents[0]] + s.contents[1..];
            Regroup(s.popped, [s.contents[0]], s.contents[1..]);
          }
      }
      NothingLost(queued, next, ops[1..], max);
    }
  }

  lemma {:induction false} RunAppend<T>(s: State<T>, ops: seq<Op<T>>, op: Op<T>, max: nat)
    ensures Run(s, ops + [op], max) == Step(Run(s, ops, max), op, max)
    decreases |ops|
  {
    if ops == [] {
      assert [] + [op] == [op] && [op][1..] == [];
    } else {
      assert (ops + [op])[1..] == ops[1..] + [op];
      RunAppend(Step(s, ops[0], max), ops[1..], op, max);
    }
  }

  /** Any calls, in any order, on one ring with any contents: its answers are those
      of the run, and nothing is lost, repeated or reordered around the ring. */
  method Execute<T(0)>(queue: SimpleQueue<T>, ops: seq<Op<T>>) returns (accepted: seq<T>, popped: seq<T>)
    requires queue.Valid()
    modifies queue, queue.data
    ensures queue.Valid()
    ensures State(queue.Contents(), accepted, popped) == Run(State(old(queue.Contents()), [], []), ops, queue.data.Length)
    ensures old(queue.Contents()) + accepted == popped + queue.Contents()
  {
    ghost var start := State(queue.Contents(), [], []);
    accepted, popped := [], [];
    var i := 0;
    while i < |ops|
      invariant 0 <= i <= |ops| && queue.Valid()
      invariant State(queue.Contents(), accepted, popped) == Run(start, ops[..i], queue.data.Length)
    {
      RunAppend(start, ops[..i], ops[i], queue.data.Length);
      assert ops[..i + 1] == ops[..i] + [ops[i]];
      hide Run, SimpleQueue.Valid;
      match ops[i] {
        case Push(item) =>
          var ok := queue.Push(item);
          accepted := if ok then accepted + [item] else accepted;
        case Pop =>
          var ok, item := queue.Pop();
          popped := if ok then popped + [item.value] else popped;
      }
      i := i + 1;
    }
    assert ops[..i] == ops;
    NothingLost(start.contents, start, ops, queue.data.Length);
  }

  // The message cache

  /** `Delete` is a ghost method: all that is left of a message here is whether it
      is allocated, and deleting one that is not is what `safe` below rules out. */
  class Message {
    ghost var alive: bool

    constructor ()
      ensures alive
    {
      alive := true;
    }

    ghost method Delete()
      requires alive
      modifies this`alive
      ensures !alive
    {
      alive := false;
    }
  }

  const MAX_MSGS: nat := 100

  /** Deleting the queued messages one after the other, given those that are
      allocated: None when one of them is deleted that is not. */
  function DeleteAll<T(==)>(live: set<T>, queued: seq<T>): Option<set<T>> {
    if queued == [] then Some(live)
    else if queued[0] in live then DeleteAll(live - {queued[0]}, queued[1..])
    else None
  }

  lemma DeleteNext<T>(live: set<T>, queued: seq<T>)
    ensures DeleteAll(live, queued) ==
            if queued == [] then Some(live)
            else if queued[0] in live then DeleteAll(live - {queued[0]}, queued[1..]) else None
  {
  }

  /** `clearMessages` deletes only what is allocated if and only if no message was
      added twice and none was deleted elsewhere. */
  lemma {:induction false} ClearIsSafeIff<T>(live: set<T>, queued: seq<T>)
    ensures DeleteAll(live, queued).Some? <==> NoDup(queued) && forall m :: m in queued ==> m in live
    ensures DeleteAll(live, queued).Some? ==> DeleteAll(live, queued).value == live - (set m | m in queued)
  {
    if queued != [] {
      var m, rest := queued[0], queued[1..];
      ClearIsSafeIff(live - {m}, rest);
      assert queued == [m] + rest;
      assert NoDup(queued) <==> NoDup(rest) && m !in rest by {
        assert forall i :: 0 <= i < |rest| ==> rest[i] == queued[i + 1];
        if NoDup(queued) {
          forall i, j | 0 <= i < j < |rest| ensures rest[i] != rest[j] {
            assert queued[i + 1] != queued[j + 1];
          }
        }
      }
    }
  }

  class ClientMessageCache {
    const queue: SimpleQueue<Message?>

    /** No entry is null; an entry may be queued twice. */
    ghost predicate Valid()
      reads this, queue, queue.data
    {
      && queue.Valid() && queue.data.Length == MAX_MSGS
      && null !in queue.Contents()
    }

    constructor ()
      ensures Valid() && fresh(queue) && fresh(queue.data) && queue.Contents() == []
    {
      queue := new SimpleQueue<Message?>(MAX_MSGS);
    }

    /** A null is ignored. A message that does not fit is not queued, and the
        caller is not told. */
    method AddMessage(msg: Message?)
      requires Valid()
      modifies queue, queue.data
      ensures Valid()
      ensures queue.Contents() ==
              if msg != null && |old(queue.Contents())| < 100 then old(queue.Contents()) + [msg] else old(queue.Contents())
    {
      if msg != null {
        var _ := queue.Push(msg);
      }
    }

    /** Terminates with the queue empty. Every delete is of a message that is still
        allocated exactly when no message was queued twice and all were allocated,
        and then all of them are gone. */
    method ClearMessages() returns (ghost safe: bool)
      requires Valid()
      modifies queue, queue.Contents()
      ensures Valid() && queue.Contents() == []
      ensures safe <==> NoDup(old(queue.Contents())) && forall m :: m in old(queue.Contents()) ==> old(m.alive)
      ensures safe ==> forall m :: m in old(queue.Contents()) ==> !m.alive
    {
      hide SimpleQueue.Valid, SimpleQueue.Contents, NoDup, DeleteAll;
      ghost var all := queue.Contents();
      ghost var start := set m: Message? | m in all && m.alive;
      ghost var live := start;  // the queued messages that are still allocated
      ghost var k := 0;
      var more := true;
      safe := true;
      while more
        invariant queue.Valid() && k <= |all| && queue.Contents() == all[k..]
        invariant !more ==> k == |all|
        invariant null !in all && live == set m | m in all && m.alive
        invariant DeleteAll(start, all) == if safe then DeleteAll(live, all[k..]) else None
        decreases |all| - k, more
      {
        var ok, msg := queue.Pop();
        more := ok;
        if ok {
          assert msg.value == all[k] && all[k..][1..] == all[k + 1..];
          DeleteNext(live, all[k..]);
          if msg.value != null {
            if msg.value.alive {
              msg.value.Delete();
              live := live - {msg.value};
            } else {
              safe := false;
            }
          }
          k := k + 1;
        }
      }
      ClearIsSafeIff(start, all);
      DeleteNext(live, all[k..]);
      if safe {
        assert live == {};
        forall m | m in all ensures !m.alive {
          assert m !in live;
        }
      }
    }
  }
}
