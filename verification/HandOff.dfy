/** The hand-off of requests from the client thread to the task thread over a
    queue without a lock: every queue call is one step, and the test for full or
    empty is a different step from the push or pop it guards. */
module HandOff {
  import opened Common

  const MAX_TASKS: nat := 128

  type Tid = nat

  datatype Request = Request(clientSocket: int, request: string)

  /** A producer inside `pushRequest`, before or after the test for full. */
  datatype Producer = Ready | Checked(r: Request)

  /** The consumer inside `taskLoop`. */
  datatype Consumer =
    | Polling            // about to test for empty
    | SawItem            // the queue was not empty
    | Copied(r: Request) // front has been copied
    | InHand(r: Request) // popped, not yet passed on

  /** `handed` logs what the consumer passed on, `sent` what reached a node. */
  datatype State = State(
    queue: seq<Request>, producers: map<Tid, Producer>, consumer: Consumer, hasNode: bool,
    accepted: seq<Request>, handed: seq<Request>, sent: seq<Request>)

  datatype Move = TestFull(t: Tid, r: Request) | DoPush(t: Tid) | TestEmpty | CopyFront | DoPop | PassOn

  predicate Enabled(s: State, m: Move) {
    match m
    case TestFull(t, _) => t in s.producers && s.producers[t].Ready?
    case DoPush(t) => t in s.producers && s.producers[t].Checked?
    case TestEmpty => s.consumer.Polling?
    case CopyFront => s.consumer.SawItem?
    case DoPop => s.consumer.Copied?
    case PassOn => s.consumer.InHand?
  }

  /** No push into a full queue, no `front` or `pop` on an empty one. */
  predicate Safe(s: State, m: Move) {
    match m
    case DoPush(_) => |s.queue| < MAX_TASKS
    case CopyFront => s.queue != []
    case DoPop => s.queue != []
    case _ => true
  }

  /** A request that finds the queue full is dropped, and the caller not told. */
  function Apply(s: State, m: Move): State
    requires Enabled(s, m) && Safe(s, m)
  {
    match m
    case TestFull(t, r) =>
      if |s.queue| < MAX_TASKS then s.(producers := s.producers[t := Checked(r)]) else s
    case DoPush(t) =>
      var r := s.producers[t].r;
      s.(queue := s.queue + [r], accepted := s.accepted + [r], producers := s.producers[t := Ready])
    case TestEmpty => if s.queue == [] then s else s.(consumer := SawItem)
    case CopyFront => s.(consumer := Copied(s.queue[0]))
    case DoPop => s.(queue := s.queue[1..], consumer := InHand(s.consumer.r))
    case PassOn =>
      var r := s.consumer.r;
      s.(consumer := Polling, handed := s.handed + [r], sent := if s.hasNode then s.sent + [r] else s.sent)
  }

  function Hand(c: Consumer): seq<Request> {
    if c.InHand? then [c.r] else []
  }

  ghost predicate Inv(s: State) {
    && |s.queue| <= MAX_TASKS
    && (forall t :: t in s.producers && s.producers[t].Checked? ==> |s.queue| < MAX_TASKS)
    && (s.consumer.SawItem? || s.consumer.Copied? ==> s.queue != [])
    && (s.consumer.Copied? ==> s.queue[0] == s.consumer.r)
    && s.accepted == s.handed + Hand(s.consumer) + s.queue
    && s.sent == if s.hasNode then s.handed else []
  }

  ghost predicate Init(s: State) {
    && s.queue == [] && s.consumer == Polling && s.accepted == [] && s.handed == [] && s.sent == []
    && (forall t :: t in s.producers ==> s.producers[t] == Ready)
  }

  /** An unsafe queue call leaves the state undefined. */
  ghost predicate Step(s: State, s': State) {
    exists m: Move :: Enabled(s, m) && (Safe(s, m) ==> s' == Apply(s, m))
  }

  ghost predicate Run(trace: seq<State>) {
    && trace != [] && Init(trace[0])
    && forall i :: 0 <= i < |trace| - 1 ==> Step(trace[i], trace[i + 1])
  }

  lemma MoveKeepsInv(s: State, m: Move)
    requires Inv(s) && |s.producers| <= 1 && Enabled(s, m)
    ensures Safe(s, m)
    ensures Inv(Apply(s, m)) && |Apply(s, m).producers| <= 1 && Apply(s, m).hasNode == s.hasNode
  {
    match m
    case TestFull(t, r) => OneProducer(s, t, Checked(r));
    case DoPush(t) =>
      OneProducer(s, t, Ready);
      Regroup(s.handed + Hand(s.consumer), s.queue, [s.producers[t].r]);
    case DoPop => PopIntoHand(s.handed, s.queue);
    case _ =>
  }

  lemma OneProducer(s: State, t: Tid, p: Producer)
    requires |s.producers| <= 1 && t in s.producers
    ensures s.producers.Keys == {t}
    ensures |s.producers[t := p]| <= 1
  {
    assert |s.producers.Keys - {t}| == 0;
    assert s.producers[t := p].Keys == {t};
  }

  lemma PopIntoHand(a: seq<Request>, q: seq<Request>)
    requires q != []
    ensures a + [] + q == a + [q[0]] + q[1..]
  {
  }

  /** With one producer and one consumer, at every step of every run: no queue
      call is unsafe, and what was accepted is what was handed over, then the
      request in hand, then the queue, in order; with a node manager, what was
      handed over is what was sent. */
  lemma {:induction false} HandOffIsSafe(trace: seq<State>, i: nat)
    requires Run(trace) && i < |trace| && |trace[0].producers| <= 1
    ensures Inv(trace[i]) && |trace[i].producers| <= 1 && trace[i].hasNode == trace[0].hasNode
    ensures forall m :: Enabled(trace[i], m) ==> Safe(trace[i], m)
    ensures trace[i].hasNode ==> trace[i].accepted == trace[i].sent + Hand(trace[i].consumer) + trace[i].queue
    decreases i
  {
    if i > 0 {
      HandOffIsSafe(trace, i - 1);
      assert Step(trace[i - 1], trace[i - 1 + 1]);
      var m: Move :| Enabled(trace[i - 1], m) && (Safe(trace[i - 1], m) ==> trace[i] == Apply(trace[i - 1], m));
      MoveKeepsInv(trace[i - 1], m);
    }
    forall m | Enabled(trace[i], m) ensures Safe(trace[i], m) {
      MoveKeepsInv(trace[i], m);
    }
  }

  // Requests do get through

  /** Moves made one after the other, each enabled and safe. */
  ghost predicate Leads(s: State, moves: seq<Move>, v: State)
    decreases |moves|
  {
    if moves == [] then v == s
    else Enabled(s, moves[0]) && Safe(s, moves[0]) && Leads(Apply(s, moves[0]), moves[1..], v)
  }

  lemma LeadsFirst(s: State, m: Move, moves: seq<Move>, v: State)
    requires Enabled(s, m) && Safe(s, m) && Leads(Apply(s, m), moves, v)
    ensures Leads(s, [m] + moves, v)
  {
    assert ([m] + moves)[1..] == moves;
  }

  lemma {:induction false} LeadsThen(s: State, a: seq<Move>, v: State, b: seq<Move>, w: State)
    requires Leads(s, a, v) && Leads(v, b, w)
    ensures Leads(s, a + b, w)
    decreases |a|
  {
    hide Apply, Enabled, Safe;
    if a == [] {
      assert a + b == b;
    } else {
      assert (a + b)[1..] == a[1..] + b;
      LeadsThen(Apply(s, a[0]), a[1..], v, b, w);
    }
  }

  /** A test for empty leaves the consumer polling if and only if the queue is
      empty, and changes nothing else. */
  lemma TestTellsIff(s: State)
    requires Enabled(s, TestEmpty)
    ensures Apply(s, TestEmpty).consumer == Polling <==> s.queue == []
    ensures Apply(s, TestEmpty).(consumer := Polling) == s
  {
  }

  /** A polling consumer with a request in the queue takes exactly the oldest one,
      hands it over and, with a node, sends it; everything else stays. */
  lemma TakesOldest(s: State) returns (v: State)
    requires s.consumer == Polling && s.queue != []
    ensures Leads(s, [TestEmpty, CopyFront, DoPop, PassOn], v)
    ensures v == s.(queue := s.queue[1..], handed := s.handed + [s.queue[0]],
                    sent := if s.hasNode then s.sent + [s.queue[0]] else s.sent)
  {
    var s1 := Apply(s, TestEmpty);
    var s2 := Apply(s1, CopyFront);
    var s3 := Apply(s2, DoPop);
    v := Apply(s3, PassOn);
    LeadsFirst(s3, PassOn, [], v);
    LeadsFirst(s2, DoPop, [PassOn] + [], v);
    LeadsFirst(s1, CopyFront, [DoPop] + ([PassOn] + []), v);
    LeadsFirst(s, TestEmpty, [CopyFront] + ([DoPop] + ([PassOn] + [])), v);
    assert [TestEmpty] + ([CopyFront] + ([DoPop] + ([PassOn] + []))) == [TestEmpty, CopyFront, DoPop, PassOn];
  }

  /** Every request accepted so far can be passed on by the consumer alone. */
  lemma {:induction false} AllCanBeSent(s: State) returns (moves: seq<Move>, v: State)
    requires Inv(s)
    ensures Leads(s, moves, v) && forall m :: m in moves ==> !m.TestFull? && !m.DoPush?
    ensures v.consumer == Polling && v.queue == [] && v.producers == s.producers && v.hasNode == s.hasNode
    ensures v.accepted == s.accepted == v.handed && v.sent == if s.hasNode then s.accepted else []
    decreases |s.queue|, Distance(s.consumer)
  {
    if s.consumer == Polling && s.queue == [] {
      moves, v := [], s;
    } else {
      var m := match s.consumer case Polling => TestEmpty case SawItem => CopyFront case Copied(_) => DoPop case InHand(_) => PassOn;
      ConsumerKeepsInv(s, m);
      moves, v := AllCanBeSent(Apply(s, m));
      LeadsFirst(s, m, moves, v);
      moves := [m] + moves;
    }
  }

  /** Steps to the next poll, and polling with something to take counts as far. */
  function Distance(c: Consumer): nat {
    match c case Polling => 3 case SawItem => 2 case Copied(_) => 1 case InHand(_) => 4
  }

  /** What the consumer does keeps the invariant, whatever the producers. */
  lemma ConsumerKeepsInv(s: State, m: Move)
    requires Inv(s) && Enabled(s, m) && !m.TestFull? && !m.DoPush?
    ensures Safe(s, m) && Inv(Apply(s, m))
    ensures Apply(s, m).producers == s.producers && Apply(s, m).hasNode == s.hasNode && Apply(s, m).accepted == s.accepted
  {
    if m.DoPop? {
      PopIntoHand(s.handed, s.queue);
    }
  }

  /** A producer that finds room gets its request accepted behind the others; one
      that finds the queue full drops it, and nothing changes. */
  lemma PutsLast(s: State, t: Tid, r: Request) returns (v: State)
    requires t in s.producers && s.producers[t] == Ready
    ensures |s.queue| < 128 ==>
              && Leads(s, [TestFull(t, r), DoPush(t)], v)
              && v == s.(queue := s.queue + [r], accepted := s.accepted + [r])
    ensures |s.queue| >= 128 ==> Leads(s, [TestFull(t, r)], v) && v == s
  {
    var s1 := Apply(s, TestFull(t, r));
    if |s.queue| < 128 {
      v := Apply(s1, DoPush(t));
      assert v.producers == s.producers;
      LeadsFirst(s1, DoPush(t), [], v);
      LeadsFirst(s, TestFull(t, r), [DoPush(t)] + [], v);
      assert [TestFull(t, r)] + ([DoPush(t)] + []) == [TestFull(t, r), DoPush(t)];
    } else {
      v := s1;
      LeadsFirst(s, TestFull(t, r), [], v);
      assert [TestFull(t, r)] + [] == [TestFull(t, r)];
    }
  }

  // Exactly one producer

  /** Every enabled move of every state of the run is safe. */
  ghost predicate AlwaysSafe(trace: seq<State>) {
    forall i, m :: 0 <= i < |trace| && Enabled(trace[i], m) ==> Safe(trace[i], m)
  }

  ghost predicate RunOf(trace: seq<State>, producers: set<Tid>) {
    Run(trace) && trace[0].producers.Keys == producers
  }

  function Last(trace: seq<State>): State
    requires trace != []
  {
    trace[|trace| - 1]
  }

  lemma Extend(trace: seq<State>, m: Move) returns (longer: seq<State>)
    requires Run(trace) && Enabled(Last(trace), m) && Safe(Last(trace), m)
    ensures Run(longer) && longer[0] == trace[0] && Last(longer) == Apply(Last(trace), m)
  {
    longer := trace + [Apply(Last(trace), m)];
    assert Step(Last(trace), Last(longer));
    forall i | 0 <= i < |longer| - 1 ensures Step(longer[i], longer[i + 1]) {
      if i < |trace| - 1 {
        assert Step(trace[i], trace[i + 1]);
      }
    }
  }

  /** While the consumer has not started, a producer can fill any number of places. */
  lemma {:induction false} FilledUpTo(producers: set<Tid>, t: Tid, r: Request, n: nat) returns (trace: seq<State>)
    requires t in producers && n < MAX_TASKS
    ensures RunOf(trace, producers)
    ensures |Last(trace).queue| == n && Last(trace).producers == map p | p in producers :: Ready
    decreases n
  {
    if n == 0 {
      trace := [State([], map p | p in producers :: Ready, Polling, true, [], [], [])];
    } else {
      trace := FilledUpTo(producers, t, r, n - 1);
      trace := Extend(trace, TestFull(t, r));
      trace := Extend(trace, DoPush(t));
    }
  }

  /** A second producer is enough to break it: both see the last free place of a
      queue that was filled from the start, and the second push goes into a full
      queue. */
  lemma TwoProducersOverflow(producers: set<Tid>, t: Tid, u: Tid, r: Request) returns (trace: seq<State>)
    requires t in producers && u in producers && t != u
    ensures RunOf(trace, producers)
    ensures Enabled(Last(trace), DoPush(u)) && |Last(trace).queue| == 128
  {
    trace := FilledUpTo(producers, t, r, MAX_TASKS - 1);
    trace := Extend(trace, TestFull(t, r));
    trace := Extend(trace, TestFull(u, r));
    trace := Extend(trace, DoPush(t));
  }

  /** Every run over a set of producers makes safe queue calls only if and only if
      there is at most one of them. */
  lemma SafeIffOneProducer(producers: set<Tid>)
    ensures (forall trace: seq<State> :: RunOf(trace, producers) ==> AlwaysSafe(trace)) <==> |producers| <= 1
  {
    if |producers| <= 1 {
      forall trace: seq<State> | RunOf(trace, producers) ensures AlwaysSafe(trace) {
        assert |trace[0].producers.Keys| <= 1;
        forall i, m | 0 <= i < |trace| && Enabled(trace[i], m) ensures Safe(trace[i], m) {
          HandOffIsSafe(trace, i);
        }
      }
    } else {
      var t :| t in producers;
      assert |producers - {t}| > 0;
      var u :| u in producers - {t};
      var trace := TwoProducersOverflow(producers, t, u, Request(0, ""));
      assert !Safe(trace[|trace| - 1], DoPush(u));
    }
  }
}
