/** Who gets the tokens. Clients and mappings are known by descriptors, and the
    kernel reuses descriptors; here every accepted connection has a number, and a
    mapping remembers the connection it was registered for. */
module Connections {
  import opened Common
  import opened Pump
  import opened Streams
  import opened Sweep

  /** A mapping and the number of the connection it was registered for. */
  datatype Route = Route(mapping: Mapping, conn: nat)

  /** `holder` is the last connection accepted on each descriptor, `next` the
      number of the next one. */
  datatype World = World(clients: seq<ClientInfo>, routes: seq<Route>, holder: map<int, nat>, next: nat)

  const START: World := World([], [], map[], 1)

  function Mappings(routes: seq<Route>): (requests: seq<Mapping>)
    ensures |requests| == |routes|
  {
    if routes == [] then [] else [routes[0].mapping] + Mappings(routes[1..])
  }

  /** What the code sees of it. */
  function Plain(w: World): Table {
    Table(w.clients, Mappings(w.routes))
  }

  function DropRoutes(routes: seq<Route>, sockets: set<int>): seq<Route> {
    if routes == [] then []
    else (if routes[0].mapping.clientSocket in sockets then [] else [routes[0]]) + DropRoutes(routes[1..], sockets)
  }

  /** The connection last accepted on a descriptor; 0 if none ever was. */
  function Last(w: World, fd: int): nat {
    if fd in w.holder then w.holder[fd] else 0
  }

  /** A step, and for a registration the connection whose request it registers:
      by then that connection may have left, and its descriptor may be another's. */
  datatype Event = Event(step: Step, conn: nat)

  function Advance(reading: Reading, w: World, e: Event): World {
    match e.step
    case Accept(fd) =>
      if AcceptClient(w.clients, fd) == w.clients then w
      else World(AcceptClient(w.clients, fd), w.routes, w.holder[fd := w.next], w.next + 1)
    case Register(m) => w.(routes := w.routes + [Route(m, e.conn)])
    case Retire(at) => if at < |w.routes| then w.(routes := w.routes[..at] + w.routes[at + 1..]) else w
    case SweepReadable(events) =>
      w.(clients := Swept(reading, Plain(w), events).clients,
         routes := DropRoutes(w.routes, DroppedBy(reading, w.clients, events)))
  }

  // The numbers change nothing

  lemma {:induction false} MappingsAppend(a: seq<Route>, b: seq<Route>)
    ensures Mappings(a + b) == Mappings(a) + Mappings(b)
  {
    if a == [] {
      assert a + b == b;
    } else {
      assert (a + b)[1..] == a[1..] + b;
      MappingsAppend(a[1..], b);
    }
  }

  lemma {:induction false} MappingsAt(routes: seq<Route>, i: nat)
    requires i < |routes|
    ensures Mappings(routes)[i] == routes[i].mapping
    ensures Mappings(routes[..i]) == Mappings(routes)[..i] && Mappings(routes[i + 1..]) == Mappings(routes)[i + 1..]
  {
    assert routes == routes[..i] + routes[i..] && routes[i..] == [routes[i]] + routes[i + 1..];
    MappingsAppend(routes[..i], routes[i..]);
    MappingsAppend([routes[i]], routes[i + 1..]);
  }

  lemma {:induction false} DropRoutesIsDropAll(routes: seq<Route>, sockets: set<int>)
    ensures Mappings(DropRoutes(routes, sockets)) == DropAll(Mappings(routes), sockets)
    ensures forall r :: r in DropRoutes(routes, sockets) ==> r in routes
  {
    if routes != [] {
      DropRoutesIsDropAll(routes[1..], sockets);
      var kept := DropRoutes(routes[1..], sockets);
      assert [] + kept == kept && ([routes[0]] + kept)[1..] == kept;
      assert routes == [routes[0]] + routes[1..];
    }
  }

  /** Without the numbers every step is the step of the table. */
  lemma AdvanceIsNext(reading: Reading, w: World, e: Event)
    ensures Plain(Advance(reading, w, e)) == Next(reading, Plain(w), e.step)
  {
    hide Swept, DroppedBy, AcceptClient;
    match e.step
    case Accept(fd) =>
    case Register(m) => MappingsAppend(w.routes, [Route(m, e.conn)]);
    case Retire(at) =>
      if at < |w.routes| {
        MappingsAt(w.routes, at);
        MappingsAppend(w.routes[..at], w.routes[at + 1..]);
      }
    case SweepReadable(events) =>
      SweptIs(reading, Plain(w), events);
      DropRoutesIsDropAll(w.routes, DroppedBy(reading, w.clients, events));
  }

  // Who is reached

  /** A mapping whose descriptor belongs to a client belongs to that very
      connection: no send the table could make reaches another one. */
  ghost predicate Faithful(w: World) {
    forall r :: r in w.routes && HasClient(w.clients, r.mapping.clientSocket) ==> Last(w, r.mapping.clientSocket) == r.conn
  }

  ghost predicate FaithfulThroughout(reading: Reading, w: World, events: seq<Event>)
    decreases |events|
  {
    Faithful(w) && (events != [] ==> FaithfulThroughout(reading, Advance(reading, w, events[0]), events[1..]))
  }

  /** `accept` returns a descriptor that is not in use, and a request comes from a
      connection that was accepted. */
  ghost predicate Possible(w: World, e: Event) {
    && (e.step.Accept? && e.step.fd >= 0 ==> !HasClient(w.clients, e.step.fd))
    && (e.step.Register? ==> e.conn < w.next)
  }

  ghost predicate PossibleRun(reading: Reading, w: World, events: seq<Event>)
    decreases |events|
  {
    events != [] ==> Possible(w, events[0]) && PossibleRun(reading, Advance(reading, w, events[0]), events[1..])
  }

  /** A connection joins on a descriptor that still has a mapping. */
  predicate Inherits(w: World, e: Event) {
    e.step.Accept? && AcceptClient(w.clients, e.step.fd) != w.clients && HasMapping(Mappings(w.routes), e.step.fd)
  }

  /** A request is registered whose connection has left and whose descriptor
      already belongs to another one. */
  ghost predicate TooLate(w: World, e: Event) {
    e.step.Register? && HasClient(w.clients, e.step.mapping.clientSocket) && e.conn != Last(w, e.step.mapping.clientSocket)
  }

  ghost predicate NothingMisplaced(reading: Reading, w: World, events: seq<Event>)
    decreases |events|
  {
    events != [] ==>
      && !Inherits(w, events[0]) && !TooLate(w, events[0])
      && NothingMisplaced(reading, Advance(reading, w, events[0]), events[1..])
  }

  /** Numbers are handed out once. */
  ghost predicate Numbered(w: World) {
    && 0 < w.next
    && (forall fd :: fd in w.holder ==> w.holder[fd] < w.next)
    && (forall r :: r in w.routes ==> r.conn < w.next)
    && (forall c :: c in w.clients ==> c.fd in w.holder)
  }

  lemma {:induction false} MappingOf(routes: seq<Route>, m: Mapping)
    requires m in Mappings(routes)
    ensures exists r :: r in routes && r.mapping == m
  {
    var i :| 0 <= i < |routes| && Mappings(routes)[i] == m;
    MappingsAt(routes, i);
    assert routes[i] in routes;
  }

  lemma MappingIn(routes: seq<Route>, r: Route)
    requires r in routes
    ensures r.mapping in Mappings(routes)
  {
    var i :| 0 <= i < |routes| && routes[i] == r;
    MappingsAt(routes, i);
  }

  /** A step keeps every send faithful exactly when nobody inherits a mapping and
      no registration is too late. */
  lemma StepFaithfulIff(reading: Reading, w: World, e: Event)
    requires Numbered(w) && Faithful(w) && Possible(w, e)
    ensures Numbered(Advance(reading, w, e))
    ensures Faithful(Advance(reading, w, e)) <==> !Inherits(w, e) && !TooLate(w, e)
  {
    match e.step
    case Accept(fd) => AcceptFaithfulIff(reading, w, e);
    case Register(m) => assert Route(m, e.conn) in Advance(reading, w, e).routes;
    case Retire(at) =>
    case SweepReadable(events) => SweepKeepsFaithful(reading, w, e);
  }

  lemma SweepKeepsFaithful(reading: Reading, w: World, e: Event)
    requires Numbered(w) && Faithful(w) && e.step.SweepReadable?
    ensures Numbered(Advance(reading, w, e)) && Faithful(Advance(reading, w, e))
  {
    hide Swept, DroppedBy;
    var after, events := Advance(reading, w, e), e.step.events;
    SweptIs(reading, Plain(w), events);
    LiveMembers(w.clients, events);
    DropRoutesIsDropAll(w.routes, DroppedBy(reading, w.clients, events));
    forall r | r in after.routes && HasClient(after.clients, r.mapping.clientSocket)
      ensures Last(w, r.mapping.clientSocket) == r.conn
    {
      assert r in w.routes && HasClient(w.clients, r.mapping.clientSocket);
    }
  }

  lemma AcceptFaithfulIff(reading: Reading, w: World, e: Event)
    requires Numbered(w) && Faithful(w) && e.step.Accept? && Possible(w, e)
    ensures Numbered(Advance(reading, w, e))
    ensures Faithful(Advance(reading, w, e)) <==> !Inherits(w, e)
  {
    var after, fd := Advance(reading, w, e), e.step.fd;
    if AcceptClient(w.clients, fd) != w.clients {
      assert after.clients[|w.clients|] == ClientInfo(fd, true);
      assert HasClient(after.clients, fd);
      if HasMapping(Mappings(w.routes), fd) {
        var m :| m in Mappings(w.routes) && m.clientSocket == fd;
        MappingOf(w.routes, m);
        var r :| r in w.routes && r.mapping == m;
        assert r in after.routes && Last(after, fd) == w.next;
      } else {
        forall r | r in after.routes && HasClient(after.clients, r.mapping.clientSocket)
          ensures Last(after, r.mapping.clientSocket) == r.conn
        {
          MappingIn(w.routes, r);
          var c :| c in after.clients && c.fd == r.mapping.clientSocket;
          assert c in w.clients;
        }
      }
    }
  }

  /** Over every run, however it sweeps and whenever it registers: every possible
      send reaches only the connection its mapping was registered for, at every
      step, exactly when no connection is accepted on a descriptor that still has
      a mapping and no registration comes after its descriptor was taken over. */
  lemma {:induction false} FaithfulThroughoutIff(reading: Reading, w: World, events: seq<Event>)
    requires Numbered(w) && Faithful(w) && PossibleRun(reading, w, events)
    ensures FaithfulThroughout(reading, w, events) <==> NothingMisplaced(reading, w, events)
    decreases |events|
  {
    hide Advance, Numbered, Faithful, Possible, Inherits, TooLate;
    if events != [] {
      StepFaithfulIff(reading, w, events[0]);
      if Faithful(Advance(reading, w, events[0])) {
        FaithfulThroughoutIff(reading, Advance(reading, w, events[0]), events[1..]);
      } else {
        NotFaithful(reading, Advance(reading, w, events[0]), events[1..]);
      }
    }
  }

  lemma NotFaithful(reading: Reading, w: World, events: seq<Event>)
    requires !Faithful(w)
    ensures !FaithfulThroughout(reading, w, events)
  {
  }

  /** Every request is registered while its connection is still there. */
  ghost predicate Prompt(reading: Reading, w: World, events: seq<Event>)
    decreases |events|
  {
    events != [] ==>
      && (events[0].step.Register? ==>
            HasClient(w.clients, events[0].step.mapping.clientSocket)
            && events[0].conn == Last(w, events[0].step.mapping.clientSocket))
      && Prompt(reading, Advance(reading, w, events[0]), events[1..])
  }

  /** With the descriptor read before the erase and every request registered while
      its connection is there, nothing is ever misplaced. */
  lemma {:induction false} CapturedMisplacesNothing(w: World, events: seq<Event>)
    requires |w.clients| <= MAX_CLIENTS && DistinctSockets(w.clients) && Owned(Plain(w))
    requires PossibleRun(BeforeErase, w, events) && Prompt(BeforeErase, w, events)
    ensures NothingMisplaced(BeforeErase, w, events)
    decreases |events|
  {
    hide Advance, DistinctSockets, Next;
    if events != [] {
      var e := events[0];
      OwnedIsNotInherited(w, e);
      AdvanceIsNext(BeforeErase, w, e);
      StepKeepsOwnedIff(BeforeErase, Plain(w), e.step);
      StepKeepsClients(BeforeErase, Plain(w), e.step);
      CapturedMisplacesNothing(Advance(BeforeErase, w, e), events[1..]);
    }
  }

  /** A mapping with a client is not inherited. */
  lemma OwnedIsNotInherited(w: World, e: Event)
    requires Owned(Plain(w)) && Possible(w, e)
    ensures !Inherits(w, e)
  {
  }

  /** From the empty table, with both, no token of any run reaches a stranger. */
  lemma CapturedIsFaithful(events: seq<Event>)
    requires PossibleRun(BeforeErase, START, events) && Prompt(BeforeErase, START, events)
    ensures FaithfulThroughout(BeforeErase, START, events)
  {
    CapturedMisplacesNothing(START, events);
    FaithfulThroughoutIff(BeforeErase, START, events);
  }

  /** In a faithful table everything a pass sends is sent for a request of the
      very connection that its socket reaches. */
  lemma PassIsFaithful(w: World, streams: map<string, Stream>)
    requires Faithful(w) && AllWf(streams)
    ensures forall e :: e in VisitAll(Mappings(w.routes), streams).log && HasClient(w.clients, e.socket) ==>
              AskedBy(w, e, Last(w, e.socket))
  {
    PassSends(Mappings(w.routes), streams);
    forall e | e in VisitAll(Mappings(w.routes), streams).log && HasClient(w.clients, e.socket)
      ensures AskedBy(w, e, Last(w, e.socket))
    {
      var m :| m in Mappings(w.routes) && m.active && m.requestId == e.requestId && m.clientSocket == e.socket;
      MappingOf(w.routes, m);
    }
  }

  /** The request behind a send is one of the connection's own. */
  ghost predicate AskedBy(w: World, e: Sent, conn: nat) {
    exists r :: r in w.routes && r.mapping.requestId == e.requestId && r.mapping.clientSocket == e.socket && r.conn == conn
  }

  function RunWorld(reading: Reading, w: World, events: seq<Event>): World
    decreases |events|
  {
    if events == [] then w else RunWorld(reading, Advance(reading, w, events[0]), events[1..])
  }

  // How a stranger gets tokens

  /** The run is possible, its registrations are prompt, and it leads to v. */
  ghost predicate Leads(reading: Reading, w: World, events: seq<Event>, v: World) {
    PossibleRun(reading, w, events) && Prompt(reading, w, events) && RunWorld(reading, w, events) == v
  }

  lemma FirstStep(reading: Reading, w: World, e: Event, next: World, rest: seq<Event>, v: World)
    requires Possible(w, e) && Advance(reading, w, e) == next && Leads(reading, next, rest, v)
    requires e.step.Register? ==> HasClient(w.clients, e.step.mapping.clientSocket) && e.conn == Last(w, e.step.mapping.clientSocket)
    ensures Leads(reading, w, [e] + rest, v)
  {
    assert ([e] + rest)[1..] == rest;
  }

  const ASKED_A: Mapping := Mapping(7, "a", true)
  const ASKED_B: Mapping := Mapping(8, "b", true)

  /** Two clients with a request each. */
  const BOTH_ASKED: World :=
    World([ClientInfo(7, true), ClientInfo(8, true)], [Route(ASKED_A, 1), Route(ASKED_B, 2)], map[7 := 1, 8 := 2], 3)

  /** The first one has left. */
  const ONE_LEFT: World :=
    World([ClientInfo(8, true)], [Route(ASKED_A, 1)], map[7 := 1, 8 := 2], 3)

  /** A new connection has its descriptor. */
  const REUSED: World :=
    World([ClientInfo(8, true), ClientInfo(7, true)], [Route(ASKED_A, 1)], map[7 := 3, 8 := 2], 4)

  lemma BothAsk(rest: seq<Event>, v: World) returns (events: seq<Event>)
    requires Leads(AfterErase, BOTH_ASKED, rest, v)
    ensures Leads(AfterErase, START, events, v)
  {
    var c7, c8 := ClientInfo(7, true), ClientInfo(8, true);
    var w1, w2 := World([c7], [], map[7 := 1], 2), World([c7, c8], [], map[7 := 1, 8 := 2], 3);
    var w3 := w2.(routes := [Route(ASKED_A, 1)]);
    assert c7 in w2.clients && c8 in w3.clients;
    hide Leads;
    FirstStep(AfterErase, w3, Event(Register(ASKED_B), 2), BOTH_ASKED, rest, v);
    events := [Event(Register(ASKED_B), 2)] + rest;
    FirstStep(AfterErase, w2, Event(Register(ASKED_A), 1), w3, events, v);
    events := [Event(Register(ASKED_A), 1)] + events;
    FirstStep(AfterErase, w1, Event(Accept(8), 0), w2, events, v);
    events := [Event(Accept(8), 0)] + events;
    FirstStep(AfterErase, START, Event(Accept(7), 0), w1, events, v);
    events := [Event(Accept(7), 0)] + events;
  }

  lemma FirstLeaves() returns (events: seq<Event>)
    ensures Leads(AfterErase, BOTH_ASKED, events, REUSED)
  {
    var t, readable := SweepHitsTheNeighbour();
    assert Plain(BOTH_ASKED) == t by {
      var b := BOTH_ASKED.routes[1..];
      assert b == [Route(ASKED_B, 2)] && b[1..] == [] && Mappings(b) == [ASKED_B];
    }
    SweepLeavesFirst(t, readable);
    hide SweepTable;
    FirstStep(AfterErase, ONE_LEFT, Event(Accept(7), 0), REUSED, [], REUSED);
    events := [Event(Accept(7), 0)] + [];
    FirstStep(AfterErase, BOTH_ASKED, Event(SweepReadable(readable), 0), ONE_LEFT, events, REUSED);
    events := [Event(SweepReadable(readable), 0)] + events;
  }

  lemma SweepLeavesFirst(t: Table, readable: Readable)
    requires t == Plain(BOTH_ASKED) && SweepTable(t, readable) == Table([ClientInfo(8, true)], [ASKED_A])
    ensures Advance(AfterErase, BOTH_ASKED, Event(SweepReadable(readable), 0)) == ONE_LEFT
  {
    var e := Event(SweepReadable(readable), 0);
    var after := Advance(AfterErase, BOTH_ASKED, e);
    AdvanceIsNext(AfterErase, BOTH_ASKED, e);
    DropRoutesIsDropAll(BOTH_ASKED.routes, DroppedBy(AfterErase, BOTH_ASKED.clients, readable));
    assert |after.routes| == 1 && after.routes[0] in after.routes;
    MappingsAt(after.routes, 0);
  }

  /** As the code reads it, six ordinary steps are enough: two clients ask, the
      first one leaves, and the next connection gets its descriptor. The pump then
      sends the token of connection 1 to connection 3. */
  lemma StrangerGetsTokens(token: string) returns (events: seq<Event>, w: World, streams: map<string, Stream>)
    ensures Leads(AfterErase, START, events, w)
    ensures w.routes == [Route(ASKED_A, 1)] && HasClient(w.clients, 7) && Last(w, 7) == 3
    ensures AllWf(streams) && VisitAll(Mappings(w.routes), streams).log == [Sent(7, "a", token)]
  {
    events := FirstLeaves();
    events := BothAsk(events, REUSED);
    w := REUSED;
    assert w.clients[1].fd == 7 && HasClient(w.clients, 7);
    streams := map["a" := Stream([token], Some(0), false)];
  }
}
