/** Delivery to one request while the gateway is busy with any number of others:
    exactly what is sent for it, to whom, and when its list is freed. */
module Traffic {
  import opened Common
  import opened Streams
  import opened Pump
  import Delivery
  import opened SystemDelivery

  function Passes(events: seq<Event>): nat {
    if events == [] then 0 else (if events[0].PumpPass? then 1 else 0) + Passes(events[1..])
  }

  function Min(a: nat, b: nat): nat { if a < b then a else b }

  /** The tokens n visits take from a list. */
  function Taken(list: Option<Stream>, n: nat): seq<string>
    requires list.Some? ==> list.value.Wf()
  {
    if list.None? then [] else list.value.Ahead()[..Min(n, list.value.Remaining())]
  }

  // Numbers of visits

  lemma {:induction false} VisitsCount(requests: seq<Mapping>, id: string)
    ensures |Visits(requests, id)| == Users(requests, id)
    ensures forall op :: op in Visits(requests, id) ==> op == Delivery.Visit
  {
    if requests != [] {
      var m, rest := requests[0], requests[1..];
      VisitsCount(rest, id);
      assert [m] + rest == requests;
      UsersCons(m, rest, id);
    }
  }

  /** One visit more. */
  lemma TakeOne(list: Option<Stream>, n: nat)
    requires list.Some? ==> list.value.Wf()
    ensures var before := RestAfter(list, n);
            Taken(list, n + 1) == Taken(list, n) + if before.None? then [] else Delivery.Leaving(VisitToken(before.value))
  {
    if list.Some? {
      RestClosed(list.value, n);
    } else {
      NoListAfter(n);
    }
  }

  /** Nothing but visits: the list is what they leave, and what they take is sent. */
  lemma {:induction false} VisitsServe(t: Delivery.Track, ops: seq<Delivery.Op>)
    requires t.Wf() && forall op :: op in ops ==> op == Delivery.Visit
    ensures Delivery.Run(t, ops) == Delivery.Track(RestAfter(t.list, |ops|), t.added, t.sent + Taken(t.list, |ops|))
    decreases |ops|
  {
    if ops == [] {
      assert t.sent + Taken(t.list, 0) == t.sent;
    } else {
      var n := |ops| - 1;
      var first, last := ops[..n], [ops[n]];
      assert ops == first + last && last[1..] == [];
      assert ops[n] in ops && forall op :: op in first ==> op in ops;
      VisitsServe(t, first);
      Delivery.RunAppend(t, first, last);
      TakeOne(t.list, n);
      var before := RestAfter(t.list, n);
      Regroup(t.sent, Taken(t.list, n), if before.None? then [] else Delivery.Leaving(VisitToken(before.value)));
    }
  }

  /** Visits add up. */
  lemma {:induction false} VisitsAddUp(list: Option<Stream>, a: nat, b: nat)
    requires list.Some? ==> list.value.Wf()
    ensures RestAfter(RestAfter(list, a), b) == RestAfter(list, a + b)
    ensures Taken(list, a) + Taken(RestAfter(list, a), b) == Taken(list, a + b)
  {
    hide Taken, VisitRest, VisitToken;
    var mid := RestAfter(list, a);
    if b == 0 {
      TakeNone(mid);
      assert Taken(list, a) + [] == Taken(list, a);
    } else {
      VisitsAddUp(list, a, b - 1);
      TakeOne(list, a + b - 1);
      TakeOne(mid, b - 1);
      var last := RestAfter(mid, b - 1);
      Regroup(Taken(list, a), Taken(mid, b - 1), if last.None? then [] else Delivery.Leaving(VisitToken(last.value)));
    }
  }

  lemma TakeNone(list: Option<Stream>)
    requires list.Some? ==> list.value.Wf()
    ensures Taken(list, 0) == []
  {
  }

  // One pass

  /** A pass, for any one id and in any table: a visit for every active mapping. */
  lemma PassServes(sys: System, id: string)
    requires AllWf(sys.streams)
    ensures var n := Users(sys.requests, id);
            && Lookup(Pass(sys).streams, id) == RestAfter(Lookup(sys.streams, id), n)
            && SentFor(Pass(sys).log, id) == SentFor(sys.log, id) + Taken(Lookup(sys.streams, id), n)
  {
    VisitsCount(sys.requests, id);
    StepProjects(sys, PumpPass, id, []);
    VisitsServe(TrackOf(sys, id, []), Visits(sys.requests, id));
  }

  /** A list that is there after a visit was there before. */
  lemma ListsOnlyGo(streams: map<string, Stream>, done: seq<Mapping>, rest: seq<Mapping>, id: string)
    requires AllWf(streams)
    ensures ListAt(streams, done + rest, id).Some? ==> ListAt(streams, done, id).Some?
    ensures id !in streams ==> ListAt(streams, done, id).None?
  {
    UsersAppend(done, rest, id);
    VisitsAddUp(Lookup(streams, id), Users(done, id), Users(rest, id));
    NoListAfter(Users(rest, id));
    NoListAfter(Users(done, id));
  }

  lemma {:induction false} KeptUsers(streams: map<string, Stream>, done: seq<Mapping>, todo: seq<Mapping>, id: string)
    requires AllWf(streams)
    ensures ListAt(streams, done + todo, id).Some? ==> Users(Kept(streams, done, todo), id) == Users(todo, id)
    ensures id !in streams ==> Users(Kept(streams, done, todo), id) == 0
    decreases |todo|
  {
    if todo != [] {
      var m, rest := todo[0], todo[1..];
      var here := if m.active && ListAt(streams, done + [m], m.requestId).Some? then [m] else [];
      var later := Kept(streams, done + [m], rest);
      assert done + [m] + rest == done + todo && [m] + rest == todo;
      KeptUsers(streams, done + [m], rest, id);
      assert here == [] ==> here + later == later;
      UsersCons(m, later, id);
      UsersCons(m, rest, id);
      ListsOnlyGo(streams, done + [m], rest, id);
    }
  }

  /** A pass keeps all the mappings of an id while its list is there, and drops
      all of them when there was none. */
  lemma PassKeepsUsers(sys: System, id: string)
    requires AllWf(sys.streams)
    ensures id in Pass(sys).streams ==> Users(Pass(sys).requests, id) == Users(sys.requests, id)
    ensures id !in sys.streams ==> Users(Pass(sys).requests, id) == 0 && id !in Pass(sys).streams
  {
    PassExactly(sys);
    assert [] + sys.requests == sys.requests;
    KeptUsers(sys.streams, [], sys.requests, id);
    assert Lookup(Pass(sys).streams, id) == RestAfter(Lookup(sys.streams, id), Users(sys.requests, id));
    NoListAfter(Users(sys.requests, id));
  }

  // Traffic

  /** The active mappings of the id are on these sockets. */
  ghost predicate OnSockets(requests: seq<Mapping>, id: string, sockets: set<int>) {
    forall m :: m in requests && m.active && m.requestId == id ==> m.clientSocket in sockets
  }

  predicate Registers(e: Event, id: string) {
    e.Register? && e.mapping.active && e.mapping.requestId == id
  }

  /** The id is registered on these sockets only, and none of them is disconnected. */
  predicate Connected(e: Event, id: string, sockets: set<int>) {
    && (Registers(e, id) ==> e.mapping.clientSocket in sockets)
    && (e.Disconnect? ==> e.socket !in sockets)
  }

  /** Besides, no token arrives for the id and its output is not reset. */
  predicate Waiting(e: Event, id: string, sockets: set<int>) {
    Connected(e, id, sockets) && !(e.AddToken? && e.id == id) && e != ResetOutput(id)
  }

  /** Nor is it registered. What happens to all other ids and sockets is arbitrary. */
  predicate Quiet(e: Event, id: string, sockets: set<int>) {
    Waiting(e, id, sockets) && !Registers(e, id)
  }

  ghost predicate AllQuiet(events: seq<Event>, id: string, sockets: set<int>) {
    forall e :: e in events ==> Quiet(e, id, sockets)
  }

  lemma {:induction false} DropSocketUsers(requests: seq<Mapping>, socket: int, id: string, sockets: set<int>)
    requires OnSockets(requests, id, sockets) && socket !in sockets
    ensures Users(DropSocket(requests, socket), id) == Users(requests, id)
    ensures OnSockets(DropSocket(requests, socket), id, sockets)
  {
    hide Users;
    if requests != [] {
      var m, rest := requests[0], requests[1..];
      assert requests == [m] + rest && m in requests && forall x :: x in rest ==> x in requests;
      DropSocketUsers(rest, socket, id, sockets);
      var kept := DropSocket(rest, socket);
      UsersCons(m, rest, id);
      UsersCons(m, kept, id);
      assert DropSocket(requests, socket) == if m.clientSocket == socket then kept else [m] + kept;
    }
  }

  lemma PassKeepsSockets(sys: System, id: string, sockets: set<int>)
    requires AllWf(sys.streams) && OnSockets(sys.requests, id, sockets)
    ensures OnSockets(Pass(sys).requests, id, sockets)
    ensures sys.log <= Pass(sys).log
    ensures forall e :: e in Pass(sys).log[|sys.log|..] && e.requestId == id ==> e.socket in sockets
  {
    PassSends(sys.requests, sys.streams);
    assert Pass(sys).log[|sys.log|..] == VisitAll(sys.requests, sys.streams).log;
  }

  /** Events that leave the connections of an id alone leave its mappings alone as
      long as it has a list; without a list, only a pass takes them. */
  lemma StepKeepsUsers(sys: System, e: Event, id: string, sockets: set<int>)
    requires AllWf(sys.streams) && OnSockets(sys.requests, id, sockets) && Connected(e, id, sockets)
    ensures OnSockets(Step(sys, e).requests, id, sockets)
    ensures !e.PumpPass? || id in Step(sys, e).streams ==>
              Users(Step(sys, e).requests, id) == Users(sys.requests, id) + if Registers(e, id) then 1 else 0
    ensures e.PumpPass? && id !in sys.streams ==> Users(Step(sys, e).requests, id) == 0
  {
    match e
    case Register(m) => UsersNext(sys.requests, m, id);
    case Disconnect(socket) => DropSocketUsers(sys.requests, socket, id, sockets);
    case PumpPass =>
      PassKeepsUsers(sys, id);
      PassKeepsSockets(sys, id, sockets);
    case _ =>
  }

  /** One step, for the list and for what was sent. */
  lemma StepServes(sys: System, e: Event, id: string, sockets: set<int>)
    requires AllWf(sys.streams) && OnSockets(sys.requests, id, sockets) && Waiting(e, id, sockets)
    ensures var n := if e.PumpPass? then Users(sys.requests, id) else 0;
            var list, next := Lookup(sys.streams, id), Lookup(Step(sys, e).streams, id);
            && SentFor(Step(sys, e).log, id) == SentFor(sys.log, id) + Taken(list, n)
            && (e != MarkFinished(id) ==> next == RestAfter(list, n))
            && (e == MarkFinished(id) ==> next == if list.None? then None else Some(list.value.Finish()))
  {
    if e.PumpPass? {
      PassServes(sys, id);
    } else {
      assert SentFor(sys.log, id) + [] == SentFor(sys.log, id);
    }
  }

  lemma NewSends(log: seq<Sent>, before: seq<Sent>, after: seq<Sent>, id: string, sockets: set<int>)
    requires log <= before <= after
    requires forall e :: e in before[|log|..] && e.requestId == id ==> e.socket in sockets
    requires forall e :: e in after[|before|..] && e.requestId == id ==> e.socket in sockets
    ensures forall e :: e in after[|log|..] && e.requestId == id ==> e.socket in sockets
  {
    assert after[|log|..] == before[|log|..] + after[|before|..];
  }

  /** Whatever happens, sends for the id go to its sockets only. */
  lemma {:induction false} SentToItsSockets(sys: System, events: seq<Event>, id: string, sockets: set<int>)
    requires AllWf(sys.streams) && OnSockets(sys.requests, id, sockets)
    requires forall e :: e in events ==> Connected(e, id, sockets)
    ensures sys.log <= Run(sys, events).log
    ensures forall e :: e in Run(sys, events).log[|sys.log|..] && e.requestId == id ==> e.socket in sockets
    decreases |events|
  {
    hide Step, Connected;
    if events != [] {
      assert events[0] in events && forall e :: e in events[1..] ==> e in events;
      var next := Step(sys, events[0]);
      StepKeepsUsers(sys, events[0], id, sockets);
      StepSends(sys, events[0], id, sockets);
      SentToItsSockets(next, events[1..], id, sockets);
      NewSends(sys.log, next.log, Run(next, events[1..]).log, id, sockets);
    }
  }

  lemma StepSends(sys: System, e: Event, id: string, sockets: set<int>)
    requires AllWf(sys.streams) && OnSockets(sys.requests, id, sockets)
    ensures sys.log <= Step(sys, e).log
    ensures forall x :: x in Step(sys, e).log[|sys.log|..] && x.requestId == id ==> x.socket in sockets
  {
    if e.PumpPass? {
      PassKeepsSockets(sys, id, sockets);
    }
  }

  /** k visits in each of n passes. */
  function Times(k: nat, n: nat): nat {
    k * n
  }

  lemma TimesNext(k: nat, n: nat)
    ensures Times(k, 0) == 0 && Times(k, 1 + n) == k + Times(k, n)
  {
    Product(k, n);
  }

  /** In any traffic that leaves this id alone, with any other requests coming,
      going, streaming and sharing lists: each pass takes one token for every
      active mapping of the id, in order, until the list is used up, and the list
      is what that number of visits leaves. */
  lemma ServedInTraffic(sys: System, events: seq<Event>, id: string, sockets: set<int>)
    requires AllWf(sys.streams) && OnSockets(sys.requests, id, sockets) && AllQuiet(events, id, sockets)
    ensures var list, n := Lookup(sys.streams, id), Users(sys.requests, id) * Passes(events);
            && SentFor(Run(sys, events).log, id) == SentFor(sys.log, id) + Taken(list, n)
            && (MarkFinished(id) !in events || (list.Some? ==> list.value.finished) ==>
                  Lookup(Run(sys, events).streams, id) == RestAfter(list, n))
  {
    hide Run, AllQuiet, OnSockets, Taken, RestAfter, Users, Passes;
    ServedByTurns(sys, events, id, sockets);
  }

  lemma {:induction false} ServedByTurns(sys: System, events: seq<Event>, id: string, sockets: set<int>)
    requires AllWf(sys.streams) && OnSockets(sys.requests, id, sockets) && AllQuiet(events, id, sockets)
    ensures var list, n := Lookup(sys.streams, id), Times(Users(sys.requests, id), Passes(events));
            && SentFor(Run(sys, events).log, id) == SentFor(sys.log, id) + Taken(list, n)
            && (MarkFinished(id) !in events || (list.Some? ==> list.value.finished) ==>
                  Lookup(Run(sys, events).streams, id) == RestAfter(list, n))
    decreases |events|
  {
    hide Step, Quiet, Waiting, OnSockets, Users, Taken, RestAfter, Times;
    var list, k := Lookup(sys.streams, id), Users(sys.requests, id);
    if events == [] {
      TimesNext(k, 0);
      NoVisits(list, SentFor(sys.log, id));
    } else {
      var e, rest := events[0], events[1..];
      assert e in events && forall x :: x in rest ==> x in events;
      var next := Step(sys, e);
      QuietIsConnected(e, id, sockets);
      StepKeepsUsers(sys, e, id, sockets);
      ServedByTurns(next, rest, id, sockets);
      TimesNext(k, Passes(rest));
      ServedThen(sys, e, Run(next, rest), id, sockets, Times(k, Passes(rest)), Times(Users(next.requests, id), Passes(rest)));
    }
  }

  /** One step, and what is served after it. */
  lemma ServedThen(sys: System, e: Event, r: System, id: string, sockets: set<int>, n: nat, m: nat)
    requires AllWf(sys.streams) && OnSockets(sys.requests, id, sockets) && Quiet(e, id, sockets)
    requires id in Step(sys, e).streams ==> m == n
    requires SentFor(r.log, id) == SentFor(Step(sys, e).log, id) + Taken(Lookup(Step(sys, e).streams, id), m)
    ensures var list, next := Lookup(sys.streams, id), Lookup(Step(sys, e).streams, id);
            var all := (if e.PumpPass? then Users(sys.requests, id) else 0) + n;
            && SentFor(r.log, id) == SentFor(sys.log, id) + Taken(list, all)
            && (e != MarkFinished(id) || (list.Some? ==> list.value.finished) ==> RestAfter(next, m) == RestAfter(list, all))
            && (next.Some? ==> list.Some? && (list.value.finished ==> next.value.finished))
  {
    hide Step, Quiet, Waiting, OnSockets, Users, Taken, RestAfter;
    var list, next := Lookup(sys.streams, id), Lookup(Step(sys, e).streams, id);
    var here := if e.PumpPass? then Users(sys.requests, id) else 0;
    QuietIsConnected(e, id, sockets);
    StepServes(sys, e, id, sockets);
    ThenVisits(list, next, here, n, m, e == MarkFinished(id));
    Regroup(SentFor(sys.log, id), Taken(list, here), Taken(next, m));
  }

  lemma NoVisits(list: Option<Stream>, sent: seq<string>)
    requires list.Some? ==> list.value.Wf()
    ensures sent + Taken(list, 0) == sent && RestAfter(list, 0) == list
  {
  }

  /** The visits of one step, or an end mark, and then those of the later ones. */
  lemma ThenVisits(list: Option<Stream>, next: Option<Stream>, here: nat, n: nat, m: nat, mark: bool)
    requires (list.Some? ==> list.value.Wf()) && (next.Some? ==> next.value.Wf() && m == n)
    requires if mark then here == 0 && next == (if list.None? then None else Some(list.value.Finish())) else next == RestAfter(list, here)
    ensures Taken(list, here) + Taken(next, m) == Taken(list, here + n)
    ensures !mark || (list.Some? ==> list.value.finished) ==> RestAfter(next, m) == RestAfter(list, here + n)
    ensures next.Some? ==> list.Some? && (list.value.finished ==> next.value.finished)
  {
    VisitsAddUp(list, here, n);
    if list.Some? {
      RestClosed(list.value, here);
    } else {
      NoListAfter(here);
    }
    if next.None? {
      NoListAfter(n);
      NoListAfter(m);
    }
    if mark {
      NoVisits(list, []);
      assert Taken(list, 0) == [];
    }
  }

  lemma QuietIsConnected(e: Event, id: string, sockets: set<int>)
    requires Quiet(e, id, sockets)
    ensures Waiting(e, id, sockets) && Connected(e, id, sockets) && !Registers(e, id)
  {
  }

  lemma Product(k: nat, n: nat)
    ensures k * (1 + n) == k + k * n
  {
  }

  // When the list is freed

  /** While its list is there, quiet traffic keeps the mappings of the id and
      never sets its cursor back. */
  lemma {:induction false} StaysInTraffic(sys: System, events: seq<Event>, id: string, sockets: set<int>)
    requires AllWf(sys.streams) && OnSockets(sys.requests, id, sockets) && AllQuiet(events, id, sockets)
    ensures var r := Run(sys, events);
            && OnSockets(r.requests, id, sockets)
            && (id in r.streams ==>
                  && id in sys.streams && Users(r.requests, id) == Users(sys.requests, id)
                  && r.streams[id].Remaining() <= sys.streams[id].Remaining())
    decreases |events|
  {
    hide Step, Quiet, Waiting, OnSockets, Users, RestAfter;
    if events != [] {
      var e, rest := events[0], events[1..];
      assert e in events && forall x :: x in rest ==> x in events;
      QuietIsConnected(e, id, sockets);
      StepKeepsUsers(sys, e, id, sockets);
      StepServes(sys, e, id, sockets);
      StaysInTraffic(Step(sys, e), rest, id, sockets);
      if id in sys.streams {
        RestClosed(sys.streams[id], if e.PumpPass? then Users(sys.requests, id) else 0);
      } else {
        NoListAfter(if e.PumpPass? then Users(sys.requests, id) else 0);
      }
    }
  }

  /** A finished list is freed by enough passes. */
  lemma FreedOnceFinished(sys: System, events: seq<Event>, id: string, sockets: set<int>)
    requires AllWf(sys.streams) && OnSockets(sys.requests, id, sockets) && AllQuiet(events, id, sockets)
    requires var n := Users(sys.requests, id) * Passes(events);
             id in sys.streams ==> sys.streams[id].finished && 1 <= n && sys.streams[id].Remaining() <= n
    ensures id !in Run(sys, events).streams
  {
    hide Run, Users, OnSockets, Passes, AllQuiet;
    var n := Users(sys.requests, id) * Passes(events);
    ServedInTraffic(sys, events, id, sockets);
    if id in sys.streams {
      RestClosed(sys.streams[id], n);
    } else {
      NoListAfter(n);
    }
    assert Lookup(Run(sys, events).streams, id) == None;
  }

  /** In any traffic that leaves this id alone its list is freed once it was marked
      finished and enough passes followed. */
  lemma FreedInTraffic(sys: System, events: seq<Event>, i: nat, id: string, sockets: set<int>)
    requires AllWf(sys.streams) && OnSockets(sys.requests, id, sockets) && AllQuiet(events, id, sockets)
    requires i < |events| && events[i] == MarkFinished(id)
    requires var n := Users(sys.requests, id) * Passes(events[i + 1..]);
             1 <= n && (id in sys.streams ==> sys.streams[id].Remaining() <= n)
    ensures id !in Run(sys, events).streams
  {
    hide OnSockets, Users, Passes, Quiet;
    var before, after := events[..i], events[i + 1..];
    assert events == before + ([events[i]] + after) && ([events[i]] + after)[1..] == after;
    assert AllQuiet(before, id, sockets) && AllQuiet(after, id, sockets);
    RunAppend(sys, before, [events[i]] + after);
    StaysInTraffic(sys, before, id, sockets);
    var mid := Run(sys, before);
    hide Run, AllQuiet;
    FreedOnceFinished(Step(mid, events[i]), after, id, sockets);
    RunCons(mid, events[i], after);
  }

  lemma RunCons(sys: System, e: Event, rest: seq<Event>)
    requires AllWf(sys.streams)
    ensures Run(sys, [e] + rest) == Run(Step(sys, e), rest)
  {
    assert ([e] + rest)[1..] == rest;
  }

  /** Before the next pass, whatever arrives for it and however often it is reset, a
      finished list stays finished. */
  lemma {:induction false} StaysFinished(sys: System, events: seq<Event>, id: string)
    requires AllWf(sys.streams) && id in sys.streams && sys.streams[id].finished && PumpPass !in events
    ensures var r := Run(sys, events);
            id in r.streams && r.streams[id].finished && r.streams[id].tokens == sys.streams[id].tokens + Arrivals(events, id)
    decreases |events|
  {
    if events == [] {
      assert sys.streams[id].tokens + [] == sys.streams[id].tokens;
    } else {
      var e, rest := events[0], events[1..];
      assert e in events && forall x :: x in rest ==> x in events;
      StaysFinishedOnce(sys, e, id);
      hide Step;
      StaysFinished(Step(sys, e), rest, id);
      Regroup(sys.streams[id].tokens, Arrival(e, id), Arrivals(rest, id));
    }
  }

  lemma StaysFinishedOnce(sys: System, e: Event, id: string)
    requires AllWf(sys.streams) && id in sys.streams && sys.streams[id].finished && e != PumpPass
    ensures var r := Step(sys, e);
            id in r.streams && r.streams[id].finished && r.streams[id].tokens == sys.streams[id].tokens + Arrival(e, id)
  {
    assert sys.streams[id].tokens + [] == sys.streams[id].tokens;
  }

  /** A finished list that got more tokens and was reset before the next pass is
      still freed, by enough passes for all its tokens. */
  lemma StillFreed(sys: System, before: seq<Event>, after: seq<Event>, id: string, sockets: set<int>)
    requires AllWf(sys.streams) && id in sys.streams && sys.streams[id].finished && PumpPass !in before
    requires var mid := Run(sys, before);
             && OnSockets(mid.requests, id, sockets) && AllQuiet(after, id, sockets)
             && 1 <= Users(mid.requests, id) * Passes(after)
             && |sys.streams[id].tokens + Arrivals(before, id)| <= Users(mid.requests, id) * Passes(after)
    ensures id !in Run(sys, before + after).streams
  {
    hide OnSockets, Users, Passes, Quiet, AllQuiet;
    StaysFinished(sys, before, id);
    RunAppend(sys, before, after);
    FreedOnceFinished(Run(sys, before), after, id, sockets);
  }

  // Requests from their registration on

  lemma {:induction false} NotForId(log: seq<Sent>, id: string)
    requires forall e :: e in log ==> e.requestId != id
    ensures SentFor(log, id) == []
  {
    if log != [] {
      assert log[0] in log && forall e :: e in log[1..] ==> e in log;
      NotForId(log[1..], id);
    }
  }

  lemma {:induction false} UnusedOnNoSocket(requests: seq<Mapping>, id: string)
    requires Users(requests, id) == 0
    ensures OnSockets(requests, id, {})
  {
    MappedIffUsed(requests, id);
  }

  lemma NothingTaken(n: nat, sent: seq<string>)
    ensures sent + Taken(None, n) == sent && RestAfter(None, n) == None
  {
    NoListAfter(n);
  }

  lemma NothingAdded(before: seq<Sent>, after: seq<Sent>, id: string)
    requires before <= after && forall e :: e in after[|before|..] ==> e.requestId != id
    ensures SentFor(after, id) == SentFor(before, id)
  {
    assert after == before + after[|before|..];
    NotForId(after[|before|..], id);
    SentForAppend(before, after[|before|..], id);
  }

  /** A request registered before its list exists is dropped by the next pass:
      whatever arrives afterwards, it is never sent unless the request is
      registered again. */
  lemma RegisteredTooEarly(sys: System, events: seq<Event>, id: string)
    requires AllWf(sys.streams) && id !in sys.streams
    requires forall e :: e in events ==> !Registers(e, id)
    ensures SentFor(Run(Pass(sys), events).log, id) == SentFor(sys.log, id)
  {
    hide Pass, Run, Users, Taken, RestAfter;
    var next := Pass(sys);
    PassServes(sys, id);
    NothingTaken(Users(sys.requests, id), SentFor(sys.log, id));
    PassKeepsUsers(sys, id);
    UnusedOnNoSocket(next.requests, id);
    SentToItsSockets(next, events, id, {});
    NothingAdded(next.log, Run(next, events).log, id);
  }

  /** The mappings of the id that are still there: the ones registered after the
      last pass. */
  function StillWaiting(k: nat, events: seq<Event>, id: string): nat
    decreases |events|
  {
    if events == [] then k
    else StillWaiting(if events[0].PumpPass? then 0 else if Registers(events[0], id) then k + 1 else k, events[1..], id)
  }

  function Registrations(events: seq<Event>, id: string): nat {
    if events == [] then 0 else (if Registers(events[0], id) then 1 else 0) + Registrations(events[1..], id)
  }

  /** Waiting for the first token nothing is sent, and every pass drops the
      mappings there are. */
  lemma {:induction false} WaitingInTraffic(sys: System, events: seq<Event>, id: string, sockets: set<int>)
    requires AllWf(sys.streams) && id !in sys.streams && OnSockets(sys.requests, id, sockets)
    requires forall e :: e in events ==> Waiting(e, id, sockets)
    ensures var r := Run(sys, events);
            && id !in r.streams && OnSockets(r.requests, id, sockets) && SentFor(r.log, id) == SentFor(sys.log, id)
            && Users(r.requests, id) == StillWaiting(Users(sys.requests, id), events, id)
    decreases |events|
  {
    hide Step, Waiting, OnSockets, Users, Taken;
    if events != [] {
      var e, rest := events[0], events[1..];
      assert e in events && events == [e] + rest;
      WaitingIsConnected(e, id, sockets);
      StepKeepsUsers(sys, e, id, sockets);
      StepServes(sys, e, id, sockets);
      NothingTaken(if e.PumpPass? then Users(sys.requests, id) else 0, SentFor(sys.log, id));
      WaitingInTraffic(Step(sys, e), rest, id, sockets);
    }
  }

  lemma WaitingIsConnected(e: Event, id: string, sockets: set<int>)
    requires Waiting(e, id, sockets)
    ensures Connected(e, id, sockets)
  {
  }

  /** Tokens and registrations come in before the output is reset and before the
      end mark. */
  predicate Arriving(e: Event, id: string, sockets: set<int>) {
    Connected(e, id, sockets) && e != ResetOutput(id) && e != MarkFinished(id)
  }

  /** Passes in between neither send anything nor drop the request. */
  lemma {:induction false} ArrivingInTraffic(sys: System, events: seq<Event>, id: string, sockets: set<int>)
    requires AllWf(sys.streams) && OnSockets(sys.requests, id, sockets)
    requires id in sys.streams && sys.streams[id].cursor.None? && !sys.streams[id].finished
    requires forall e :: e in events ==> Arriving(e, id, sockets)
    ensures var r := Run(sys, events);
            && OnSockets(r.requests, id, sockets)
            && Users(r.requests, id) == Users(sys.requests, id) + Registrations(events, id)
            && SentFor(r.log, id) == SentFor(sys.log, id)
            && id in r.streams && r.streams[id] == Stream(sys.streams[id].tokens + Arrivals(events, id), None, false)
    decreases |events|
  {
    hide Step, Arriving, OnSockets, Users;
    if events == [] {
      assert sys.streams[id].tokens + [] == sys.streams[id].tokens;
    } else {
      var e, rest := events[0], events[1..];
      assert e in events && forall x :: x in rest ==> x in events;
      OneArrives(sys, e, id, sockets);
      ArrivingInTraffic(Step(sys, e), rest, id, sockets);
      Regroup(sys.streams[id].tokens, Arrival(e, id), Arrivals(rest, id));
    }
  }

  lemma OneArrives(sys: System, e: Event, id: string, sockets: set<int>)
    requires AllWf(sys.streams) && OnSockets(sys.requests, id, sockets) && Arriving(e, id, sockets)
    requires id in sys.streams && sys.streams[id].cursor.None? && !sys.streams[id].finished
    ensures var r := Step(sys, e);
            && OnSockets(r.requests, id, sockets)
            && Users(r.requests, id) == Users(sys.requests, id) + (if Registers(e, id) then 1 else 0)
            && SentFor(r.log, id) == SentFor(sys.log, id)
            && id in r.streams && r.streams[id] == Stream(sys.streams[id].tokens + Arrival(e, id), None, false)
  {
    StepKeepsUsers(sys, e, id, sockets);
    if e.PumpPass? {
      hide Pass, Users, OnSockets;
      PassServes(sys, id);
      RestClosed(sys.streams[id], Users(sys.requests, id));
      assert sys.streams[id].tokens + [] == sys.streams[id].tokens;
      assert Lookup(Pass(sys).streams, id) == Some(sys.streams[id]);
    } else {
      hide Pass, Users, OnSockets;
    }
  }

  /** The life of one request inside the gateway. */
  datatype Story = Story(waiting: seq<Event>, arriving: seq<Event>, streaming: seq<Event>) {
    /** The request waits, its tokens arrive, its output is reset, it streams. */
    function Events(id: string): seq<Event> {
      waiting + (arriving + ([ResetOutput(id)] + streaming))
    }

    /** How many active mappings of the id are there at the reset: those registered
        with no pass between the registration and the first token, or later. */
    function Readers(before: nat, id: string): nat {
      StillWaiting(before, waiting, id) + Registrations(arriving, id)
    }

    /** Everything else is arbitrary: other requests, and passes at any time. */
    ghost predicate Of(id: string, sockets: set<int>) {
      && (forall e :: e in waiting ==> Waiting(e, id, sockets))
      && (forall e :: e in arriving ==> Arriving(e, id, sockets))
      && AllQuiet(streaming, id, sockets)
      && arriving != [] && arriving[0].AddToken? && arriving[0].id == id
    }
  }

  /** The run up to the reset. */
  lemma ReadyToStream(sys: System, story: Story, id: string, sockets: set<int>) returns (ready: System)
    requires AllWf(sys.streams) && id !in sys.streams && OnSockets(sys.requests, id, sockets) && story.Of(id, sockets)
    ensures AllWf(ready.streams) && Run(sys, story.Events(id)) == Run(ready, story.streaming)
    ensures OnSockets(ready.requests, id, sockets) && SentFor(ready.log, id) == SentFor(sys.log, id)
    ensures Users(ready.requests, id) == story.Readers(Users(sys.requests, id), id)
    ensures id in ready.streams && ready.streams[id] == Stream(Arrivals(story.arriving, id), None, false).Reset()
  {
    hide OnSockets, Users, AllQuiet, Waiting, Arriving;
    var after := [ResetOutput(id)] + story.streaming;
    RunAppend(sys, story.waiting, story.arriving + after);
    WaitingInTraffic(sys, story.waiting, id, sockets);
    var waited := Run(sys, story.waiting);
    RunAppend(waited, story.arriving, after);
    var first, rest := story.arriving[0], story.arriving[1..];
    FirstArrives(waited, first, id, sockets);
    assert forall e :: e in rest ==> e in story.arriving;
    ArrivingInTraffic(Step(waited, first), rest, id, sockets);
    var arrived := Run(waited, story.arriving);
    ready := Step(arrived, ResetOutput(id));
    RunCons(arrived, ResetOutput(id), story.streaming);
  }

  lemma FirstArrives(sys: System, e: Event, id: string, sockets: set<int>)
    requires AllWf(sys.streams) && id !in sys.streams && e.AddToken? && e.id == id
    ensures var r := Step(sys, e);
            && r.requests == sys.requests && r.log == sys.log
            && id in r.streams && r.streams[id] == Stream(Arrival(e, id), None, false)
  {
    assert [] + Arrival(e, id) == Arrival(e, id);
  }

  /** A request in any traffic, tokens, registrations and passes interleaved:
      exactly the first tokens are sent, one for each of its readers and each pass
      after the reset, until all are sent. They go to its sockets only. */
  lemma RequestServed(sys: System, story: Story, id: string, sockets: set<int>)
    requires AllWf(sys.streams) && id !in sys.streams && OnSockets(sys.requests, id, sockets) && story.Of(id, sockets)
    ensures var r, tokens := Run(sys, story.Events(id)), Arrivals(story.arriving, id);
            var n := story.Readers(Users(sys.requests, id), id) * Passes(story.streaming);
            && SentFor(r.log, id) == SentFor(sys.log, id) + tokens[..Min(n, |tokens|)]
            && sys.log <= r.log && (forall e :: e in r.log[|sys.log|..] && e.requestId == id ==> e.socket in sockets)
  {
    var ready := ReadyToStream(sys, story, id, sockets);
    ServedInTraffic(ready, story.streaming, id, sockets);
    StoryConnects(story, id, sockets);
    SentToItsSockets(sys, story.Events(id), id, sockets);
  }

  /** The exact condition for a request to be served in full. */
  lemma FullyServedIff(sys: System, story: Story, id: string, sockets: set<int>)
    requires AllWf(sys.streams) && id !in sys.streams && OnSockets(sys.requests, id, sockets) && story.Of(id, sockets)
    ensures var tokens := Arrivals(story.arriving, id);
            SentFor(Run(sys, story.Events(id)).log, id) == SentFor(sys.log, id) + tokens <==>
            |tokens| <= story.Readers(Users(sys.requests, id), id) * Passes(story.streaming)
  {
    var tokens, base := Arrivals(story.arriving, id), SentFor(sys.log, id);
    var n := story.Readers(Users(sys.requests, id), id) * Passes(story.streaming);
    RequestServed(sys, story, id, sockets);
    assert |base + tokens[..Min(n, |tokens|)]| == |base| + Min(n, |tokens|);
    assert tokens[..|tokens|] == tokens;
  }

  lemma StoryConnects(story: Story, id: string, sockets: set<int>)
    requires story.Of(id, sockets)
    ensures forall e :: e in story.Events(id) ==> Connected(e, id, sockets)
  {
    forall e | e in story.streaming ensures Connected(e, id, sockets) {
      QuietIsConnected(e, id, sockets);
    }
  }

  /** The list of the request is freed once it was marked finished while streaming and enough
      passes followed. */
  lemma RequestFreed(sys: System, story: Story, i: nat, id: string, sockets: set<int>)
    requires AllWf(sys.streams) && id !in sys.streams && OnSockets(sys.requests, id, sockets) && story.Of(id, sockets)
    requires i < |story.streaming| && story.streaming[i] == MarkFinished(id)
    requires var n := story.Readers(Users(sys.requests, id), id) * Passes(story.streaming[i + 1..]);
             1 <= n && |Arrivals(story.arriving, id)| <= n
    ensures id !in Run(sys, story.Events(id)).streams
  {
    var ready := ReadyToStream(sys, story, id, sockets);
    FreedInTraffic(ready, story.streaming, i, id, sockets);
  }
}
