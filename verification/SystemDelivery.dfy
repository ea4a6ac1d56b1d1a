/** Exact delivery inside the whole gateway: any number of requests, tokens for
    all of them arriving in any order between pump passes, mappings coming and
    going. Seen from one id the run is a run of that id alone. */
module SystemDelivery {
  import opened Common
  import opened Streams
  import opened Pump
  import Delivery

  datatype Event =
    | AddToken(id: string, token: Option<string>)
    | MarkFinished(id: string)
    | ResetOutput(id: string)
    | Register(mapping: Mapping)
    | Disconnect(socket: int)
    | PumpPass

  function Step(sys: System, e: Event): (r: System)
    requires AllWf(sys.streams)
    ensures AllWf(r.streams)
  {
    match e
    case AddToken(id, token) => sys.(streams := Streams.AddToken(sys.streams, id, token))
    case MarkFinished(id) => sys.(streams := Streams.MarkFinished(sys.streams, id))
    case ResetOutput(id) => sys.(streams := Streams.ResetOutput(sys.streams, id))
    case Register(m) => sys.(requests := sys.requests + [m])
    case Disconnect(socket) => sys.(requests := DropSocket(sys.requests, socket))
    case PumpPass => Pass(sys)
  }

  function Run(sys: System, events: seq<Event>): (r: System)
    requires AllWf(sys.streams)
    ensures AllWf(r.streams)
    decreases |events|
  {
    if events == [] then sys else Run(Step(sys, events[0]), events[1..])
  }

  lemma {:induction false} RunAppend(sys: System, a: seq<Event>, b: seq<Event>)
    requires AllWf(sys.streams)
    ensures Run(sys, a + b) == Run(Run(sys, a), b)
    decreases |a|
  {
    hide Step;
    if a == [] {
      assert a + b == b;
    } else {
      assert (a + b)[1..] == a[1..] + b;
      RunAppend(Step(sys, a[0]), a[1..], b);
    }
  }

  // The run as one id sees it

  function TrackOf(sys: System, id: string, added: seq<string>): Delivery.Track {
    Delivery.Track(Lookup(sys.streams, id), added, SentFor(sys.log, id))
  }

  /** One visit for every active mapping of the id. */
  function Visits(requests: seq<Mapping>, id: string): seq<Delivery.Op> {
    if requests == [] then []
    else (if requests[0].active && requests[0].requestId == id then [Delivery.Visit] else []) + Visits(requests[1..], id)
  }

  function Seen(sys: System, e: Event, id: string): seq<Delivery.Op> {
    match e
    case AddToken(i, token) => if i == id then [Delivery.Add(token)] else []
    case MarkFinished(i) => if i == id then [Delivery.Finish] else []
    case ResetOutput(i) => if i == id then [Delivery.Reset] else []
    case Register(_) => []
    case Disconnect(_) => []
    case PumpPass => Visits(sys.requests, id)
  }

  function SeenAll(sys: System, events: seq<Event>, id: string): seq<Delivery.Op>
    requires AllWf(sys.streams)
    decreases |events|
  {
    if events == [] then []
    else Seen(sys, events[0], id) + SeenAll(Step(sys, events[0]), events[1..], id)
  }

  /** The tokens that arrive for the id during the run. */
  function Arrivals(events: seq<Event>, id: string): seq<string> {
    if events == [] then [] else Arrival(events[0], id) + Arrivals(events[1..], id)
  }

  function Arrival(e: Event, id: string): seq<string> {
    if e.AddToken? && e.id == id then Delivery.Arriving(e.token) else []
  }

  lemma VisitProjects(m: Mapping, streams: map<string, Stream>, id: string, added: seq<string>, sent: seq<string>)
    requires AllWf(streams)
    ensures var v := Visit(m, streams);
            var t := Delivery.Track(Lookup(streams, id), added, sent);
            Delivery.Track(Lookup(v.streams, id), added, sent + SentFor(v.sent, id))
            == (if m.active && m.requestId == id then Delivery.Step(t, Delivery.Visit) else t)
  {
    var v := Visit(m, streams);
    if v.sent != [] {
      assert SentFor(v.sent[1..], id) == [];
    }
  }

  /** A whole pass, sharing mappings or not, is a number of visits to each id. */
  lemma {:induction false} PassProjects(requests: seq<Mapping>, streams: map<string, Stream>, id: string, added: seq<string>, sent: seq<string>)
    requires AllWf(streams)
    ensures var r := VisitAll(requests, streams);
            Delivery.Track(Lookup(r.streams, id), added, sent + SentFor(r.log, id))
            == Delivery.Run(Delivery.Track(Lookup(streams, id), added, sent), Visits(requests, id))
  {
    hide Visit, Delivery.Step;
    if requests != [] {
      var m, rest := requests[0], requests[1..];
      var v := Visit(m, streams);
      var r := VisitAll(rest, v.streams);
      var t := Delivery.Track(Lookup(streams, id), added, sent);
      var here := if m.active && m.requestId == id then [Delivery.Visit] else [];
      VisitProjects(m, streams, id, added, sent);
      PassProjects(rest, v.streams, id, added, sent + SentFor(v.sent, id));
      SentForAppend(v.sent, r.log, id);
      Delivery.RunAppend(t, here, Visits(rest, id));
      assert here != [] ==> here[1..] == [];
      Regroup(sent, SentFor(v.sent, id), SentFor(r.log, id));
    }
  }

  lemma StepProjects(sys: System, e: Event, id: string, added: seq<string>)
    requires AllWf(sys.streams)
    ensures TrackOf(Step(sys, e), id, added + Arrival(e, id)) == Delivery.Run(TrackOf(sys, id, added), Seen(sys, e, id))
  {
    var ops := Seen(sys, e, id);
    if e.PumpPass? {
      PassProjects(sys.requests, sys.streams, id, added, SentFor(sys.log, id));
      SentForAppend(sys.log, VisitAll(sys.requests, sys.streams).log, id);
    } else if ops != [] {
      assert ops[1..] == [];
    }
  }

  lemma {:induction false} RunProjects(sys: System, events: seq<Event>, id: string, added: seq<string>)
    requires AllWf(sys.streams)
    ensures TrackOf(Run(sys, events), id, added + Arrivals(events, id))
            == Delivery.Run(TrackOf(sys, id, added), SeenAll(sys, events, id))
    decreases |events|
  {
    hide Step, Seen, Arrival, Delivery.Step;
    if events == [] {
      assert added + [] == added;
    } else {
      var e, rest := events[0], events[1..];
      var next := added + Arrival(e, id);
      StepProjects(sys, e, id, added);
      RunProjects(Step(sys, e), rest, id, next);
      Delivery.RunAppend(TrackOf(sys, id, added), Seen(sys, e, id), SeenAll(Step(sys, e), rest, id));
      assert next + Arrivals(rest, id) == added + (Arrival(e, id) + Arrivals(rest, id));
    }
  }

  lemma {:induction false} SeenNoReset(sys: System, events: seq<Event>, id: string)
    requires AllWf(sys.streams) && ResetOutput(id) !in events
    ensures Delivery.NoReset(SeenAll(sys, events, id))
    decreases |events|
  {
    if events != [] {
      VisitsNoReset(sys.requests, id);
      SeenNoReset(Step(sys, events[0]), events[1..], id);
    }
  }

  lemma {:induction false} VisitsNoReset(requests: seq<Mapping>, id: string)
    ensures Delivery.Reset !in Visits(requests, id)
  {
    if requests != [] {
      VisitsNoReset(requests[1..], id);
    }
  }

  /** After one reset of `id`, and whatever else the gateway does without another
      one, the tokens sent for `id` are the first n ever added to its list. */
  lemma ExactDelivery(sys: System, events: seq<Event>, id: string)
    requires AllWf(sys.streams) && id in sys.streams && ResetOutput(id) !in events
    ensures var start := Step(sys, ResetOutput(id));
            var all := sys.streams[id].tokens + Arrivals(events, id);
            var n := Delivery.Frontier(TrackOf(start, id, sys.streams[id].tokens), 0, SeenAll(start, events, id));
            n <= |all| && SentFor(Run(start, events).log, id) == SentFor(sys.log, id) + all[..n]
  {
    var start := Step(sys, ResetOutput(id));
    var tokens := sys.streams[id].tokens;
    RunProjects(start, events, id, tokens);
    SeenNoReset(start, events, id);
    Delivery.SentUpToFrontier(TrackOf(start, id, tokens), 0, SeenAll(start, events, id));
  }

  /** Nothing is lost in the gateway exactly when, at the end, the cursor is
      null and no token arrived for the id while the cursor was null. */
  lemma EverythingSentIff(sys: System, events: seq<Event>, id: string)
    requires AllWf(sys.streams) && id in sys.streams && ResetOutput(id) !in events
    ensures var start := Step(sys, ResetOutput(id));
            var tokens := sys.streams[id].tokens;
            SentFor(Run(start, events).log, id) == SentFor(sys.log, id) + tokens + Arrivals(events, id)
            <==> (Lookup(Run(start, events).streams, id).Some? ==> Run(start, events).streams[id].cursor.None?)
                 && !Delivery.LateAdd(TrackOf(start, id, tokens), SeenAll(start, events, id))
  {
    var start := Step(sys, ResetOutput(id));
    var tokens := sys.streams[id].tokens;
    var t, ops := TrackOf(start, id, tokens), SeenAll(start, events, id);
    var all := tokens + Arrivals(events, id);
    ExactDelivery(sys, events, id);
    RunProjects(start, events, id, tokens);
    SeenNoReset(start, events, id);
    Delivery.FrontierReachesEnd(t, 0, ops);
    var n, base := Delivery.Frontier(t, 0, ops), SentFor(sys.log, id);
    assert base + tokens + Arrivals(events, id) == base + all;
    assert |base + all[..n]| == |base| + n;
    assert n == |all| ==> all[..n] == all;
  }

  /** While nobody resets it, an id whose cursor is null sends nothing. */
  lemma NothingWithoutReset(sys: System, events: seq<Event>, id: string)
    requires AllWf(sys.streams) && ResetOutput(id) !in events
    requires id in sys.streams ==> sys.streams[id].cursor.None?
    ensures SentFor(Run(sys, events).log, id) == SentFor(sys.log, id)
  {
    RunProjects(sys, events, id, []);
    SeenNoReset(sys, events, id);
    Delivery.NothingWithoutReset(TrackOf(sys, id, []), SeenAll(sys, events, id));
  }
}
