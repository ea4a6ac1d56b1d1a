/** The whole gateway on real objects: any calls of the client manager and the
    token table, in any order, are a run of the abstract gateway. */
module Gateway {
  import opened Common
  import Streams
  import opened Pump
  import opened Sweep
  import opened SystemDelivery
  import opened TokenMaps
  import opened ClientManagers

  /** An event of the token engine, or a call that changes the client table. */
  datatype Call = Token(e: Event) | AcceptClient(fd: int) | SweepClients(readable: Readable)

  /** A single disconnect is not a call: mappings go in sweeps. */
  predicate Possible(c: Call) {
    c.Token? ==> !c.e.Disconnect?
  }

  // What the calls are in the abstract gateway

  /** The disconnects of a descending sweep, in their order. */
  function Drops(clients: seq<ClientInfo>, survivors: seq<ClientInfo>, readable: Readable): seq<Event> {
    if clients == [] then []
    else
      var c, rest := clients[|clients| - 1], clients[..|clients| - 1];
      if Dead(c, readable)
      then [Disconnect(if survivors == [] then c.fd else survivors[0].fd)] + Drops(rest, survivors, readable)
      else Drops(rest, [c] + survivors, readable)
  }

  lemma {:induction false} SweepIsDrops(clients: seq<ClientInfo>, survivors: seq<ClientInfo>, sys: System, readable: Readable)
    requires Streams.AllWf(sys.streams)
    ensures Run(sys, Drops(clients, survivors, readable)) ==
            sys.(requests := SweepDown(clients, survivors, sys.requests, readable).requests)
  {
    if clients != [] {
      var c, rest := clients[|clients| - 1], clients[..|clients| - 1];
      if Dead(c, readable) {
        var e := Disconnect(if survivors == [] then c.fd else survivors[0].fd);
        SweepIsDrops(rest, survivors, SystemDelivery.Step(sys, e), readable);
        assert ([e] + Drops(rest, survivors, readable))[1..] == Drops(rest, survivors, readable);
      } else {
        SweepIsDrops(rest, [c] + survivors, sys, readable);
      }
    }
  }

  function EventsOf(clients: seq<ClientInfo>, c: Call): seq<Event> {
    match c
    case Token(e) => [e]
    case AcceptClient(_) => []
    case SweepClients(readable) => Drops(clients, [], readable)
  }

  function ClientsAfter(clients: seq<ClientInfo>, c: Call): seq<ClientInfo> {
    match c
    case Token(_) => clients
    case AcceptClient(fd) => Sweep.AcceptClient(clients, fd)
    case SweepClients(readable) => Live(clients, readable)
  }

  function Trace(clients: seq<ClientInfo>, calls: seq<Call>): seq<Event>
    decreases |calls|
  {
    if calls == [] then [] else EventsOf(clients, calls[0]) + Trace(ClientsAfter(clients, calls[0]), calls[1..])
  }

  function FinalClients(clients: seq<ClientInfo>, calls: seq<Call>): seq<ClientInfo>
    decreases |calls|
  {
    if calls == [] then clients else FinalClients(ClientsAfter(clients, calls[0]), calls[1..])
  }

  // The calls themselves

  /** The state the two objects stand for. */
  ghost function View(m: ClientManager, tokens: TokenMap): System
    reads m, tokens
  {
    System(m.requests, tokens.view, m.log)
  }

  ghost predicate Apart(m: ClientManager, tokens: TokenMap)
    reads m, m.slots, tokens, tokens.Repr
  {
    m.Valid() && tokens.Valid() && m !in tokens.Repr && m.slots !in tokens.Repr
  }

  method TokenCall(m: ClientManager, tokens: TokenMap, e: Event)
    requires Apart(m, tokens) && !e.Disconnect?
    modifies m`requests, m`log, tokens.Repr
    ensures Apart(m, tokens) && fresh(tokens.Repr - old(tokens.Repr))
    ensures Streams.AllWf(old(tokens.view)) && View(m, tokens) == SystemDelivery.Step(old(View(m, tokens)), e)
  {
    hide TokenMap.Valid;
    tokens.ViewWf();
    match e {
      case AddToken(id, token) => tokens.AddToken(id, token);
      case MarkFinished(id) => tokens.MarkTokenStreamFinished(id);
      case ResetOutput(id) =>
        var list := tokens.GetTokenList(id);
        if list != null {
          tokens.ResetOutput(id);
        }
      case Register(mapping) => m.requests := m.requests + [mapping];
      case PumpPass => m.ProcessPendingTokens(tokens);
    }
  }

  method ServeOne(m: ClientManager, tokens: TokenMap, c: Call)
    requires Apart(m, tokens) && Possible(c)
    modifies m`requests, m`log, m`count, m.slots, tokens.Repr
    ensures Apart(m, tokens) && fresh(tokens.Repr - old(tokens.Repr))
    ensures Streams.AllWf(old(tokens.view))
    ensures View(m, tokens) == Run(old(View(m, tokens)), EventsOf(old(m.Clients()), c))
    ensures m.Clients() == ClientsAfter(old(m.Clients()), c)
  {
    hide TokenMap.Valid;
    tokens.ViewWf();
    match c {
      case Token(e) =>
        TokenCall(m, tokens, e);
        assert [e][1..] == [];
      case AcceptClient(fd) =>
        var _ := m.Accept(fd);
      case SweepClients(readable) =>
        SweepIsDrops(m.Clients(), [], View(m, tokens), readable);
        SweepKeepsLive(m.Clients(), [], m.requests, readable);
        var _, _ := m.SweepClients(readable);
    }
  }

  /** Any calls on the real objects do what the abstract gateway does, so what is
      proved of its runs holds of them. */
  method Serve(m: ClientManager, tokens: TokenMap, calls: seq<Call>)
    requires Apart(m, tokens) && forall c :: c in calls ==> Possible(c)
    modifies m`requests, m`log, m`count, m.slots, tokens.Repr
    ensures Apart(m, tokens) && fresh(tokens.Repr - old(tokens.Repr))
    ensures Streams.AllWf(old(tokens.view))
    ensures View(m, tokens) == Run(old(View(m, tokens)), Trace(old(m.Clients()), calls))
    ensures m.Clients() == FinalClients(old(m.Clients()), calls)
  {
    tokens.ViewWf();
    hide TokenMap.Valid, ClientManager.Valid, EventsOf, ClientsAfter;
    for i := 0 to |calls|
      invariant Apart(m, tokens) && fresh(tokens.Repr - old(tokens.Repr))
      invariant Streams.AllWf(tokens.view)
      invariant Run(View(m, tokens), Trace(m.Clients(), calls[i..])) == Run(old(View(m, tokens)), Trace(old(m.Clients()), calls))
      invariant FinalClients(m.Clients(), calls[i..]) == FinalClients(old(m.Clients()), calls)
    {
      ghost var clients := m.Clients();
      assert calls[i..][1..] == calls[i + 1..];
      RunAppend(View(m, tokens), EventsOf(clients, calls[i]), Trace(ClientsAfter(clients, calls[i]), calls[i + 1..]));
      ServeOne(m, tokens, calls[i]);
      tokens.ViewWf();
    }
  }
}
