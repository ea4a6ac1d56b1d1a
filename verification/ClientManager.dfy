/** The gateway's client side in place: the client vector, the request table and
    the two loops that run over them. */
module ClientManagers {
  import opened Common
  import Streams
  import opened TokenLists
  import opened TokenMaps
  import opened Pump
  import opened Sweep

  class ClientManager {
    var slots: array<ClientInfo>  // the vector's fixed storage
    var count: nat
    var requests: seq<Mapping>
    var log: seq<Sent>            // one entry for every `send`

    ghost predicate Valid()
      reads this, slots
    {
      slots.Length == MAX_CLIENTS && count <= MAX_CLIENTS
    }

    function Clients(): seq<ClientInfo>
      requires Valid()
      reads this, slots
    {
      slots[..count]
    }

    constructor ()
      ensures Valid() && fresh(slots)
      ensures Clients() == [] && requests == [] && log == []
    {
      slots := new ClientInfo[MAX_CLIENTS](_ => ClientInfo(-1, false));
      count, requests, log := 0, [], [];
    }

    /** A connection beyond the limit is closed, not stored. */
    method Accept(fd: int) returns (closed: bool)
      requires Valid()
      modifies this`count, slots
      ensures Valid()
      ensures Clients() == AcceptClient(old(Clients()), fd)
      ensures Clients() == if fd >= 0 && old(count) < 512 then old(Clients()) + [ClientInfo(fd, true)] else old(Clients())
      ensures closed == (fd >= 0 && old(count) == 512)
    {
      closed := false;
      if fd >= 0 && count < MAX_CLIENTS {
        slots[count] := ClientInfo(fd, true);
        count := count + 1;
      } else if fd >= 0 {
        closed := true;
      }
    }

    /** The vector's erase: the tail moves down one slot, the last slot keeps
        what it held. */
    method EraseClient(i: nat)
      requires Valid() && i < count
      modifies this`count, slots
      ensures Valid() && count == old(count) - 1
      ensures Clients() == old(Clients())[..i] + old(Clients())[i + 1..]
      ensures slots[i] == if i < count then Clients()[i] else old(slots[i])
    {
      var k := i;
      while k + 1 < count
        invariant Valid() && count == old(count) && i <= k < count
        invariant forall j :: 0 <= j < i || k <= j < count ==> slots[j] == old(slots[j])
        invariant forall j :: i <= j < k ==> slots[j] == old(slots[j + 1])
      {
        slots[k] := slots[k + 1];
        k := k + 1;
      }
      count := count - 1;
    }

    /** The inner descending loop; `slots[i]` is read again in every iteration,
        as through a reference. */
    method EraseMappings(i: nat)
      requires Valid() && i < slots.Length
      modifies this`requests
      ensures requests == DropSocket(old(requests), slots[i].fd)
    {
      var j := |requests| - 1;
      while j >= 0
        invariant -1 <= j < |old(requests)|
        invariant requests == old(requests)[..j + 1] + DropSocket(old(requests)[j + 1..], slots[i].fd)
      {
        assert old(requests)[j..] == [old(requests)[j]] + old(requests)[j + 1..];
        if requests[j].clientSocket == slots[i].fd {
          requests := requests[..j] + requests[j + 1..];
        }
        j := j - 1;
      }
    }

    /** One iteration of the sweep, for the client at index i. */
    method SweepClient(i: nat, events: Readable) returns (examined: seq<int>, handed: seq<(int, string)>)
      requires Valid() && i < count
      modifies this`count, this`requests, slots
      ensures Valid()
      ensures var c, above := old(Clients())[i], old(Clients())[i + 1..];
              && Clients() == old(Clients())[..i] + (if Dead(c, events) then above else [c] + above)
              && requests == (if !Dead(c, events) then old(requests)
                              else DropSocket(old(requests), if above == [] then c.fd else above[0].fd))
              && examined == ExaminedHere(c, events)
              && handed == HandedHere(c, events)
    {
      examined, handed := [], [];
      var c := slots[i];
      if c.connected && c.fd in events {
        examined := [c.fd];
        if events[c.fd].Closed? {
          EraseClient(i);
          EraseMappings(i);
        } else {
          handed := [(c.fd, CString(events[c.fd].bytes))];
        }
      }
      assert Dead(c, events) || Clients() == Clients()[..i] + ([c] + Clients()[i + 1..]);
    }

    /** The descending sweep over the readable clients. */
    method SweepClients(events: Readable) returns (examined: seq<int>, handed: seq<(int, string)>)
      requires Valid()
      modifies this`count, this`requests, slots
      ensures Valid()
      ensures Table(Clients(), requests) == SweepTable(old(Table(Clients(), requests)), events)
      ensures examined == Examined(old(Clients()), events)
      ensures handed == Handed(old(Clients()), events)
    {
      hide ExaminedHere, HandedHere;
      examined, handed := [], [];
      var i := count - 1;
      ghost var below, above := Clients(), [];  // not yet examined, examined and still there
      while i >= 0
        invariant Valid() && |below| == i + 1 <= count
        invariant Clients() == below + above
        invariant SweepDown(below, above, requests, events) == SweepTable(old(Table(Clients(), requests)), events)
        invariant examined + Examined(below, events) == Examined(old(Clients()), events)
        invariant handed + Handed(below, events) == Handed(old(Clients()), events)
      {
        ghost var c, rest := below[i], below[..i];
        assert Clients()[i] == c && Clients()[..i] == rest && Clients()[i + 1..] == above;
        var ex, ha := SweepClient(i, events);
        Regroup(examined, ex, Examined(rest, events));
        Regroup(handed, ha, Handed(rest, events));
        examined, handed := examined + ex, handed + ha;
        below, above := rest, if Dead(c, events) then above else [c] + above;
        i := i - 1;
      }
    }

    /** One iteration of the token loop, for the mapping at index i. */
    method VisitMapping(tokens: TokenMap, i: nat)
      requires tokens.Valid() && this !in tokens.Repr && i < |requests|
      modifies this`requests, this`log, tokens.Repr
      ensures tokens.Valid() && fresh(tokens.Repr - old(tokens.Repr))
      ensures Streams.AllWf(old(tokens.view))
      ensures var v := Visit(old(requests[i]), old(tokens.view));
              requests == old(requests)[i := v.mapping] && tokens.view == v.streams && log == old(log) + v.sent
    {
      hide TokenList.Valid, TokenMap.Valid;
      tokens.ViewWf();
      var req := requests[i];
      if !req.active {
        return;
      }
      var list := tokens.GetTokenList(req.requestId);
      if list == null {
        requests := requests[i := req.(active := false)];
        return;
      }
      var token := tokens.NextIfAny(req.requestId);
      if token.Some? {
        log := log + [Sent(req.clientSocket, req.requestId, token.value)];
      }
      var done := tokens.IsCompletelyFinished(req.requestId);
      if done {
        requests := requests[i := req.(active := false)];
        tokens.ClearTokenList(req.requestId);
      }
    }

    /** One pump pass: one token for every active mapping, finished lists freed
        on the way, finished mappings compacted away at the end. */
    method ProcessPendingTokens(tokens: TokenMap)
      requires tokens.Valid() && this !in tokens.Repr
      modifies this`requests, this`log, tokens.Repr
      ensures tokens.Valid() && fresh(tokens.Repr - old(tokens.Repr))
      ensures Streams.AllWf(old(tokens.view))
      ensures System(requests, tokens.view, log) == Pass(System(old(requests), old(tokens.view), old(log)))
    {
      hide TokenList.Valid, TokenMap.Valid;
      VisitMappings(tokens);
      Compact();
    }

    /** The forward loop of the pass. */
    method VisitMappings(tokens: TokenMap)
      requires tokens.Valid() && this !in tokens.Repr
      modifies this`requests, this`log, tokens.Repr
      ensures tokens.Valid() && fresh(tokens.Repr - old(tokens.Repr))
      ensures Streams.AllWf(old(tokens.view))
      ensures var v := VisitAll(old(requests), old(tokens.view));
              requests == v.requests && tokens.view == v.streams && log == old(log) + v.log
    {
      hide TokenList.Valid, TokenMap.Valid, Visit;
      var i := 0;
      tokens.ViewWf();
      ghost var sent := [];
      while i < |requests|
        invariant i <= |requests| == |old(requests)|
        invariant tokens.Valid() && fresh(tokens.Repr - old(tokens.Repr)) && this !in tokens.Repr
        invariant Streams.AllWf(tokens.view)
        invariant requests[i..] == old(requests)[i..] && log == old(log) + sent
        invariant VisitAll(old(requests), old(tokens.view)) == Join(requests[..i], sent, VisitAll(requests[i..], tokens.view))
      {
        ghost var done, todo := requests[..i], requests[i..];
        ghost var v := Visit(requests[i], tokens.view);
        assert todo[0] == requests[i] && todo[1..] == requests[i + 1..];
        VisitMapping(tokens, i);
        JoinTwice(done, sent, [v.mapping], v.sent, VisitAll(todo[1..], v.streams));
        assert requests[..i + 1] == done + [v.mapping] && requests[i + 1..] == todo[1..];
        sent := sent + v.sent;
        i := i + 1;
      }
    }

    /** The descending erase loop over the request table. */
    method Compact()
      modifies this`requests
      ensures requests == KeepActive(old(requests))
    {
      var i := |requests| - 1;
      while i >= 0
        invariant -1 <= i < |old(requests)|
        invariant requests == old(requests)[..i + 1] + KeepActive(old(requests)[i + 1..])
      {
        ghost var m, kept := old(requests)[i], KeepActive(old(requests)[i + 1..]);
        assert old(requests)[i..] == [m] + old(requests)[i + 1..];
        assert requests[..i] == old(requests)[..i] && requests[i + 1..] == kept && requests[i] == m;
        assert KeepActive(old(requests)[i..]) == if m.active then [m] + kept else kept;
        if !requests[i].active {
          requests := requests[..i] + requests[i + 1..];
        }
        i := i - 1;
      }
    }
  }
}
