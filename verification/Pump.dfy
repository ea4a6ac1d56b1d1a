/** The round-robin token pump as a function on abstract values: one visit, one
    pass, and a closed form of the pass that never mentions an order of visits. */
module Pump {
  import opened Common
  import opened Streams

  datatype Mapping = Mapping(clientSocket: int, requestId: string, active: bool)

  /** One `send` call; the request id records on whose behalf it was made. */
  datatype Sent = Sent(socket: int, requestId: string, token: string)

  datatype System = System(requests: seq<Mapping>, streams: map<string, Stream>, log: seq<Sent>)

  /** The tokens sent on behalf of one request, in order. */
  function SentFor(log: seq<Sent>, id: string): seq<string> {
    if log == [] then []
    else (if log[0].requestId == id then [log[0].token] else []) + SentFor(log[1..], id)
  }

  lemma {:induction false} SentForAppend(a: seq<Sent>, b: seq<Sent>, id: string)
    ensures SentFor(a + b, id) == SentFor(a, id) + SentFor(b, id)
  {
    if a == [] {
      assert a + b == b;
    } else {
      assert (a + b)[1..] == a[1..] + b;
      SentForAppend(a[1..], b, id);
    }
  }

  /** What the sweep does to the table: the mappings of one socket go. */
  function DropSocket(requests: seq<Mapping>, socket: int): seq<Mapping> {
    if requests == [] then []
    else (if requests[0].clientSocket == socket then [] else [requests[0]]) + DropSocket(requests[1..], socket)
  }

  // One visit

  /** What a visit to an active mapping sends. */
  function VisitToken(s: Stream): (r: Option<string>)
    requires s.Wf()
  {
    if s.HasMore() then s.Current() else None
  }

  /** What a visit leaves of the list: None once it is freed. */
  function VisitRest(s: Stream): (r: Option<Stream>)
    requires s.Wf()
  {
    var next := if s.HasMore() then s.Advance() else s;
    if next.CompletelyFinished() then None else Some(next)
  }

  /** The result of visiting one mapping: the mapping, the lists and what was sent. */
  datatype Visited = Visited(mapping: Mapping, streams: map<string, Stream>, sent: seq<Sent>)

  function Visit(m: Mapping, streams: map<string, Stream>): (r: Visited)
    requires AllWf(streams)
    ensures AllWf(r.streams)
  {
    if !m.active then Visited(m, streams, [])
    else if m.requestId !in streams then Visited(m.(active := false), streams, [])
    else
      var s := streams[m.requestId];
      var sent := if VisitToken(s).None? then [] else [Sent(m.clientSocket, m.requestId, VisitToken(s).value)];
      var rest := VisitRest(s);
      if rest.None?
      then Visited(m.(active := false), ClearList(streams, m.requestId), sent)
      else Visited(m, streams[m.requestId := rest.value], sent)
  }

  // One pass

  /** The forward loop: every mapping in table order, each seeing the lists the
      earlier visits left. */
  function VisitAll(requests: seq<Mapping>, streams: map<string, Stream>): (r: System)
    requires AllWf(streams)
    ensures AllWf(r.streams)
    ensures |r.requests| == |requests|
  {
    if requests == [] then System([], streams, [])
    else
      var v := Visit(requests[0], streams);
      var rest := VisitAll(requests[1..], v.streams);
      Join([v.mapping], v.sent, rest)
  }

  /** What the visits so far did, followed by what the remaining ones do. */
  function Join(done: seq<Mapping>, sent: seq<Sent>, rest: System): System {
    System(done + rest.requests, rest.streams, sent + rest.log)
  }

  lemma JoinTwice(a: seq<Mapping>, x: seq<Sent>, b: seq<Mapping>, y: seq<Sent>, rest: System)
    ensures Join(a, x, Join(b, y, rest)) == Join(a + b, x + y, rest)
  {
    Regroup(a, b, rest.requests);
    Regroup(x, y, rest.log);
  }

  /** The descending erase loop keeps the active mappings in order. */
  function KeepActive(requests: seq<Mapping>): seq<Mapping> {
    if requests == [] then []
    else (if requests[0].active then [requests[0]] else []) + KeepActive(requests[1..])
  }

  function Pass(sys: System): (r: System)
    requires AllWf(sys.streams)
    ensures AllWf(r.streams)
  {
    var v := VisitAll(sys.requests, sys.streams);
    System(KeepActive(v.requests), v.streams, sys.log + v.log)
  }

  // What a pass does to any table

  function Lookup(streams: map<string, Stream>, id: string): Option<Stream> {
    if id in streams then Some(streams[id]) else None
  }

  /** What n visits leave of a list. */
  function RestAfter(list: Option<Stream>, n: nat): (r: Option<Stream>)
    requires list.Some? ==> list.value.Wf()
    ensures r.Some? ==> r.value.Wf()
  {
    if n == 0 then list
    else
      var before := RestAfter(list, n - 1);
      if before.None? then None else VisitRest(before.value)
  }

  /** n visits move the cursor on by n; a list they use up is freed if it is
      finished and stays with a null cursor otherwise. */
  lemma {:induction false} RestClosed(s: Stream, n: nat)
    requires s.Wf()
    ensures RestAfter(Some(s), n) ==
            if n == 0 then Some(s)
            else if n < s.Remaining() then Some(s.(cursor := Some(s.cursor.value + n)))
            else if s.finished then None else Some(s.(cursor := None))
  {
    if n > 0 {
      RestClosed(s, n - 1);
    }
  }

  lemma {:induction false} NoListAfter(n: nat)
    ensures RestAfter(None, n) == None
  {
    if n > 0 {
      NoListAfter(n - 1);
    }
  }

  /** How many active mappings share the list of an id. */
  function Users(requests: seq<Mapping>, id: string): nat {
    if requests == [] then 0
    else
      var m := requests[|requests| - 1];
      Users(requests[..|requests| - 1], id) + (if m.active && m.requestId == id then 1 else 0)
  }

  lemma UsersNext(done: seq<Mapping>, m: Mapping, id: string)
    ensures Users(done + [m], id) == Users(done, id) + (if m.active && m.requestId == id then 1 else 0)
  {
    assert (done + [m])[..|done|] == done;
  }

  /** The list of an id once the mappings in `done` were visited. */
  function ListAt(streams: map<string, Stream>, done: seq<Mapping>, id: string): (r: Option<Stream>)
    requires AllWf(streams)
    ensures r.Some? ==> r.value.Wf()
  {
    RestAfter(Lookup(streams, id), Users(done, id))
  }

  /** The mappings that stay: active, and their list is still there after the
      visits up to and including their own. */
  function Kept(streams: map<string, Stream>, done: seq<Mapping>, todo: seq<Mapping>): seq<Mapping>
    requires AllWf(streams)
    decreases |todo|
  {
    if todo == [] then []
    else
      var m, next := todo[0], done + [todo[0]];
      (if m.active && ListAt(streams, next, m.requestId).Some? then [m] else []) + Kept(streams, next, todo[1..])
  }

  /** What one mapping sends from the list it finds. */
  function ShareOf(m: Mapping, list: Option<Stream>): (r: seq<Sent>)
    requires list.Some? ==> list.value.Wf()
  {
    if m.active && list.Some? && VisitToken(list.value).Some?
    then [Sent(m.clientSocket, m.requestId, VisitToken(list.value).value)] else []
  }

  /** What is sent: by each mapping, the token its list has after the visits
      before it. */
  function SentIn(streams: map<string, Stream>, done: seq<Mapping>, todo: seq<Mapping>): seq<Sent>
    requires AllWf(streams)
    decreases |todo|
  {
    if todo == [] then []
    else ShareOf(todo[0], ListAt(streams, done, todo[0].requestId)) + SentIn(streams, done + [todo[0]], todo[1..])
  }

  lemma {:induction false} VisitAllExactly(streams: map<string, Stream>, done: seq<Mapping>, todo: seq<Mapping>, current: map<string, Stream>)
    requires AllWf(streams) && AllWf(current)
    requires forall id :: Lookup(current, id) == ListAt(streams, done, id)
    ensures var r := VisitAll(todo, current);
            && KeepActive(r.requests) == Kept(streams, done, todo)
            && r.log == SentIn(streams, done, todo)
            && forall id :: Lookup(r.streams, id) == ListAt(streams, done + todo, id)
    decreases |todo|
  {
    hide Visit, ListAt, ShareOf;
    if todo == [] {
      assert done + todo == done;
    } else {
      var m, rest := todo[0], todo[1..];
      var v := Visit(m, current);
      VisitOnce(streams, done, m, current);
      VisitAllExactly(streams, done + [m], rest, v.streams);
      var after := VisitAll(rest, v.streams).requests;
      assert ([v.mapping] + after)[1..] == after;
      assert done + [m] + rest == done + todo;
    }
  }

  /** One visit, in terms of the lists the pass started from. */
  lemma VisitOnce(streams: map<string, Stream>, done: seq<Mapping>, m: Mapping, current: map<string, Stream>)
    requires AllWf(streams) && AllWf(current)
    requires forall id :: Lookup(current, id) == ListAt(streams, done, id)
    ensures var v := Visit(m, current);
            && v.mapping == m.(active := m.active && ListAt(streams, done + [m], m.requestId).Some?)
            && v.sent == ShareOf(m, ListAt(streams, done, m.requestId))
            && forall id :: Lookup(v.streams, id) == ListAt(streams, done + [m], id)
  {
    assert Lookup(current, m.requestId) == ListAt(streams, done, m.requestId);
    forall id ensures Lookup(Visit(m, current).streams, id) == ListAt(streams, done + [m], id) {
      UsersNext(done, m, id);
      assert Lookup(current, id) == ListAt(streams, done, id);
    }
  }

  /** The pass over any table, mappings sharing a list or not: which mappings
      stay, what is sent in table order, and what is left of every list. An id is
      removed exactly when the visits of all its active mappings use up its list. */
  lemma PassExactly(sys: System)
    requires AllWf(sys.streams)
    ensures Pass(sys).requests == Kept(sys.streams, [], sys.requests)
    ensures Pass(sys).log == sys.log + SentIn(sys.streams, [], sys.requests)
    ensures forall id :: Lookup(Pass(sys).streams, id) == RestAfter(Lookup(sys.streams, id), Users(sys.requests, id))
  {
    VisitAllExactly(sys.streams, [], sys.requests, sys.streams);
    assert [] + sys.requests == sys.requests;
  }

  // When the pass has a closed form

  ghost predicate Mapped(requests: seq<Mapping>, id: string) {
    exists m :: m in requests && m.active && m.requestId == id
  }

  lemma MappedCons(m: Mapping, rest: seq<Mapping>, id: string)
    ensures Mapped([m] + rest, id) <==> Mapped(rest, id) || (m.active && m.requestId == id)
  {
    assert m in [m] + rest;
    assert forall x :: x in rest ==> x in [m] + rest;
  }

  predicate Survives(m: Mapping, streams: map<string, Stream>)
    requires AllWf(streams)
  {
    m.active && m.requestId in streams && VisitRest(streams[m.requestId]).Some?
  }

  /** The surviving mappings: active, with a list, not completely finished. */
  function Survivors(requests: seq<Mapping>, streams: map<string, Stream>): seq<Mapping>
    requires AllWf(streams)
  {
    if requests == [] then []
    else (if Survives(requests[0], streams) then [requests[0]] else []) + Survivors(requests[1..], streams)
  }

  /** What the mappings send, each read off the lists before the pass. */
  function Shares(requests: seq<Mapping>, streams: map<string, Stream>): seq<Sent>
    requires AllWf(streams)
  {
    if requests == [] then []
    else ShareOf(requests[0], Lookup(streams, requests[0].requestId)) + Shares(requests[1..], streams)
  }

  /** The lists after a pass: mapped ones advance or disappear, others stay. */
  ghost predicate Advanced(requests: seq<Mapping>, before: map<string, Stream>, after: map<string, Stream>)
    requires AllWf(before)
  {
    && (forall id :: id in after ==> id in before)
    && (forall id :: id in before ==>
          if Mapped(requests, id)
          then (id in after <==> VisitRest(before[id]).Some?) && (id in after ==> after[id] == VisitRest(before[id]).value)
          else id in after && after[id] == before[id])
  }

  /** The closed form of a pass: who sends what, which lists disappear and which
      mappings survive, all read off the lists the pass started from. */
  ghost predicate ClosedForm(sys: System)
    requires AllWf(sys.streams)
  {
    && Pass(sys).requests == Survivors(sys.requests, sys.streams)
    && Pass(sys).log == sys.log + Shares(sys.requests, sys.streams)
    && Advanced(sys.requests, sys.streams, Pass(sys).streams)
  }

  /** No list with a token under its cursor has two active mappings. */
  ghost predicate Uncontended(requests: seq<Mapping>, streams: map<string, Stream>) {
    forall id :: id in streams && streams[id].cursor.Some? ==> Users(requests, id) <= 1
  }

  lemma {:induction false} UsersAppend(a: seq<Mapping>, b: seq<Mapping>, id: string)
    ensures Users(a + b, id) == Users(a, id) + Users(b, id)
    decreases |b|
  {
    if b == [] {
      assert a + b == a;
    } else {
      var n := |b| - 1;
      assert (a + b)[..|a + b| - 1] == a + b[..n];
      UsersAppend(a, b[..n], id);
    }
  }

  lemma UsersCons(m: Mapping, rest: seq<Mapping>, id: string)
    ensures Users([m] + rest, id) == (if m.active && m.requestId == id then 1 else 0) + Users(rest, id)
  {
    UsersAppend([m], rest, id);
    UsersNext([], m, id);
    assert [] + [m] == [m];
  }

  lemma {:induction false} MappedIffUsed(requests: seq<Mapping>, id: string)
    ensures Mapped(requests, id) <==> Users(requests, id) >= 1
  {
    if requests != [] {
      var n := |requests| - 1;
      var m, rest := requests[n], requests[..n];
      assert requests == rest + [m];
      MappedIffUsed(rest, id);
      assert forall x :: x in requests <==> x in rest || x == m;
    }
  }

  /** What the mapping m finds and leaves is the same as if it came first. */
  lemma AsIfFirst(streams: map<string, Stream>, done: seq<Mapping>, m: Mapping, rest: seq<Mapping>)
    requires AllWf(streams) && Uncontended(done + [m] + rest, streams)
    ensures m.active && ListAt(streams, done + [m], m.requestId).Some? <==> Survives(m, streams)
    ensures ShareOf(m, ListAt(streams, done, m.requestId)) == ShareOf(m, Lookup(streams, m.requestId))
  {
    var id := m.requestId;
    UsersNext(done, m, id);
    UsersAppend(done + [m], rest, id);
    if id in streams {
      RestClosed(streams[id], Users(done, id));
      RestClosed(streams[id], Users(done + [m], id));
      RestClosed(streams[id], 1);
    } else {
      NoListAfter(Users(done, id));
      NoListAfter(Users(done + [m], id));
    }
  }

  lemma {:induction false} OwnLists(streams: map<string, Stream>, done: seq<Mapping>, todo: seq<Mapping>)
    requires AllWf(streams) && Uncontended(done + todo, streams)
    ensures Kept(streams, done, todo) == Survivors(todo, streams)
    ensures SentIn(streams, done, todo) == Shares(todo, streams)
    decreases |todo|
  {
    hide ListAt, Survives, ShareOf;
    if todo != [] {
      assert done + [todo[0]] + todo[1..] == done + todo;
      OwnLists(streams, done + [todo[0]], todo[1..]);
      AsIfFirst(streams, done, todo[0], todo[1..]);
    }
  }

  lemma UncontendedIsClosed(sys: System)
    requires AllWf(sys.streams) && Uncontended(sys.requests, sys.streams)
    ensures ClosedForm(sys)
  {
    PassExactly(sys);
    assert [] + sys.requests == sys.requests;
    OwnLists(sys.streams, [], sys.requests);
    forall id
      ensures Lookup(Pass(sys).streams, id) ==
              if Mapped(sys.requests, id) && id in sys.streams then VisitRest(sys.streams[id]) else Lookup(sys.streams, id)
    {
      AllVisits(sys.requests, sys.streams, id);
    }
  }

  /** All visits of a pass to one list are as good as one. */
  lemma AllVisits(requests: seq<Mapping>, streams: map<string, Stream>, id: string)
    requires AllWf(streams) && Uncontended(requests, streams)
    ensures RestAfter(Lookup(streams, id), Users(requests, id)) ==
            if Mapped(requests, id) && id in streams then VisitRest(streams[id]) else Lookup(streams, id)
  {
    MappedIffUsed(requests, id);
    if id in streams {
      RestClosed(streams[id], Users(requests, id));
      RestClosed(streams[id], 1);
    } else {
      NoListAfter(Users(requests, id));
    }
  }

  lemma {:induction false} ShareCount(requests: seq<Mapping>, streams: map<string, Stream>, id: string)
    requires AllWf(streams) && id in streams && streams[id].cursor.Some?
    ensures |SentFor(Shares(requests, streams), id)| == Users(requests, id)
  {
    if requests != [] {
      var m, rest := requests[0], requests[1..];
      var share := ShareOf(m, Lookup(streams, m.requestId));
      ShareCount(rest, streams, id);
      SentForAppend(share, Shares(rest, streams), id);
      assert share != [] ==> share[1..] == [];
      assert [m] + rest == requests;
      UsersCons(m, rest, id);
    }
  }

  /** A list with one token left sends at most one, whoever visits it. */
  lemma {:induction false} LastTokenOnce(streams: map<string, Stream>, done: seq<Mapping>, todo: seq<Mapping>, id: string)
    requires AllWf(streams) && id in streams && streams[id].Remaining() == 1
    ensures |SentFor(SentIn(streams, done, todo), id)| <= if Users(done, id) == 0 then 1 else 0
    decreases |todo|
  {
    if todo != [] {
      var m, rest := todo[0], todo[1..];
      var share := ShareOf(m, ListAt(streams, done, m.requestId));
      LastTokenOnce(streams, done + [m], rest, id);
      UsersNext(done, m, id);
      SentForAppend(share, SentIn(streams, done + [m], rest), id);
      assert share != [] ==> share[1..] == [];
      RestClosed(streams[id], Users(done, id));
    }
  }

  lemma ContendedIsNotClosed(sys: System, id: string)
    requires AllWf(sys.streams) && id in sys.streams && sys.streams[id].cursor.Some? && Users(sys.requests, id) >= 2
    ensures !ClosedForm(sys)
  {
    var s, n := sys.streams[id], Users(sys.requests, id);
    PassExactly(sys);
    if s.Remaining() == 1 {
      var sent, shares := SentIn(sys.streams, [], sys.requests), Shares(sys.requests, sys.streams);
      LastTokenOnce(sys.streams, [], sys.requests, id);
      ShareCount(sys.requests, sys.streams, id);
      assert (sys.log + sent)[|sys.log|..] == sent && (sys.log + shares)[|sys.log|..] == shares;
    } else {
      MappedIffUsed(sys.requests, id);
      assert Lookup(Pass(sys).streams, id) == RestAfter(Some(s), n);
      RestClosed(s, n);
    }
  }

  /** The closed form describes a pass if and only if no list that has a token
      under its cursor is shared by two active mappings. */
  lemma ClosedFormIff(sys: System)
    requires AllWf(sys.streams)
    ensures ClosedForm(sys) <==> Uncontended(sys.requests, sys.streams)
  {
    hide ClosedForm;
    if Uncontended(sys.requests, sys.streams) {
      UncontendedIsClosed(sys);
    } else {
      var id :| id in sys.streams && sys.streams[id].cursor.Some? && Users(sys.requests, id) > 1;
      ContendedIsNotClosed(sys, id);
    }
  }

  /** The closed form on the lists the pass started from, although some of them
      are freed on the way. */
  lemma PassClosed(sys: System)
    requires AllWf(sys.streams) && Uncontended(sys.requests, sys.streams)
    ensures Pass(sys).requests == Survivors(sys.requests, sys.streams)
    ensures Pass(sys).log == sys.log + Shares(sys.requests, sys.streams)
    ensures Advanced(sys.requests, sys.streams, Pass(sys).streams)
  {
    ClosedFormIff(sys);
  }

  /** No two active mappings share a list. */
  ghost predicate DistinctActive(requests: seq<Mapping>) {
    forall i, j :: 0 <= i < j < |requests| && requests[i].active && requests[j].active ==>
      requests[i].requestId != requests[j].requestId
  }

  lemma {:induction false} OneUser(requests: seq<Mapping>, id: string)
    requires DistinctActive(requests)
    ensures Users(requests, id) <= 1
  {
    if requests != [] {
      var n := |requests| - 1;
      var m, rest := requests[n], requests[..n];
      OneUser(rest, id);
      MappedIffUsed(rest, id);
      if Mapped(rest, id) {
        var x :| x in rest && x.active && x.requestId == id;
        var i :| 0 <= i < n && rest[i] == x;
        assert requests[i] == x;
      }
    }
  }

  /** With one active mapping per list every pass has its closed form. */
  lemma DistinctIsUncontended(requests: seq<Mapping>, streams: map<string, Stream>)
    requires DistinctActive(requests)
    ensures Uncontended(requests, streams)
  {
    forall id ensures Users(requests, id) <= 1 {
      OneUser(requests, id);
    }
  }

  lemma PassOfTwo(a: Mapping, b: Mapping, streams: map<string, Stream>)
    requires AllWf(streams)
    ensures var v := Visit(a, streams); var w := Visit(b, v.streams);
            Pass(System([a, b], streams, [])) ==
            System((if v.mapping.active then [v.mapping] else []) + (if w.mapping.active then [w.mapping] else []), w.streams, v.sent + w.sent)
  {
    hide Visit;
    var v := Visit(a, streams);
    var w := Visit(b, v.streams);
    assert [a, b][1..] == [b] && [b][1..] == [];
    assert VisitAll([b], v.streams) == System([w.mapping], w.streams, w.sent);
    assert VisitAll([a, b], streams) == System([v.mapping, w.mapping], w.streams, v.sent + w.sent);
    assert [v.mapping, w.mapping][1..] == [w.mapping] && [w.mapping][1..] == [];
    assert KeepActive([w.mapping]) == if w.mapping.active then [w.mapping] else [];
  }

  /** Sharing makes a difference: two mappings of one two-token list get a token
      each in a single pass, and the second is dropped with the list. */
  lemma SharedListBreaksClosedForm() returns (sys: System)
    ensures AllWf(sys.streams) && !DistinctActive(sys.requests) && !ClosedForm(sys)
    ensures Pass(sys).requests != Survivors(sys.requests, sys.streams)
    ensures Pass(sys).log != sys.log + Shares(sys.requests, sys.streams)
  {
    var a, b := Mapping(4, "r", true), Mapping(5, "r", true);
    var streams := map["r" := Stream(["x", "y"], Some(0), true)];
    sys := System([a, b], streams, []);
    PassOfTwo(a, b, streams);
    hide Pass;
    assert sys.requests[0].requestId == sys.requests[1].requestId;
    assert Visit(a, streams).streams["r"] == Stream(["x", "y"], Some(1), true);
    assert Pass(sys).requests == [a] && Pass(sys).log == [Sent(4, "r", "x"), Sent(5, "r", "y")];
    assert sys.requests[1..] == [b] && [b][1..] == [];
    assert Shares(sys.requests, streams) == [Sent(4, "r", "x")] + Shares([b], streams);
    assert Shares([b], streams) == [Sent(5, "r", "x")];
    assert Pass(sys).log[1].token != (sys.log + Shares(sys.requests, streams))[1].token;
    assert Survivors([b], streams) == [b];
    assert Survivors(sys.requests, streams) == [a] + Survivors([b], streams);
  }

  // Who sends

  /** Some active mapping of the table has the entry's request and its socket. */
  ghost predicate SentBy(e: Sent, requests: seq<Mapping>) {
    exists m :: m in requests && m.active && m.requestId == e.requestId && m.clientSocket == e.socket
  }

  /** In any table, everything a pass sends goes to the socket of an active
      mapping of that request, and the pass leaves only mappings it found. */
  lemma {:induction false} PassSends(requests: seq<Mapping>, streams: map<string, Stream>)
    requires AllWf(streams)
    ensures forall e :: e in VisitAll(requests, streams).log ==> SentBy(e, requests)
    ensures forall m :: m in KeepActive(VisitAll(requests, streams).requests) ==> m in requests && m.active
  {
    if requests != [] {
      var m, rest := requests[0], requests[1..];
      var v := Visit(m, streams);
      var after := VisitAll(rest, v.streams);
      PassSends(rest, v.streams);
      assert m in requests && forall x :: x in rest ==> x in requests;
      assert ([v.mapping] + after.requests)[1..] == after.requests;
      forall e | e in after.log ensures SentBy(e, requests) {
        assert SentBy(e, rest);
      }
      assert forall e :: e in v.sent ==> SentBy(e, requests);
    }
  }

  /** In any table a pass sends at most one token per active mapping, in table order. */
  lemma {:induction false} OneTokenEach(requests: seq<Mapping>, streams: map<string, Stream>) returns (parts: seq<seq<Sent>>)
    requires AllWf(streams)
    ensures |parts| == |requests| && VisitAll(requests, streams).log == Flatten(parts)
    ensures forall i :: 0 <= i < |parts| ==> |parts[i]| <= 1
    ensures forall i :: 0 <= i < |parts| && parts[i] != [] ==>
              requests[i].active && parts[i][0].socket == requests[i].clientSocket && parts[i][0].requestId == requests[i].requestId
  {
    parts := [];
    if requests != [] {
      var v := Visit(requests[0], streams);
      var rest := OneTokenEach(requests[1..], v.streams);
      parts := [v.sent] + rest;
    }
  }
}
