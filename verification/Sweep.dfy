/** The client table: accepting, and the descending sweep that erases dead
    clients and the request mappings of a socket. */
module Sweep {
  import opened Common
  import opened Pump
  import opened Streams

  const MAX_CLIENTS: nat := 512

  datatype ClientInfo = ClientInfo(fd: int, connected: bool)

  /** What `recv` on a readable socket gave: a close or error (n <= 0), or bytes. */
  datatype Received = Closed | Data(bytes: string)

  /** The sockets `select` reported readable, with what `recv` gives on each. */
  type Readable = map<int, Received>

  datatype Table = Table(clients: seq<ClientInfo>, requests: seq<Mapping>)

  predicate Ready(c: ClientInfo, events: Readable) {
    c.connected && c.fd in events
  }

  predicate Dead(c: ClientInfo, events: Readable) {
    Ready(c, events) && events[c.fd].Closed?
  }

  // What the sweep does

  /** The descending loop. `survivors` are the clients above the loop index that
      are still in the table. The mappings dropped for a dead client are those of
      the socket read through the reference after the erase: its slot by then
      holds the next client, or still the dead one when it was the last. */
  function SweepDown(clients: seq<ClientInfo>, survivors: seq<ClientInfo>, requests: seq<Mapping>, events: Readable): Table {
    if clients == [] then Table(survivors, requests)
    else
      var c, rest := clients[|clients| - 1], clients[..|clients| - 1];
      if Dead(c, events)
      then SweepDown(rest, survivors, DropSocket(requests, if survivors == [] then c.fd else survivors[0].fd), events)
      else SweepDown(rest, [c] + survivors, requests, events)
  }

  function SweepTable(t: Table, events: Readable): Table {
    SweepDown(t.clients, [], t.requests, events)
  }

  /** The sockets `recv` is called on, in the order of the calls. */
  function Examined(clients: seq<ClientInfo>, events: Readable): seq<int> {
    if clients == [] then []
    else
      ExaminedHere(clients[|clients| - 1], events) + Examined(clients[..|clients| - 1], events)
  }

  function ExaminedHere(c: ClientInfo, events: Readable): seq<int> {
    if Ready(c, events) then [c.fd] else []
  }

  /** The messages the sweep hands to the request parser, with their sockets;
      a buffer is read up to its first NUL. */
  function Handed(clients: seq<ClientInfo>, events: Readable): seq<(int, string)> {
    if clients == [] then []
    else
      HandedHere(clients[|clients| - 1], events) + Handed(clients[..|clients| - 1], events)
  }

  function HandedHere(c: ClientInfo, events: Readable): seq<(int, string)> {
    if Ready(c, events) && events[c.fd].Data? then [(c.fd, CString(events[c.fd].bytes))] else []
  }

  // What it is meant to do

  function Live(clients: seq<ClientInfo>, events: Readable): seq<ClientInfo> {
    if clients == [] then []
    else (if Dead(clients[0], events) then [] else [clients[0]]) + Live(clients[1..], events)
  }

  function DropAll(requests: seq<Mapping>, sockets: set<int>): seq<Mapping> {
    if requests == [] then []
    else (if requests[0].clientSocket in sockets then [] else [requests[0]]) + DropAll(requests[1..], sockets)
  }

  function DeadSockets(clients: seq<ClientInfo>, events: Readable): set<int> {
    set c | c in clients && Dead(c, events) :: c.fd
  }

  /** The stated intent: the dead clients go, and exactly their mappings. */
  function Intended(t: Table, events: Readable): Table {
    Table(Live(t.clients, events), DropAll(t.requests, DeadSockets(t.clients, events)))
  }

  // Clients

  lemma {:induction false} LiveAppend(a: seq<ClientInfo>, b: seq<ClientInfo>, events: Readable)
    ensures Live(a + b, events) == Live(a, events) + Live(b, events)
  {
    hide Dead;
    if a == [] {
      assert a + b == b;
    } else {
      assert (a + b)[1..] == a[1..] + b;
      LiveAppend(a[1..], b, events);
      Regroup(if Dead(a[0], events) then [] else [a[0]], Live(a[1..], events), Live(b, events));
    }
  }

  /** The in-place erasure leaves the stable filter of the live clients. */
  lemma {:induction false} SweepKeepsLive(clients: seq<ClientInfo>, survivors: seq<ClientInfo>, requests: seq<Mapping>, events: Readable)
    ensures SweepDown(clients, survivors, requests, events).clients == Live(clients, events) + survivors
  {
    if clients != [] {
      var c, rest := clients[|clients| - 1], clients[..|clients| - 1];
      assert clients == rest + [c] && [c][1..] == [];
      LiveAppend(rest, [c], events);
      if Dead(c, events) {
        SweepKeepsLive(rest, survivors, DropSocket(requests, if survivors == [] then c.fd else survivors[0].fd), events);
      } else {
        SweepKeepsLive(rest, [c] + survivors, requests, events);
      }
    }
  }

  lemma {:induction false} LiveMembers(clients: seq<ClientInfo>, events: Readable)
    ensures forall c :: c in Live(clients, events) <==> c in clients && !Dead(c, events)
    ensures |Live(clients, events)| <= |clients|
  {
    if clients != [] {
      LiveMembers(clients[1..], events);
      assert clients == [clients[0]] + clients[1..];
    }
  }

  /** Every readable client of the table is examined, each exactly once. */
  lemma {:induction false} ExaminedOnce(clients: seq<ClientInfo>, events: Readable)
    requires DistinctSockets(clients)
    ensures NoDup(Examined(clients, events))
    ensures forall fd :: fd in Examined(clients, events) <==> exists c :: c in clients && c.fd == fd && Ready(c, events)
  {
    if clients != [] {
      var c, rest := clients[|clients| - 1], clients[..|clients| - 1];
      assert clients == rest + [c];
      ExaminedOnce(rest, events);
      forall x | x in rest ensures x.fd != c.fd {
        var i :| 0 <= i < |rest| && rest[i] == x;
        assert clients[i] == x;
      }
      var before := Examined(rest, events);
      assert c.fd !in before;
      assert forall j :: 0 < j < |[c.fd] + before| ==> ([c.fd] + before)[j] == before[j - 1];
      assert NoDup([c.fd] + before);
    }
  }

  predicate IsReadable(c: ClientInfo, events: Readable) {
    c.connected && c.fd in events
  }

  predicate SendsData(c: ClientInfo, events: Readable) {
    c.connected && c.fd in events && events[c.fd] != Closed
  }

  ghost predicate Ascending(at: seq<nat>, n: nat) {
    && (forall k :: 0 <= k < |at| ==> at[k] < n)
    && (forall j, k :: 0 <= j < k < |at| ==> at[j] < at[k])
  }

  /** The indexes of the clients with a readable socket. */
  function ReadableAt(clients: seq<ClientInfo>, events: Readable): (at: seq<nat>)
    ensures forall k :: 0 <= k < |at| ==> at[k] < |clients|
  {
    if clients == [] then []
    else
      var n := |clients| - 1;
      ReadableAt(clients[..n], events) + if IsReadable(clients[n], events) then [n] else []
  }

  lemma {:induction false} ReadableAtIs(clients: seq<ClientInfo>, events: Readable)
    ensures Ascending(ReadableAt(clients, events), |clients|)
    ensures forall i: nat :: i in ReadableAt(clients, events) <==> i < |clients| && IsReadable(clients[i], events)
  {
    if clients != [] {
      hide IsReadable;
      ReadableAtIs(clients[..|clients| - 1], events);
    }
  }

  /** The indexes of the clients with bytes to read. */
  function SendersAt(clients: seq<ClientInfo>, events: Readable): (at: seq<nat>)
    ensures forall k :: 0 <= k < |at| ==> at[k] < |clients|
  {
    if clients == [] then []
    else
      var n := |clients| - 1;
      SendersAt(clients[..n], events) + if SendsData(clients[n], events) then [n] else []
  }

  lemma {:induction false} SendersAtIs(clients: seq<ClientInfo>, events: Readable)
    ensures Ascending(SendersAt(clients, events), |clients|)
    ensures forall i: nat :: i in SendersAt(clients, events) <==> i < |clients| && SendsData(clients[i], events)
  {
    if clients != [] {
      hide SendsData;
      SendersAtIs(clients[..|clients| - 1], events);
    }
  }

  lemma FromTheBack<T>(a: seq<T>, b: seq<T>, k: nat)
    requires k < |b|
    ensures (a + b)[|a + b| - 1 - k] == b[|b| - 1 - k]
  {
  }

  /** `recv` is called once on each connected client with a readable socket, from
      the last one in the table to the first. */
  lemma {:induction false} ExaminedAt(clients: seq<ClientInfo>, events: Readable)
    ensures var at, calls := ReadableAt(clients, events), Examined(clients, events);
            |calls| == |at| && forall k :: 0 <= k < |at| ==> calls[|at| - 1 - k] == clients[at[k]].fd
  {
    if clients != [] {
      var n := |clients| - 1;
      var rest := clients[..n];
      var up, calls := ReadableAt(rest, events), Examined(rest, events);
      var at, all := ReadableAt(clients, events), Examined(clients, events);
      assert IsReadable(clients[n], events) == Ready(clients[n], events);
      ExaminedAt(rest, events);
      var here := ExaminedHere(clients[n], events);
      assert all == here + calls && at == up + if here == [] then [] else [n];
      hide ReadableAt, Examined, IsReadable, Ready;
      forall k | 0 <= k < |at| ensures all[|at| - 1 - k] == clients[at[k]].fd {
        if k < |up| {
          FromTheBack(here, calls, k);
          assert at[k] == up[k] && rest[up[k]] == clients[up[k]];
        }
      }
    }
  }

  /** The same for the messages handed to the parser: from each connected client
      with bytes to read, these bytes up to their first NUL. */
  lemma {:induction false} HandedAt(clients: seq<ClientInfo>, events: Readable)
    ensures var at, handed := SendersAt(clients, events), Handed(clients, events);
            |handed| == |at| && forall k :: 0 <= k < |at| ==> IsFrom(handed[|at| - 1 - k], clients[at[k]], events)
  {
    if clients != [] {
      var n := |clients| - 1;
      var rest := clients[..n];
      var up, before := SendersAt(rest, events), Handed(rest, events);
      var at, all := SendersAt(clients, events), Handed(clients, events);
      var here := HandedHere(clients[n], events);
      assert if SendsData(clients[n], events) then |here| == 1 && IsFrom(here[0], clients[n], events) else here == [];
      HandedAt(rest, events);
      assert all == here + before && at == up + if here == [] then [] else [n];
      hide SendersAt, Handed, SendsData, HandedHere, IsFrom;
      forall k | 0 <= k < |at| ensures IsFrom(all[|at| - 1 - k], clients[at[k]], events) {
        if k < |up| {
          FromTheBack(here, before, k);
          assert at[k] == up[k] && rest[up[k]] == clients[up[k]];
        }
      }
    }
  }

  /** The descriptor of the client and the bytes on it up to the first NUL. */
  predicate IsFrom(handed: (int, string), c: ClientInfo, events: Readable) {
    c.fd in events && events[c.fd] != Closed && handed == (c.fd, CString(events[c.fd].bytes))
  }

  /** Exactly what is handed to the parser, and each message once if no socket is in
      the table twice. */
  lemma HandedExactly(clients: seq<ClientInfo>, events: Readable)
    ensures forall fd, text :: (fd, text) in Handed(clients, events) <==>
              HasSender(clients, events, fd) && text == CString(events[fd].bytes)
    ensures DistinctSockets(clients) ==> NoDup(Handed(clients, events))
  {
    HandedAt(clients, events);
    forall fd, text
      ensures (fd, text) in Handed(clients, events) <==> HasSender(clients, events, fd) && text == CString(events[fd].bytes)
    {
      HandedIff(clients, events, fd, text);
    }
    if DistinctSockets(clients) {
      HandedOnce(clients, events);
    }
  }

  lemma HandedIff(clients: seq<ClientInfo>, events: Readable, fd: int, text: string)
    ensures (fd, text) in Handed(clients, events) <==> HasSender(clients, events, fd) && text == CString(events[fd].bytes)
  {
    hide SendersAt, Handed;
    SendersAtIs(clients, events);
    HandedAt(clients, events);
    var handed, at := Handed(clients, events), SendersAt(clients, events);
    var n := |at|;
    if (fd, text) in handed {
      var k :| 0 <= k < n && handed[k] == (fd, text);
      var x := n - 1 - k;
      assert handed[n - 1 - x] == (fd, text) && at[x] in at;
      assert clients[at[x]] in clients;
    }
    if HasSender(clients, events, fd) && text == CString(events[fd].bytes) {
      var c :| c in clients && c.fd == fd && SendsData(c, events);
      var i: nat :| i < |clients| && clients[i] == c;
      assert i in at;
      var k :| 0 <= k < n && at[k] == i;
      assert handed[n - 1 - k] == (fd, text);
    }
  }

  lemma HandedOnce(clients: seq<ClientInfo>, events: Readable)
    requires DistinctSockets(clients)
    ensures NoDup(Handed(clients, events))
  {
    hide SendersAt, Handed, SendsData;
    SendersAtIs(clients, events);
    HandedAt(clients, events);
    var handed, at := Handed(clients, events), SendersAt(clients, events);
    forall j, k | 0 <= j < k < |at| ensures handed[j] != handed[k] {
      var x, y := |at| - 1 - k, |at| - 1 - j;
      assert at[x] < at[y] && clients[at[x]].fd != clients[at[y]].fd;
      assert IsFrom(handed[|at| - 1 - x], clients[at[x]], events) && IsFrom(handed[|at| - 1 - y], clients[at[y]], events);
    }
  }

  /** Some connected client has the descriptor, and there are bytes to read on it. */
  ghost predicate HasSender(clients: seq<ClientInfo>, events: Readable, fd: int) {
    fd in events && events[fd].Data? && exists c :: c in clients && c.fd == fd && SendsData(c, events)
  }

  /** The table indexes of the clients that stay: all those that are not connected,
      not readable, or gave bytes, in their old order. */
  lemma {:induction false} LiveAt(clients: seq<ClientInfo>, events: Readable) returns (at: seq<nat>)
    ensures |at| == |Live(clients, events)| && Ascending(at, |clients|)
    ensures forall k :: 0 <= k < |at| ==> Live(clients, events)[k] == clients[at[k]]
    ensures forall i: nat :: i in at <==>
              i < |clients| && !(clients[i].connected && clients[i].fd in events && events[clients[i].fd] == Closed)
  {
    at := [];
    if clients != [] {
      var n := |clients| - 1;
      var before, c := clients[..n], clients[n];
      assert clients == before + [c] && [c][1..] == [];
      LiveAppend(before, [c], events);
      at := LiveAt(before, events);
      at := at + (if c.connected && c.fd in events && events[c.fd] == Closed then [] else [n]);
    }
  }

  ghost predicate DistinctSockets(clients: seq<ClientInfo>) {
    forall i, j :: 0 <= i < j < |clients| ==> clients[i].fd != clients[j].fd
  }

  // Mappings

  lemma {:induction false} DropSocketIsDropAll(requests: seq<Mapping>, socket: int, sockets: set<int>)
    ensures DropAll(DropSocket(requests, socket), sockets) == DropAll(requests, {socket} + sockets)
  {
    if requests != [] {
      DropSocketIsDropAll(requests[1..], socket, sockets);
      var kept := DropSocket(requests[1..], socket);
      assert ([requests[0]] + kept)[1..] == kept && [] + kept == kept;
    }
  }

  lemma {:induction false} DropAllMembers(requests: seq<Mapping>, sockets: set<int>)
    ensures forall m :: m in DropAll(requests, sockets) <==> m in requests && m.clientSocket !in sockets
  {
    if requests != [] {
      DropAllMembers(requests[1..], sockets);
      assert requests == [requests[0]] + requests[1..];
    }
  }

  lemma {:induction false} DropNothing(requests: seq<Mapping>)
    ensures DropAll(requests, {}) == requests
  {
    if requests != [] {
      DropNothing(requests[1..]);
    }
  }

  /** The sockets whose mappings the sweep drops. */
  function Dropped(clients: seq<ClientInfo>, survivors: seq<ClientInfo>, events: Readable): set<int> {
    if clients == [] then {}
    else
      var c, rest := clients[|clients| - 1], clients[..|clients| - 1];
      if Dead(c, events)
      then {if survivors == [] then c.fd else survivors[0].fd} + Dropped(rest, survivors, events)
      else Dropped(rest, [c] + survivors, events)
  }

  lemma {:induction false} SweepDrops(clients: seq<ClientInfo>, survivors: seq<ClientInfo>, requests: seq<Mapping>, events: Readable)
    ensures SweepDown(clients, survivors, requests, events).requests == DropAll(requests, Dropped(clients, survivors, events))
  {
    if clients == [] {
      DropNothing(requests);
    } else {
      var c, rest := clients[|clients| - 1], clients[..|clients| - 1];
      if Dead(c, events) {
        var fd := if survivors == [] then c.fd else survivors[0].fd;
        SweepDrops(rest, survivors, DropSocket(requests, fd), events);
        DropSocketIsDropAll(requests, fd, Dropped(rest, survivors, events));
      } else {
        SweepDrops(rest, [c] + survivors, requests, events);
      }
    }
  }

  /** Client i is dead and some client after it stays. */
  ghost predicate Shadowed(clients: seq<ClientInfo>, events: Readable, i: int) {
    0 <= i < |clients| && Dead(clients[i], events) && exists j :: i < j < |clients| && !Dead(clients[j], events)
  }

  /** Client j stays and its predecessor is dead. */
  ghost predicate Hit(clients: seq<ClientInfo>, events: Readable, j: int) {
    0 < j < |clients| && !Dead(clients[j], events) && Dead(clients[j - 1], events)
  }

  /** The first client from index i on that stays. */
  function FirstLive(clients: seq<ClientInfo>, events: Readable, i: nat): (j: nat)
    requires i <= |clients|
    ensures i <= j <= |clients|
    ensures forall k :: i <= k < j ==> Dead(clients[k], events)
    ensures j < |clients| ==> !Dead(clients[j], events)
    decreases |clients| - i
  {
    if i == |clients| || !Dead(clients[i], events) then i else FirstLive(clients, events, i + 1)
  }

  lemma {:induction false} FirstLiveIsHead(clients: seq<ClientInfo>, events: Readable, i: nat)
    requires i <= |clients|
    ensures var j := FirstLive(clients, events, i); var live := Live(clients[i..], events);
            if j == |clients| then live == [] else live != [] && live[0] == clients[j]
    decreases |clients| - i
  {
    if i < |clients| {
      assert clients[i..][1..] == clients[i + 1..];
      FirstLiveIsHead(clients, events, i + 1);
    }
  }

  /** Whose mappings the erasure of dead client i drops. */
  function Victim(clients: seq<ClientInfo>, events: Readable, i: nat): int
    requires i < |clients|
  {
    var j := FirstLive(clients, events, i + 1);
    if j == |clients| then clients[i].fd else clients[j].fd
  }

  lemma {:induction false} DroppedAreVictims(clients: seq<ClientInfo>, k: nat, events: Readable)
    requires k <= |clients|
    ensures forall fd :: fd in Dropped(clients[..k], Live(clients[k..], events), events) <==>
              exists i :: 0 <= i < k && Dead(clients[i], events) && fd == Victim(clients, events, i)
  {
    if k > 0 {
      var c, survivors := clients[k - 1], Live(clients[k..], events);
      assert clients[..k][..k - 1] == clients[..k - 1] && clients[..k][k - 1] == c;
      assert clients[k - 1..][1..] == clients[k..] && [] + survivors == survivors;
      FirstLiveIsHead(clients, events, k);
      DroppedAreVictims(clients, k - 1, events);
    }
  }

  /** Exactly whose mappings are dropped: dead clients with nobody alive behind
      them, and live clients right behind a dead one. */
  lemma DroppedExactly(clients: seq<ClientInfo>, events: Readable, i: nat)
    requires DistinctSockets(clients) && i < |clients|
    ensures clients[i].fd in Dropped(clients, [], events) <==>
            if Dead(clients[i], events) then !Shadowed(clients, events, i) else Hit(clients, events, i)
  {
    var n := |clients|;
    assert clients[..n] == clients && clients[n..] == [];
    DroppedAreVictims(clients, n, events);
    if Hit(clients, events, i) {
      assert FirstLive(clients, events, i) == i && Victim(clients, events, i - 1) == clients[i].fd;
    }
    if clients[i].fd in Dropped(clients, [], events) {
      var k :| 0 <= k < n && Dead(clients[k], events) && clients[i].fd == Victim(clients, events, k);
      var j := FirstLive(clients, events, k + 1);
      assert i == if j == n then k else j;
    } else if Dead(clients[i], events) {
      assert Victim(clients, events, i) != clients[i].fd;
    }
  }

  lemma DroppedAreClients(clients: seq<ClientInfo>, events: Readable)
    ensures forall fd :: fd in Dropped(clients, [], events) ==> HasClient(clients, fd)
  {
    var n := |clients|;
    assert clients[..n] == clients && clients[n..] == [];
    DroppedAreVictims(clients, n, events);
    forall i | 0 <= i < n && Dead(clients[i], events)
      ensures HasClient(clients, Victim(clients, events, i))
    {
      var j := FirstLive(clients, events, i + 1);
      assert clients[if j == n then i else j] in clients;
    }
  }

  // Every mapping belongs to a connected client

  ghost predicate Owned(t: Table) {
    forall m :: m in t.requests ==> HasClient(t.clients, m.clientSocket)
  }

  ghost predicate HasClient(clients: seq<ClientInfo>, fd: int) {
    exists c :: c in clients && c.fd == fd
  }

  predicate HasMapping(requests: seq<Mapping>, fd: int) {
    exists m :: m in requests && m.clientSocket == fd
  }

  lemma SweepResult(t: Table, events: Readable)
    ensures SweepTable(t, events).clients == Live(t.clients, events)
    ensures SweepTable(t, events).requests == DropAll(t.requests, Dropped(t.clients, [], events))
  {
    SweepKeepsLive(t.clients, [], t.requests, events);
    SweepDrops(t.clients, [], t.requests, events);
  }

  /** The sweep keeps "every mapping's socket belongs to a connected client"
      exactly when no dead client with a live one behind it has a mapping. */
  lemma SweepKeepsOwnedIff(t: Table, events: Readable)
    requires DistinctSockets(t.clients) && Owned(t)
    ensures Owned(SweepTable(t, events)) <==>
            forall i :: Shadowed(t.clients, events, i) ==> !HasMapping(t.requests, t.clients[i].fd)
  {
    var after := SweepTable(t, events);
    SweepResult(t, events);
    LiveMembers(t.clients, events);
    DropAllMembers(t.requests, Dropped(t.clients, [], events));
    forall m | m in t.requests
      ensures m in after.requests && !HasClient(after.clients, m.clientSocket) <==>
              exists i :: Shadowed(t.clients, events, i) && m.clientSocket == t.clients[i].fd
    {
      Stranded(t, events, m);
    }
  }

  /** A mapping is left without a client exactly when its client is shadowed. */
  lemma Stranded(t: Table, events: Readable, m: Mapping)
    requires DistinctSockets(t.clients) && Owned(t) && m in t.requests
    ensures m.clientSocket !in Dropped(t.clients, [], events) && !HasClient(Live(t.clients, events), m.clientSocket) <==>
            exists i :: Shadowed(t.clients, events, i) && m.clientSocket == t.clients[i].fd
  {
    LiveMembers(t.clients, events);
    assert HasClient(t.clients, m.clientSocket);
    var c :| c in t.clients && c.fd == m.clientSocket;
    var i :| 0 <= i < |t.clients| && t.clients[i] == c;
    DroppedExactly(t.clients, events, i);
    assert forall k :: 0 <= k < |t.clients| && t.clients[k].fd == c.fd ==> k == i;
    forall x | x in t.clients && x.fd == c.fd ensures x == c {
      var k :| 0 <= k < |t.clients| && t.clients[k] == x;
    }
  }

  /** It keeps every mapping of every live client exactly when no live client
      right behind a dead one has a mapping. */
  lemma SweepSparesLiveIff(t: Table, events: Readable)
    requires DistinctSockets(t.clients)
    ensures (forall m :: m in t.requests && HasClient(Live(t.clients, events), m.clientSocket) ==> m in SweepTable(t, events).requests)
            <==> forall j :: Hit(t.clients, events, j) ==> !HasMapping(t.requests, t.clients[j].fd)
  {
    SweepResult(t, events);
    LiveMembers(t.clients, events);
    DropAllMembers(t.requests, Dropped(t.clients, [], events));
    forall j | 0 <= j < |t.clients| && !Dead(t.clients[j], events)
      ensures HasClient(Live(t.clients, events), t.clients[j].fd)
      ensures t.clients[j].fd in Dropped(t.clients, [], events) <==> Hit(t.clients, events, j)
    {
      assert t.clients[j] in t.clients;
      DroppedExactly(t.clients, events, j);
    }
  }

  /** The sweep does what is intended exactly when neither kind of client has a mapping. */
  lemma SweepIsIntendedIff(t: Table, events: Readable)
    requires DistinctSockets(t.clients)
    ensures SweepTable(t, events) == Intended(t, events) <==>
            forall i :: Shadowed(t.clients, events, i) || Hit(t.clients, events, i) ==> !HasMapping(t.requests, t.clients[i].fd)
  {
    var a, b := Dropped(t.clients, [], events), DeadSockets(t.clients, events);
    SweepResult(t, events);
    DropAllSame(t.requests, a, b);
    DroppedAreClients(t.clients, events);
    forall i | 0 <= i < |t.clients|
      ensures (t.clients[i].fd in a <==> t.clients[i].fd in b) <==> !(Shadowed(t.clients, events, i) || Hit(t.clients, events, i))
    {
      DroppedExactly(t.clients, events, i);
      DeadSocketOf(t.clients, events, i);
    }
    forall m | m in t.requests && !HasClient(t.clients, m.clientSocket) ensures m.clientSocket !in a + b {
    }
  }

  lemma DeadSocketOf(clients: seq<ClientInfo>, events: Readable, i: nat)
    requires DistinctSockets(clients) && i < |clients|
    ensures clients[i].fd in DeadSockets(clients, events) <==> Dead(clients[i], events)
  {
    assert clients[i] in clients;
    forall c | c in clients && c.fd == clients[i].fd ensures c == clients[i] {
      var k :| 0 <= k < |clients| && clients[k] == c;
    }
  }

  lemma DropAllSame(requests: seq<Mapping>, a: set<int>, b: set<int>)
    ensures DropAll(requests, a) == DropAll(requests, b) <==>
            forall m :: m in requests ==> (m.clientSocket in a <==> m.clientSocket in b)
  {
    hide DropAll;
    if forall m :: m in requests ==> (m.clientSocket in a <==> m.clientSocket in b) {
      DropAllEqual(requests, a, b);
    } else {
      DropAllMembers(requests, a);
      DropAllMembers(requests, b);
    }
  }

  lemma {:induction false} DropAllEqual(requests: seq<Mapping>, a: set<int>, b: set<int>)
    requires forall m :: m in requests ==> (m.clientSocket in a <==> m.clientSocket in b)
    ensures DropAll(requests, a) == DropAll(requests, b)
  {
    if requests != [] {
      assert requests[0] in requests && forall m :: m in requests[1..] ==> m in requests;
      DropAllEqual(requests[1..], a, b);
    }
  }

  /** Two clients, the first one closed: its mapping stays behind and the live
      client loses its own. */
  lemma SweepHitsTheNeighbour() returns (t: Table, events: Readable)
    ensures t == Table([ClientInfo(7, true), ClientInfo(8, true)], [Mapping(7, "a", true), Mapping(8, "b", true)])
    ensures DistinctSockets(t.clients) && Owned(t) && !Owned(SweepTable(t, events))
    ensures SweepTable(t, events) == Table([ClientInfo(8, true)], [Mapping(7, "a", true)])
    ensures Intended(t, events) == Table([ClientInfo(8, true)], [Mapping(8, "b", true)])
  {
    var dead, live := ClientInfo(7, true), ClientInfo(8, true);
    var ma, mb := Mapping(7, "a", true), Mapping(8, "b", true);
    t := Table([dead, live], [ma, mb]);
    events := map[7 := Closed];
    assert HasClient(t.clients, 7) by { assert dead in t.clients; }
    assert HasClient(t.clients, 8) by { assert live in t.clients; }
    assert Dead(dead, events) && !Dead(live, events);
    assert t.clients[1] == live && t.clients[..1] == [dead] && [dead][..0] == [];
    assert [live] + [] == [live];
    assert SweepDown(t.clients, [], t.requests, events) == SweepDown([dead], [live], t.requests, events);
    assert t.requests[1..] == [mb] && [mb][1..] == [];
    assert DropSocket([mb], 8) == DropSocket([mb][1..], 8) == [];
    assert DropSocket(t.requests, 8) == [ma] + DropSocket(t.requests[1..], 8) == [ma];
    var after := SweepTable(t, events);
    assert SweepDown([dead], [live], t.requests, events) == SweepDown([], [live], [ma], events);
    assert after.requests == [ma] && ma in after.requests;
    assert !HasClient(after.clients, 7);
    assert t.clients[1..] == [live] && [live][1..] == [];
    assert Live([live], events) == [live] + Live([live][1..], events) == [live];
    assert Live(t.clients, events) == [] + Live(t.clients[1..], events) == [live];
    assert DeadSockets(t.clients, events) == {7} by {
      assert dead in t.clients && Dead(dead, events);
    }
    assert DropAll([mb], {7}) == [mb] + DropAll([mb][1..], {7}) == [mb];
    assert DropAll(t.requests, {7}) == [] + DropAll(t.requests[1..], {7}) == [mb];
  }

  // The sweep with the descriptor read before the erase

  /** The same loop, but the dead client's descriptor is copied out of the vector
      before its element is erased. */
  function CapturedDown(clients: seq<ClientInfo>, survivors: seq<ClientInfo>, requests: seq<Mapping>, events: Readable): Table {
    if clients == [] then Table(survivors, requests)
    else
      var c, rest := clients[|clients| - 1], clients[..|clients| - 1];
      if Dead(c, events)
      then CapturedDown(rest, survivors, DropSocket(requests, c.fd), events)
      else CapturedDown(rest, [c] + survivors, requests, events)
  }

  lemma DeadSocketsLast(rest: seq<ClientInfo>, c: ClientInfo, events: Readable)
    ensures DeadSockets(rest + [c], events) == (if Dead(c, events) then {c.fd} else {}) + DeadSockets(rest, events)
  {
    assert forall x :: x in rest + [c] <==> x in rest || x == c;
  }

  lemma {:induction false} CapturedKeepsLive(clients: seq<ClientInfo>, survivors: seq<ClientInfo>, requests: seq<Mapping>, events: Readable)
    ensures CapturedDown(clients, survivors, requests, events).clients == Live(clients, events) + survivors
  {
    hide DropSocket;
    if clients != [] {
      var c, rest := clients[|clients| - 1], clients[..|clients| - 1];
      assert clients == rest + [c] && [c][1..] == [];
      LiveAppend(rest, [c], events);
      if Dead(c, events) {
        CapturedKeepsLive(rest, survivors, DropSocket(requests, c.fd), events);
      } else {
        CapturedKeepsLive(rest, [c] + survivors, requests, events);
      }
    }
  }

  lemma {:induction false} CapturedDrops(clients: seq<ClientInfo>, survivors: seq<ClientInfo>, requests: seq<Mapping>, events: Readable)
    ensures CapturedDown(clients, survivors, requests, events).requests == DropAll(requests, DeadSockets(clients, events))
  {
    hide DropSocket, DropAll;
    if clients == [] {
      assert DeadSockets(clients, events) == {};
      DropNothing(requests);
    } else {
      hide DeadSockets;
      var c, rest := clients[|clients| - 1], clients[..|clients| - 1];
      assert clients == rest + [c];
      DeadSocketsLast(rest, c, events);
      if Dead(c, events) {
        CapturedDrops(rest, survivors, DropSocket(requests, c.fd), events);
        DropSocketIsDropAll(requests, c.fd, DeadSockets(rest, events));
      } else {
        CapturedDrops(rest, [c] + survivors, requests, events);
        assert {} + DeadSockets(rest, events) == DeadSockets(rest, events);
      }
    }
  }

  /** Read before the erase, the descriptor makes the loop do what is intended, in
      every table. */
  lemma CapturedIsIntended(t: Table, events: Readable)
    ensures CapturedDown(t.clients, [], t.requests, events) == Intended(t, events)
  {
    CapturedKeepsLive(t.clients, [], t.requests, events);
    CapturedDrops(t.clients, [], t.requests, events);
  }

  // Whole runs

  /** When the loop reads the descriptor of the client it erases. */
  datatype Reading = AfterErase | BeforeErase

  /** `Retire` is the pump erasing the mapping at an index. */
  datatype Step = Accept(fd: int) | Register(mapping: Mapping) | Retire(at: nat) | SweepReadable(events: Readable)

  /** A new connection joins unless the table is full; then it is closed. */
  function AcceptClient(clients: seq<ClientInfo>, fd: int): seq<ClientInfo> {
    if fd >= 0 && |clients| < MAX_CLIENTS then clients + [ClientInfo(fd, true)] else clients
  }

  function Swept(reading: Reading, t: Table, events: Readable): Table {
    if reading.AfterErase? then SweepTable(t, events) else CapturedDown(t.clients, [], t.requests, events)
  }

  /** The sockets whose mappings a sweep drops. */
  function DroppedBy(reading: Reading, clients: seq<ClientInfo>, events: Readable): set<int> {
    if reading.AfterErase? then Dropped(clients, [], events) else DeadSockets(clients, events)
  }

  lemma SweptIs(reading: Reading, t: Table, events: Readable)
    ensures Swept(reading, t, events) == Table(Live(t.clients, events), DropAll(t.requests, DroppedBy(reading, t.clients, events)))
  {
    SweepResult(t, events);
    CapturedKeepsLive(t.clients, [], t.requests, events);
    CapturedDrops(t.clients, [], t.requests, events);
  }

  function Next(reading: Reading, t: Table, s: Step): Table {
    match s
    case Accept(fd) => t.(clients := AcceptClient(t.clients, fd))
    case Register(m) => t.(requests := t.requests + [m])
    case Retire(at) => if at < |t.requests| then t.(requests := t.requests[..at] + t.requests[at + 1..]) else t
    case SweepReadable(events) => Swept(reading, t, events)
  }

  /** The kernel's part: `accept` returns a descriptor that is not in use. */
  ghost predicate FreshRun(reading: Reading, t: Table, steps: seq<Step>)
    decreases |steps|
  {
    steps != [] ==>
      && (steps[0].Accept? && steps[0].fd >= 0 ==> !HasClient(t.clients, steps[0].fd))
      && FreshRun(reading, Next(reading, t, steps[0]), steps[1..])
  }

  function RunTable(reading: Reading, t: Table, steps: seq<Step>): Table
    decreases |steps|
  {
    if steps == [] then t else RunTable(reading, Next(reading, t, steps[0]), steps[1..])
  }

  lemma {:induction false} LiveDistinct(clients: seq<ClientInfo>, events: Readable)
    requires DistinctSockets(clients)
    ensures DistinctSockets(Live(clients, events))
  {
    if clients != [] {
      var c, rest := clients[0], clients[1..];
      assert clients == [c] + rest;
      assert forall i :: 0 <= i < |rest| ==> clients[i + 1] == rest[i];
      assert DistinctSockets(rest);
      LiveDistinct(rest, events);
      LiveMembers(rest, events);
      var kept := Live(rest, events);
      forall j | 0 <= j < |kept| ensures kept[j].fd != c.fd {
        assert kept[j] in kept;
        var k :| 0 <= k < |rest| && rest[k] == kept[j];
      }
      assert forall j :: 0 < j < |[c] + kept| ==> ([c] + kept)[j] == kept[j - 1];
    }
  }

  lemma StepKeepsClients(reading: Reading, t: Table, s: Step)
    requires |t.clients| <= MAX_CLIENTS && DistinctSockets(t.clients)
    requires s.Accept? && s.fd >= 0 ==> !HasClient(t.clients, s.fd)
    ensures |Next(reading, t, s).clients| <= MAX_CLIENTS && DistinctSockets(Next(reading, t, s).clients)
  {
    match s
    case Accept(fd) => assert forall i :: 0 <= i < |t.clients| ==> t.clients[i] in t.clients;
    case SweepReadable(events) =>
      SweptIs(reading, t, events);
      LiveMembers(t.clients, events);
      LiveDistinct(t.clients, events);
    case _ =>
  }

  /** Whatever is registered and swept, and however the sweep reads its
      descriptors: never more than 512 clients, never a socket twice. */
  lemma {:induction false} ClientsBounded(reading: Reading, t: Table, steps: seq<Step>)
    requires |t.clients| <= MAX_CLIENTS && DistinctSockets(t.clients) && FreshRun(reading, t, steps)
    ensures |RunTable(reading, t, steps).clients| <= 512 && DistinctSockets(RunTable(reading, t, steps).clients)
    decreases |steps|
  {
    if steps != [] {
      StepKeepsClients(reading, t, steps[0]);
      ClientsBounded(reading, Next(reading, t, steps[0]), steps[1..]);
    }
  }

  /** Every mapping belongs to a connected client in every table of the run. */
  ghost predicate OwnedThroughout(reading: Reading, t: Table, steps: seq<Step>)
    decreases |steps|
  {
    Owned(t) && (steps != [] ==> OwnedThroughout(reading, Next(reading, t, steps[0]), steps[1..]))
  }

  /** A step that leaves no mapping without a client: a registration for a
      connected client, a sweep where no dead client with a live one behind it
      has a mapping, and any sweep that reads before the erase. */
  ghost predicate StrandsNothing(reading: Reading, t: Table, s: Step) {
    match s
    case Register(m) => HasClient(t.clients, m.clientSocket)
    case SweepReadable(events) =>
      reading.AfterErase? ==> forall i :: Shadowed(t.clients, events, i) ==> !HasMapping(t.requests, t.clients[i].fd)
    case _ => true
  }

  ghost predicate NothingStranded(reading: Reading, t: Table, steps: seq<Step>)
    decreases |steps|
  {
    steps != [] ==> StrandsNothing(reading, t, steps[0]) && NothingStranded(reading, Next(reading, t, steps[0]), steps[1..])
  }

  /** The intended sweep drops the dead clients' mappings and no others, and keeps
      every mapping owned. */
  lemma IntendedKeepsOwned(t: Table, events: Readable)
    requires Owned(t)
    ensures Owned(Intended(t, events))
    ensures forall m :: m in t.requests ==>
              (m in Intended(t, events).requests <==> m.clientSocket !in DeadSockets(t.clients, events))
  {
    LiveMembers(t.clients, events);
    DropAllMembers(t.requests, DeadSockets(t.clients, events));
    forall m | m in Intended(t, events).requests ensures HasClient(Live(t.clients, events), m.clientSocket) {
      assert HasClient(t.clients, m.clientSocket);
    }
  }

  lemma StepKeepsOwnedIff(reading: Reading, t: Table, s: Step)
    requires DistinctSockets(t.clients) && Owned(t)
    ensures Owned(Next(reading, t, s)) <==> StrandsNothing(reading, t, s)
  {
    var after := Next(reading, t, s);
    match s {
      case Accept(fd) =>
        forall m | m in t.requests ensures HasClient(after.clients, m.clientSocket) {
          var c :| c in t.clients && c.fd == m.clientSocket;
          assert c in after.clients;
        }
      case Register(m) => assert m in after.requests;
      case Retire(at) =>
      case SweepReadable(events) =>
        if reading.AfterErase? {
          SweepKeepsOwnedIff(t, events);
        } else {
          CapturedIsIntended(t, events);
          IntendedKeepsOwned(t, events);
        }
    }
  }

  /** The exact condition on a whole run for every mapping to have a connected
      client all along. */
  lemma {:induction false} OwnedThroughoutIff(reading: Reading, t: Table, steps: seq<Step>)
    requires |t.clients| <= MAX_CLIENTS && DistinctSockets(t.clients) && Owned(t) && FreshRun(reading, t, steps)
    ensures OwnedThroughout(reading, t, steps) <==> NothingStranded(reading, t, steps)
    decreases |steps|
  {
    if steps != [] {
      var after := Next(reading, t, steps[0]);
      StepKeepsOwnedIff(reading, t, steps[0]);
      StepKeepsClients(reading, t, steps[0]);
      if Owned(after) {
        OwnedThroughoutIff(reading, after, steps[1..]);
      }
    }
  }

  /** Mappings are registered for connected clients. */
  ghost predicate Registered(reading: Reading, t: Table, steps: seq<Step>)
    decreases |steps|
  {
    steps != [] ==>
      && (steps[0].Register? ==> HasClient(t.clients, steps[0].mapping.clientSocket))
      && Registered(reading, Next(reading, t, steps[0]), steps[1..])
  }

  /** With the descriptor read before the erase no sweep of any run strands a mapping. */
  lemma {:induction false} CapturedKeepsOwned(t: Table, steps: seq<Step>)
    requires |t.clients| <= MAX_CLIENTS && DistinctSockets(t.clients) && Owned(t)
    requires FreshRun(BeforeErase, t, steps) && Registered(BeforeErase, t, steps)
    ensures OwnedThroughout(BeforeErase, t, steps)
    decreases |steps|
  {
    if steps != [] {
      StepKeepsOwnedIff(BeforeErase, t, steps[0]);
      StepKeepsClients(BeforeErase, t, steps[0]);
      CapturedKeepsOwned(Next(BeforeErase, t, steps[0]), steps[1..]);
    }
  }

  // The pump in these runs

  lemma {:induction false} KeptByRetiring(
      reading: Reading, clients: seq<ClientInfo>, kept: seq<Mapping>, streams: map<string, Stream>, done: seq<Mapping>, todo: seq<Mapping>)
    returns (steps: seq<Step>)
    requires AllWf(streams)
    ensures forall s :: s in steps ==> s.Retire?
    ensures RunTable(reading, Table(clients, kept + todo), steps) == Table(clients, kept + Kept(streams, done, todo))
    decreases |todo|
  {
    if todo == [] {
      steps := [];
    } else {
      var m, rest := todo[0], todo[1..];
      var later := Kept(streams, done + [m], rest);
      if m.active && ListAt(streams, done + [m], m.requestId).Some? {
        Regroup(kept, [m], rest);
        Regroup(kept, [m], later);
        assert [m] + rest == todo;
        steps := KeptByRetiring(reading, clients, kept + [m], streams, done + [m], rest);
      } else {
        steps := KeptByRetiring(reading, clients, kept, streams, done + [m], rest);
        var t, retire := Table(clients, kept + todo), Retire(|kept|);
        assert Next(reading, t, retire) == Table(clients, kept + rest) by {
          assert (kept + todo)[..|kept|] == kept && (kept + todo)[|kept| + 1..] == rest;
        }
        assert ([retire] + steps)[1..] == steps;
        steps := [retire] + steps;
        assert [] + later == later;
      }
    }
  }

  /** To the table, a pump pass is a number of retirements. */
  lemma PassIsRetiring(reading: Reading, t: Table, streams: map<string, Stream>, log: seq<Sent>) returns (steps: seq<Step>)
    requires AllWf(streams)
    ensures forall s :: s in steps ==> s.Retire?
    ensures RunTable(reading, t, steps) == t.(requests := Pass(System(t.requests, streams, log)).requests)
  {
    PassExactly(System(t.requests, streams, log));
    steps := KeptByRetiring(reading, t.clients, [], streams, [], t.requests);
    assert [] + t.requests == t.requests;
    assert [] + Kept(streams, [], t.requests) == Kept(streams, [], t.requests);
  }
}
