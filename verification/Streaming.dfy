/** From a finished result on a node to the bytes on a client's socket: the
    chunking loop, the token list and the pump put together. */
module Streaming {
  import opened Common
  import opened Streams
  import opened Pump
  import opened SystemDelivery
  import opened Traffic

  /** One streamed response: a piece of the result and the end mark. */
  datatype Chunk = Chunk(token: string, finished: bool)

  function TokensOf(chunks: seq<Chunk>): seq<string> {
    if chunks == [] then [] else [chunks[0].token] + TokensOf(chunks[1..])
  }

  lemma {:induction false} TokensOfAppend(chunks: seq<Chunk>, c: Chunk)
    ensures TokensOf(chunks + [c]) == TokensOf(chunks) + [c.token]
  {
    if chunks == [] {
      assert [c][1..] == [];
    } else {
      assert (chunks + [c])[1..] == chunks[1..] + [c];
      TokensOfAppend(chunks[1..], c);
    }
  }

  lemma {:induction false} FlattenAppend(parts: seq<string>, p: string)
    ensures Flatten(parts + [p]) == Flatten(parts) + p
  {
    if parts == [] {
      assert [p][1..] == [] && p + "" == p;
    } else {
      assert (parts + [p])[1..] == parts[1..] + [p];
      FlattenAppend(parts[1..], p);
    }
  }

  /** The chunking loop: the result cut into pieces of two bytes, the last one
      possibly shorter, with the end mark on exactly the last one. An empty
      result gives no message at all, and so no end mark. */
  method StreamResult(result: string) returns (chunks: seq<Chunk>)
    ensures |chunks| == (|result| + 1) / 2
    ensures Flatten(TokensOf(chunks)) == result
    ensures forall k :: 0 <= k < |chunks| ==> 1 <= |chunks[k].token| <= 2 && (k < |chunks| - 1 ==> |chunks[k].token| == 2)
    ensures forall k :: 0 <= k < |chunks| ==> (chunks[k].finished <==> k == |chunks| - 1)
  {
    chunks := [];
    var i := 0;
    while i < |result|
      invariant i % 2 == 0 && 0 <= i <= |result| + 1
      invariant |chunks| == i / 2
      invariant Flatten(TokensOf(chunks)) == result[..if i <= |result| then i else |result|]
      invariant forall k :: 0 <= k < |chunks| ==> 1 <= |chunks[k].token| <= 2 && (2 * k + 2 <= |result| ==> |chunks[k].token| == 2)
      invariant forall k :: 0 <= k < |chunks| ==> (chunks[k].finished <==> 2 * k + 2 >= |result|)
    {
      var end := if i + 2 <= |result| then i + 2 else |result|;
      var c := Chunk(result[i..end], i + 2 >= |result|);
      TokensOfAppend(chunks, c);
      FlattenAppend(TokensOf(chunks), c.token);
      assert result[..i] + result[i..end] == result[..end];
      chunks := chunks + [c];
      i := i + 2;
    }
    assert result[..|result|] == result;
  }

  // Through the gateway

  /** What callers hand to `addToken` for the id. */
  function Added(events: seq<Event>, id: string): seq<string> {
    if events == [] then []
    else
      var e := events[0];
      (if e.AddToken? && e.id == id && e.token.Some? then [e.token.value] else []) + Added(events[1..], id)
  }

  /** What the list keeps of the tokens. */
  function CStrings(tokens: seq<string>): seq<string> {
    if tokens == [] then [] else [CString(tokens[0])] + CStrings(tokens[1..])
  }

  lemma {:induction false} ArriveAsCStrings(events: seq<Event>, id: string)
    ensures Arrivals(events, id) == CStrings(Added(events, id))
  {
    if events != [] {
      ArriveAsCStrings(events[1..], id);
      var e, rest := events[0], Added(events[1..], id);
      if e.AddToken? && e.id == id && e.token.Some? {
        assert ([e.token.value] + rest)[1..] == rest;
      } else {
        assert Arrival(e, id) == [] && [] + Arrivals(events[1..], id) == Arrivals(events[1..], id);
        assert [] + rest == rest;
      }
    }
  }

  lemma {:induction false} CStringsCount(tokens: seq<string>)
    ensures |CStrings(tokens)| == |tokens|
  {
    if tokens != [] {
      CStringsCount(tokens[1..]);
    }
  }

  /** The list keeps every byte exactly when there is no NUL among them. */
  lemma {:induction false} NulFreeIff(tokens: seq<string>)
    ensures Flatten(CStrings(tokens)) == Flatten(tokens) <==> '\0' !in Flatten(tokens)
    ensures |Flatten(CStrings(tokens))| <= |Flatten(tokens)|
    ensures |Flatten(CStrings(tokens))| == |Flatten(tokens)| ==> '\0' !in Flatten(tokens)
  {
    if tokens != [] {
      NulFreeIff(tokens[1..]);
      CStringIdentity(tokens[0]);
    }
  }

  lemma {:induction false} FlattenConcat(a: seq<string>, b: seq<string>)
    ensures Flatten(a + b) == Flatten(a) + Flatten(b)
  {
    if a == [] {
      assert a + b == b && "" + Flatten(b) == Flatten(b);
    } else {
      assert (a + b)[1..] == a[1..] + b;
      FlattenConcat(a[1..], b);
      Regroup(a[0], Flatten(a[1..]), Flatten(b));
    }
  }

  /** End to end, while the gateway serves any number of other requests: the
      pieces of a result arrive for a request, its output is reset, and at least as
      many passes follow as there are pieces. The bytes sent for it are exactly the
      result if and only if they hold no NUL and the request has a reader: it was
      registered with no pass between the registration and the first piece, or
      after that piece. All of them go to its sockets, and its list is freed once
      it was marked finished and enough passes followed. */
  lemma ResultDelivered(sys: System, story: Story, id: string, sockets: set<int>, result: string)
    requires AllWf(sys.streams) && id !in sys.streams && OnSockets(sys.requests, id, sockets) && story.Of(id, sockets)
    requires Flatten(Added(story.arriving, id)) == result && |Added(story.arriving, id)| <= Passes(story.streaming)
    ensures var r := Run(sys, story.Events(id));
            Flatten(SentFor(r.log, id)) == Flatten(SentFor(sys.log, id)) + result <==>
            result == "" || (story.Readers(Users(sys.requests, id), id) > 0 && '\0' !in result)
    ensures var r := Run(sys, story.Events(id));
            sys.log <= r.log && forall e :: e in r.log[|sys.log|..] && e.requestId == id ==> e.socket in sockets
    ensures forall i :: FinishedAt(story, id, i) && story.Readers(Users(sys.requests, id), id) > 0 ==>
              id !in Run(sys, story.Events(id)).streams
  {
    hide Run, Story.Of, Story.Events, Story.Readers, OnSockets, Users;
    var pieces, base := Added(story.arriving, id), SentFor(sys.log, id);
    var k := story.Readers(Users(sys.requests, id), id);
    var sent := if k == 0 then [] else CStrings(pieces);
    ArriveAsCStrings(story.arriving, id);
    CStringsCount(pieces);
    RequestServed(sys, story, id, sockets);
    AtLeast(k, Passes(story.streaming));
    assert CStrings(pieces)[..|pieces|] == CStrings(pieces) && CStrings(pieces)[..0] == [];
    assert SentFor(Run(sys, story.Events(id)).log, id) == base + sent;
    FlattenConcat(base, sent);
    SameTail(Flatten(base), Flatten(sent), result);
    NulFreeIff(pieces);
    forall i | FinishedAt(story, id, i) && k > 0 ensures id !in Run(sys, story.Events(id)).streams {
      AtLeast(k, Passes(story.streaming[i + 1..]));
      RequestFreed(sys, story, i, id, sockets);
    }
  }

  lemma AtLeast(k: nat, n: nat)
    ensures if k == 0 then k * n == 0 else n <= k * n
  {
    if k > 0 {
      assert k * n == n + (k - 1) * n;
    }
  }

  /** The end mark comes at index i of the streaming part, and enough passes follow. */
  predicate FinishedAt(story: Story, id: string, i: int) {
    && 0 <= i < |story.streaming| && story.streaming[i] == MarkFinished(id)
    && 1 <= Passes(story.streaming[i + 1..]) && |Added(story.arriving, id)| <= Passes(story.streaming[i + 1..])
  }

  lemma SameTail(a: string, b: string, c: string)
    ensures a + b == a + c <==> b == c
  {
    assert (a + b)[|a|..] == b && (a + c)[|a|..] == c;
  }
}
