/** What reaches a client for one request id, over every interleaving of token
    arrivals, pump passes, end marks, resets and table changes. */
module Delivery {
  import opened Common
  import opened Streams
  import opened Pump

  // One request id on its own

  datatype Op = Add(token: Option<string>) | Visit | Finish | Reset

  /** One id: its list if there is one, every token ever added to the id, and
      every token sent for it. */
  datatype Track = Track(list: Option<Stream>, added: seq<string>, sent: seq<string>) {
    ghost predicate Wf() {
      list.Some? ==> list.value.Wf()
    }

    /** The list has a token under its cursor. */
    predicate Reading() {
      list.Some? && list.value.cursor.Some?
    }
  }

  function Arriving(token: Option<string>): seq<string> {
    if token.None? then [] else [CString(token.value)]
  }

  function Step(t: Track, op: Op): (r: Track)
    requires t.Wf()
    ensures r.Wf()
  {
    match op
    case Add(token) =>
      var list := if t.list.Some? then t.list.value else EMPTY;
      Track(Some(list.Append(token)), t.added + Arriving(token), t.sent)
    case Finish => if t.list.None? then t else t.(list := Some(t.list.value.Finish()))
    case Reset => if t.list.None? then t else t.(list := Some(t.list.value.Reset()))
    case Visit =>
      if t.list.None? then t
      else t.(list := VisitRest(t.list.value), sent := t.sent + Leaving(VisitToken(t.list.value)))
  }

  /** A token read back from a node has no NUL left to cut at. */
  function Leaving(token: Option<string>): seq<string> {
    if token.None? then [] else [token.value]
  }

  function Run(t: Track, ops: seq<Op>): (r: Track)
    requires t.Wf()
    ensures r.Wf()
    decreases |ops|
  {
    if ops == [] then t else Run(Step(t, ops[0]), ops[1..])
  }

  lemma {:induction false} RunAppend(t: Track, a: seq<Op>, b: seq<Op>)
    requires t.Wf()
    ensures Run(t, a + b) == Run(Run(t, a), b)
    decreases |a|
  {
    if a == [] {
      assert a + b == b;
    } else {
      assert (a + b)[1..] == a[1..] + b;
      RunAppend(Step(t, a[0]), a[1..], b);
    }
  }

  ghost predicate NoReset(ops: seq<Op>) {
    Reset !in ops
  }

  /** How far delivery has come: the cursor index while there is one; from the
      step at which the cursor becomes null on, the number of tokens at that
      moment. */
  function Frontier(t: Track, k: nat, ops: seq<Op>): nat
    requires t.Wf()
    decreases |ops|
  {
    if ops == [] then k
    else
      Frontier(Step(t, ops[0]), NextFrontier(t, k, ops[0]), ops[1..])
  }

  function NextFrontier(t: Track, k: nat, op: Op): nat
    requires t.Wf()
  {
    var next := Step(t, op);
    if !t.Reading() then k
    else if next.Reading() then next.list.value.cursor.value
    else |t.added|
  }

  /** The cursor stands at token `k` of everything added, or is null. */
  ghost predicate At(t: Track, k: nat) {
    && t.Wf()
    && k <= |t.added|
    && (t.Reading() ==> t.list.value.tokens == t.added && t.list.value.cursor.value == k)
  }

  lemma StepUpToFrontier(t: Track, k: nat, op: Op)
    requires At(t, k) && op != Reset
    ensures var n := NextFrontier(t, k, op); var r := Step(t, op);
            k <= n && t.added <= r.added && At(r, n) && r.sent == t.sent + r.added[k..n]
  {
  }

  /** With no reset in between, the tokens sent from position `k` on are exactly
      the added tokens from `k` up to the frontier, in order and once each. */
  lemma {:induction false} SentUpToFrontier(t: Track, k: nat, ops: seq<Op>)
    requires At(t, k) && NoReset(ops)
    ensures var n := Frontier(t, k, ops); var r := Run(t, ops);
            k <= n && t.added <= r.added && At(r, n) && r.sent == t.sent + r.added[k..n]
    decreases |ops|
  {
    hide Step, NextFrontier;
    if ops == [] {
      assert t.added[k..k] == [];
    } else {
      var next, k' := Step(t, ops[0]), NextFrontier(t, k, ops[0]);
      StepUpToFrontier(t, k, ops[0]);
      SentUpToFrontier(next, k', ops[1..]);
      JoinSlices(next.added, Run(t, ops).added, k, k', Frontier(t, k, ops));
    }
  }

  lemma JoinSlices(a: seq<string>, b: seq<string>, i: nat, j: nat, n: nat)
    requires a <= b && i <= j <= |a| && j <= n <= |b|
    ensures a[i..j] + b[j..n] == b[i..n]
  {
  }

  /** Exact delivery. Whatever happened before, and whatever is added, visited
      or finished after one `resetOutput`: the tokens sent are the first n tokens
      ever added to the list, n being the frontier. */
  lemma {:induction false} ExactDelivery(s: Stream, ops: seq<Op>)
    requires s.Wf() && NoReset(ops)
    ensures var t := Track(Some(s.Reset()), s.tokens, []);
            var n := Frontier(t, 0, ops);
            n <= |Run(t, ops).added| && Run(t, ops).sent == Run(t, ops).added[..n]
  {
    var t := Track(Some(s.Reset()), s.tokens, []);
    SentUpToFrontier(t, 0, ops);
    assert t.added[0..0] == [];
  }

  /** With no reset at all a request whose cursor is null sends nothing. */
  lemma {:induction false} NothingWithoutReset(t: Track, ops: seq<Op>)
    requires t.Wf() && !t.Reading() && NoReset(ops)
    ensures Run(t, ops).sent == t.sent && !Run(t, ops).Reading()
    decreases |ops|
  {
    if ops != [] {
      NothingWithoutReset(Step(t, ops[0]), ops[1..]);
    }
  }

  /** Some token arrives while the cursor is already null; a caller can see it
      coming by checking the cursor before each `addToken`. */
  predicate LateAdd(t: Track, ops: seq<Op>)
    requires t.Wf()
    decreases |ops|
  {
    ops != [] && ((ops[0].Add? && ops[0].token.Some? && !t.Reading()) || LateAdd(Step(t, ops[0]), ops[1..]))
  }

  lemma {:induction false} FrontierReachesEnd(t: Track, k: nat, ops: seq<Op>)
    requires At(t, k) && NoReset(ops)
    requires !t.Reading() ==> k == |t.added|
    ensures var n := Frontier(t, k, ops); var r := Run(t, ops);
            n == |r.added| <==> !r.Reading() && !LateAdd(t, ops)
    decreases |ops|
  {
    if ops != [] {
      var op, rest := ops[0], ops[1..];
      var next := Step(t, op);
      var k' := NextFrontier(t, k, op);
      if op.Add? && op.token.Some? && !t.Reading() {
        StuckBehind(next, k', rest);
      } else {
        FrontierReachesEnd(next, k', rest);
      }
    }
  }

  /** Once a token was missed the frontier never catches up. */
  lemma {:induction false} StuckBehind(t: Track, k: nat, ops: seq<Op>)
    requires At(t, k) && NoReset(ops) && !t.Reading() && k < |t.added|
    ensures Frontier(t, k, ops) == k < |Run(t, ops).added|
    decreases |ops|
  {
    if ops != [] {
      StuckBehind(Step(t, ops[0]), k, ops[1..]);
    }
  }

  /** The promise behind `isCompletelyFinished`, that everything was sent, holds
      exactly when the cursor has run off the end and no token arrived after the
      cursor was null. */
  lemma EverythingSentIff(s: Stream, ops: seq<Op>)
    requires s.Wf() && NoReset(ops)
    ensures var t := Track(Some(s.Reset()), s.tokens, []); var r := Run(t, ops);
            r.sent == r.added <==> !r.Reading() && !LateAdd(t, ops)
  {
    var t := Track(Some(s.Reset()), s.tokens, []);
    ExactDelivery(s, ops);
    SentUpToFrontier(t, 0, ops);
    FrontierReachesEnd(t, 0, ops);
  }

  /** A stream that catches up with its producer loses what comes next: the
      list is completely finished and freed with a token never sent. */
  lemma FinishedButNotSent() returns (s: Stream, ops: seq<Op>)
    ensures s.Wf() && NoReset(ops)
    ensures var r := Run(Track(Some(s.Reset()), s.tokens, []), ops);
            r.list.None? && r.added == ["a", "b"] && r.sent == ["a"]
  {
    s := Stream(["a"], None, false);
    ops := [Visit, Add(Some("b")), Finish, Visit];
    var t := Track(Some(s.Reset()), s.tokens, []);
    var t1 := Step(t, Visit);
    assert t1 == Track(Some(Stream(["a"], None, false)), ["a"], ["a"]);
    assert CString("b") == "b" by { CStringIdentity("b"); }
    var t2 := Step(t1, ops[1]);
    assert ["a"] + ["b"] == ["a", "b"];
    assert t2 == Track(Some(Stream(["a", "b"], None, false)), ["a", "b"], ["a"]);
    var t3 := Step(t2, Finish);
    var t4 := Step(t3, Visit);
    assert t4 == Track(None, ["a", "b"], ["a"]);
    assert Run(t3, [Visit]) == Run(t4, []);
    assert ops[3..] == [Visit] && ops[2..][1..] == ops[3..] && ops[1..][1..] == ops[2..];
    assert Run(t2, ops[2..]) == Run(t3, ops[3..]);
    assert Run(t1, ops[1..]) == Run(t2, ops[2..]);
  }
}
