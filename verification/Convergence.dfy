/** Pumping finished streams to exhaustion: how many passes it takes, what is
    left after each of them and what has been sent. */
module Convergence {
  import opened Common
  import opened Streams
  import opened Pump
  import opened Traffic

  /** No list is shared, every mapped list is finished: nothing more will come. */
  ghost predicate Draining(sys: System) {
    && AllWf(sys.streams)
    && DistinctActive(sys.requests)
    && forall id :: Mapped(sys.requests, id) && id in sys.streams ==> sys.streams[id].finished
  }

  function Rounds(sys: System, n: nat): (r: System)
    requires AllWf(sys.streams)
    ensures AllWf(r.streams)
    decreases n
  {
    if n == 0 then sys else Rounds(Pass(sys), n - 1)
  }

  // Tables

  lemma DistinctCons(m: Mapping, rest: seq<Mapping>)
    ensures DistinctActive([m] + rest) <==> DistinctActive(rest) && (m.active ==> !Mapped(rest, m.requestId))
  {
    var all := [m] + rest;
    if DistinctActive(all) {
      assert forall i :: 0 <= i < |rest| ==> all[i + 1] == rest[i];
      forall x | x in rest && x.active && m.active ensures x.requestId != m.requestId {
        var i :| 0 <= i < |rest| && rest[i] == x;
        assert all[0] == m && all[i + 1] == x;
      }
    } else {
      var i, j :| 0 <= i < j < |all| && all[i].active && all[j].active && all[i].requestId == all[j].requestId;
      assert all[j] == rest[j - 1];
      assert i > 0 ==> all[i] == rest[i - 1];
    }
  }

  lemma {:induction false} SurvivorsDistinct(requests: seq<Mapping>, streams: map<string, Stream>)
    requires AllWf(streams) && DistinctActive(requests)
    ensures DistinctActive(Survivors(requests, streams))
    ensures forall id :: Mapped(Survivors(requests, streams), id) <==>
              Mapped(requests, id) && id in streams && VisitRest(streams[id]).Some?
  {
    if requests != [] {
      var m, rest := requests[0], requests[1..];
      assert requests == [m] + rest;
      DistinctCons(m, rest);
      SurvivorsDistinct(rest, streams);
      DistinctCons(m, Survivors(rest, streams));
      forall id
        ensures Mapped(requests, id) <==> Mapped(rest, id) || (m.active && m.requestId == id)
        ensures Mapped([m] + Survivors(rest, streams), id) <==> Mapped(Survivors(rest, streams), id) || (m.active && m.requestId == id)
      {
        MappedCons(m, rest, id);
        MappedCons(m, Survivors(rest, streams), id);
      }
    }
  }

  // One pass

  lemma PassKeepsDraining(sys: System)
    requires Draining(sys)
    ensures Draining(Pass(sys))
  {
    DistinctIsUncontended(sys.requests, sys.streams);
    PassClosed(sys);
    SurvivorsDistinct(sys.requests, sys.streams);
  }

  // Strict progress

  function Weight(requests: seq<Mapping>, streams: map<string, Stream>): nat
    requires AllWf(streams)
  {
    if requests == [] then 0
    else 1 + Left(requests[0], streams) + Weight(requests[1..], streams)
  }

  /** The tokens a mapping still has to deliver. */
  function Left(m: Mapping, streams: map<string, Stream>): nat
    requires AllWf(streams)
  {
    if m.active && m.requestId in streams then streams[m.requestId].Remaining() else 0
  }

  lemma {:induction false} WeightDrops(requests: seq<Mapping>, before: map<string, Stream>, after: map<string, Stream>)
    requires AllWf(before) && AllWf(after)
    requires forall m :: m in requests && m.active && m.requestId in before ==> before[m.requestId].finished
    requires forall m :: m in requests && Survives(m, before) ==>
               m.requestId in after && after[m.requestId] == VisitRest(before[m.requestId]).value
    ensures Weight(Survivors(requests, before), after) + |requests| <= Weight(requests, before)
  {
    if requests != [] {
      var m, rest := requests[0], requests[1..];
      assert m in requests && forall x :: x in rest ==> x in requests;
      WeightDrops(rest, before, after);
      var kept := Survivors(rest, before);
      assert ([m] + kept)[0] == m && ([m] + kept)[1..] == kept && [] + kept == kept;
    }
  }

  /** Every pass over a table that is not empty makes the total of
      (1 + remaining tokens) strictly smaller. */
  lemma PassMakesProgress(sys: System)
    requires Draining(sys) && sys.requests != []
    ensures Weight(Pass(sys).requests, Pass(sys).streams) < Weight(sys.requests, sys.streams)
  {
    DistinctIsUncontended(sys.requests, sys.streams);
    PassClosed(sys);
    forall m | m in sys.requests && m.active ensures Mapped(sys.requests, m.requestId) {
    }
    WeightDrops(sys.requests, sys.streams, Pass(sys).streams);
  }

  // Exactly what n passes do

  /** The mappings with more than n tokens to deliver. */
  function Longer(requests: seq<Mapping>, streams: map<string, Stream>, n: nat): seq<Mapping>
    requires AllWf(streams)
  {
    if requests == [] then []
    else (if Left(requests[0], streams) > n then [requests[0]] else []) + Longer(requests[1..], streams, n)
  }

  lemma {:induction false} LongerOfSurvivors(requests: seq<Mapping>, before: map<string, Stream>, after: map<string, Stream>, n: nat)
    requires AllWf(before) && AllWf(after)
    requires forall m :: m in requests && m.active && m.requestId in before ==> before[m.requestId].finished
    requires forall m :: m in requests && Survives(m, before) ==>
               m.requestId in after && after[m.requestId] == VisitRest(before[m.requestId]).value
    ensures Longer(Survivors(requests, before), after, n) == Longer(requests, before, n + 1)
  {
    hide Survives, Left, VisitRest;
    if requests != [] {
      var m, rest := requests[0], requests[1..];
      assert m in requests && forall x :: x in rest ==> x in requests;
      LongerOfSurvivors(rest, before, after, n);
      var kept := Survivors(rest, before);
      assert ([m] + kept)[0] == m && ([m] + kept)[1..] == kept && [] + kept == kept;
      OneLess(m, before, after, n);
    }
  }

  /** A pass takes one token from every mapping that survives it. */
  lemma OneLess(m: Mapping, before: map<string, Stream>, after: map<string, Stream>, n: nat)
    requires AllWf(before) && AllWf(after)
    requires m.active && m.requestId in before ==> before[m.requestId].finished
    requires Survives(m, before) ==> m.requestId in after && after[m.requestId] == VisitRest(before[m.requestId]).value
    ensures Survives(m, before) && Left(m, after) > n <==> Left(m, before) > n + 1
  {
  }

  lemma {:induction false} SurvivorsAreLonger(requests: seq<Mapping>, streams: map<string, Stream>)
    requires AllWf(streams)
    requires forall m :: m in requests && m.active && m.requestId in streams ==> streams[m.requestId].finished
    ensures Survivors(requests, streams) == Longer(requests, streams, 1)
  {
    hide Survives, Left;
    if requests != [] {
      assert requests[0] in requests && forall x :: x in requests[1..] ==> x in requests;
      SurvivorsAreLonger(requests[1..], streams);
      MoreThanOne(requests[0], streams);
    }
  }

  lemma MoreThanOne(m: Mapping, streams: map<string, Stream>)
    requires AllWf(streams)
    requires m.active && m.requestId in streams ==> streams[m.requestId].finished
    ensures Survives(m, streams) <==> Left(m, streams) > 1
  {
  }

  /** After n >= 1 passes exactly the mappings with more than n tokens are left,
      in their old order. */
  lemma {:induction false} TableAfter(sys: System, n: nat)
    requires Draining(sys) && n >= 1
    ensures Rounds(sys, n).requests == Longer(sys.requests, sys.streams, n)
    decreases n
  {
    DistinctIsUncontended(sys.requests, sys.streams);
    PassClosed(sys);
    forall m | m in sys.requests && m.active ensures Mapped(sys.requests, m.requestId) {
    }
    if n == 1 {
      assert Rounds(sys, 1) == Rounds(Pass(sys), 0) == Pass(sys);
      SurvivorsAreLonger(sys.requests, sys.streams);
    } else {
      PassKeepsDraining(sys);
      TableAfter(Pass(sys), n - 1);
      LongerOfSurvivors(sys.requests, sys.streams, Pass(sys).streams, n - 1);
    }
  }

  /** After n passes over any table, shared and unfinished lists included, every
      list is what n visits for each of its active mappings leave, and exactly the
      tokens these take were sent, in order. */
  lemma {:induction false} ServedAfter(sys: System, id: string, n: nat)
    requires AllWf(sys.streams)
    ensures var list, visits := Lookup(sys.streams, id), Users(sys.requests, id) * n;
            && Lookup(Rounds(sys, n).streams, id) == RestAfter(list, visits)
            && SentFor(Rounds(sys, n).log, id) == SentFor(sys.log, id) + Taken(list, visits)
    decreases n
  {
    hide Pass, Users, Taken;
    var list, k := Lookup(sys.streams, id), Users(sys.requests, id);
    if n == 0 {
      NoVisits(list, SentFor(sys.log, id));
    } else {
      var next := Pass(sys);
      ServedAfter(next, id, n - 1);
      PassServes(sys, id);
      PassKeepsUsers(sys, id);
      var later := Users(next.requests, id) * (n - 1);
      Product(k, n - 1);
      ThenVisits(list, Lookup(next.streams, id), k, k * (n - 1), later, false);
      Regroup(SentFor(sys.log, id), Taken(list, k), Taken(Lookup(next.streams, id), later));
    }
  }

  lemma {:induction false} LongerThanAll(requests: seq<Mapping>, streams: map<string, Stream>, n: nat)
    requires AllWf(streams)
    ensures Longer(requests, streams, n) == [] <==> forall m :: m in requests ==> Left(m, streams) <= n
  {
    if requests != [] {
      assert requests == [requests[0]] + requests[1..];
      LongerThanAll(requests[1..], streams, n);
    }
  }

  /** The table is empty after n >= 1 passes exactly when no mapping had more
      than n tokens to deliver: the pump needs max(1, longest list) passes. */
  lemma EmptyAfterLongest(sys: System, n: nat)
    requires Draining(sys) && n >= 1
    ensures Rounds(sys, n).requests == [] <==> forall m :: m in sys.requests ==> Left(m, sys.streams) <= n
  {
    TableAfter(sys, n);
    LongerThanAll(sys.requests, sys.streams, n);
  }

  /** Enough visits free a finished list and take everything in front of its cursor. */
  lemma UsedUp(list: Option<Stream>, n: nat)
    requires list.Some? ==> list.value.Wf() && list.value.finished && list.value.Remaining() <= n
    requires n >= 1
    ensures RestAfter(list, n) == None && Taken(list, n) == if list.Some? then list.value.Ahead() else []
  {
    if list.Some? {
      RestClosed(list.value, n);
    } else {
      NoListAfter(n);
    }
  }

  /** And then every mapped list is freed, every other list untouched, and each
      request got all the tokens in front of its cursor, in order. */
  lemma Drained(sys: System, n: nat, id: string)
    requires Draining(sys) && n >= 1
    requires forall m :: m in sys.requests ==> Left(m, sys.streams) <= n
    ensures Rounds(sys, n).requests == []
    ensures Lookup(Rounds(sys, n).streams, id) == if Mapped(sys.requests, id) then None else Lookup(sys.streams, id)
    ensures SentFor(Rounds(sys, n).log, id) ==
            SentFor(sys.log, id) + if Mapped(sys.requests, id) && id in sys.streams then sys.streams[id].Ahead() else []
  {
    hide Rounds, RestAfter, Taken, Users;
    EmptyAfterLongest(sys, n);
    ServedAfter(sys, id, n);
    MappedIffUsed(sys.requests, id);
    OneUser(sys.requests, id);
    if Mapped(sys.requests, id) {
      var m :| m in sys.requests && m.active && m.requestId == id;
      assert Left(m, sys.streams) <= n;
      UsedUp(Lookup(sys.streams, id), n);
    } else {
      NoVisits(Lookup(sys.streams, id), SentFor(sys.log, id));
      assert SentFor(sys.log, id) + [] == SentFor(sys.log, id);
    }
  }

  /** Whatever the table, the log only grows, and only by sends to the socket of a
      mapping that was in the table at the start. */
  lemma {:induction false} EverySendIsMapped(sys: System, n: nat)
    requires AllWf(sys.streams)
    ensures sys.log <= Rounds(sys, n).log
    ensures forall e :: e in Rounds(sys, n).log[|sys.log|..] ==> SentBy(e, sys.requests)
    decreases n
  {
    hide Pass;
    if n > 0 {
      var next, end := Pass(sys), Rounds(sys, n).log;
      OnePassSends(sys);
      EverySendIsMapped(next, n - 1);
      assert end[|sys.log|..] == next.log[|sys.log|..] + end[|next.log|..];
      forall e | e in end[|next.log|..] ensures SentBy(e, sys.requests) {
        assert SentBy(e, next.requests);
      }
    }
  }

  lemma OnePassSends(sys: System)
    requires AllWf(sys.streams)
    ensures sys.log <= Pass(sys).log
    ensures forall e :: e in Pass(sys).log[|sys.log|..] ==> SentBy(e, sys.requests)
    ensures forall e :: SentBy(e, Pass(sys).requests) ==> SentBy(e, sys.requests)
  {
    PassSends(sys.requests, sys.streams);
    assert Pass(sys).log[|sys.log|..] == VisitAll(sys.requests, sys.streams).log;
  }
}
