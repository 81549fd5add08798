/** What each scanner of tcp_async_scan.cpp keeps as locals and changes through its mark_done. */
module ScanBooks {
  import opened InFlight
  import opened ScanLedger

  class Books {
    const ports: seq<int>
    const maxInflight: nat

    var nextIdx: nat
    var active: map<int, Pending>
    var out: WorkerResult
    // What this scanner has added to the two shared counters.
    var addedScanned: nat
    var addedOpen: nat

    ghost var log: seq<Event>

    constructor (ports: seq<int>, maxInflight: nat)
      ensures Valid() && log == [] && State() == Start(ports, maxInflight)
      ensures this.ports == ports && this.maxInflight == maxInflight
    {
      this.ports, this.maxInflight := ports, maxInflight;
      nextIdx, active, out, addedScanned, addedOpen, log := 0, map[], NOTHING, 0, 0, [];
    }

    function State(): Ledger
      reads this
    {
      Ledger(ports, maxInflight, nextIdx, active, out)
    }

    // The state is what the recorded events make of the start, and the shared
    // counters have been told of every one of them.
    ghost predicate Valid()
      reads this
    {
      && Replayable(Start(ports, maxInflight), log)
      && Replay(Start(ports, maxInflight), log) == State()
      && addedScanned == out.scanned
      && addedOpen == |out.open|
    }

    // The counters of one finished connection.
    method Count(port: int, v: Verdict)
      modifies this`out, this`addedScanned, this`addedOpen
      ensures out == Tally(old(out), port, v)
      ensures addedScanned == old(addedScanned) + 1
      ensures addedOpen == old(addedOpen) + if v.Connected? then 1 else 0
    {
      match v {
        case Connected(ms) =>
          out := out.(open := out.open + [TcpOpen(port, ms)]);
          addedOpen := addedOpen + 1;
        case Refused =>
          out := out.(refused := out.refused + 1);
        case Failed =>
          out := out.(other := out.other + 1);
      }
      out := out.(scanned := out.scanned + 1);
      addedScanned := addedScanned + 1;
    }

    // The next port is done without waiting.
    method Finish(v: Verdict)
      requires Valid() && nextIdx < |ports|
      modifies this
      ensures Valid()
      ensures log == old(log) + [Settle(v)] && State() == Apply(old(State()), Settle(v))
    {
      hide Replayable, Replay, Tally;
      TallyOpens(out, ports[nextIdx], v);
      Count(ports[nextIdx], v);
      nextIdx := nextIdx + 1;
      ReplayMore(Start(ports, maxInflight), log, Settle(v));
      log := log + [Settle(v)];
    }

    // The next port's connection joins those in flight.
    method Await(key: int, handle: int, started: int)
      requires Valid() && nextIdx < |ports| && |active| < maxInflight && key !in active
      modifies this
      ensures Valid()
      ensures log == old(log) + [Launch(key, handle, started)]
        && State() == Apply(old(State()), Launch(key, handle, started))
    {
      hide Replayable, Replay;
      active := active[key := Pending(handle, ports[nextIdx], started)];
      nextIdx := nextIdx + 1;
      ReplayMore(Start(ports, maxInflight), log, Launch(key, handle, started));
      log := log + [Launch(key, handle, started)];
    }

    // A connection in flight has got its verdict.
    method Complete(key: int, v: Verdict)
      requires Valid() && key in active
      modifies this
      ensures Valid()
      ensures log == old(log) + [Resolve(key, v)] && State() == Apply(old(State()), Resolve(key, v))
    {
      hide Replayable, Replay, Tally;
      TallyOpens(out, active[key].port, v);
      Count(active[key].port, v);
      active := active - {key};
      ReplayMore(Start(ports, maxInflight), log, Resolve(key, v));
      log := log + [Resolve(key, v)];
    }

    method ExpireOne(key: int)
      requires Valid() && key in active
      modifies this
      ensures Valid()
      ensures log == old(log) + [Expire(key)] && State() == Apply(old(State()), Expire(key))
    {
      hide Replayable, Replay;
      out := out.(timeouts := out.timeouts + 1);
      out := out.(scanned := out.scanned + 1);
      addedScanned := addedScanned + 1;
      active := active - {key};
      ReplayMore(Start(ports, maxInflight), log, Expire(key));
      log := log + [Expire(key)];
    }

    // The sweep over the connections in flight, in whatever order.
    method ExpireOld(now: int, timeoutMs: int)
      requires Valid()
      modifies this
      ensures Valid() && nextIdx == old(nextIdx)
      ensures SubMap(active, old(active)) && Young(active, now, timeoutMs)
      ensures |log| == |old(log)| + (|old(active)| - |active|) && old(log) <= log
      ensures Swept(old(active), now, timeoutMs, log[|old(log)|..])
    {
      hide Replayable, Replay, Valid;
      var todo := active.Keys;
      ghost var swept: seq<Event> := [];
      while exists k :: k in todo
        invariant Valid() && nextIdx == old(nextIdx) && log == old(log) + swept
        invariant todo <= active.Keys <= old(active.Keys)
        invariant forall k :: k in active ==> active[k] == old(active)[k]
        invariant Sweeping(old(active), active, todo, now, timeoutMs, swept)
        invariant |log| == |old(log)| + (|old(active)| - |active|)
        decreases todo
      {
        var k :| k in todo;
        todo := todo - {k};
        if now - active[k].started >= timeoutMs {
          MapMinusSize(active, k);
          ExpireOne(k);
          swept := swept + [Expire(k)];
        }
      }
    }

    // The return taken when the scanner cannot be set up.
    method GiveUpAll()
      requires Valid() && log == [] && State() == Start(ports, maxInflight)
      modifies this
      ensures Valid() && nextIdx == |ports| && active == map[]
      ensures log == GiveUp(|ports|)
    {
      out := out.(scanned := |ports|);
      out := out.(other := |ports|);
      addedScanned := addedScanned + |ports|;
      nextIdx := |ports|;
      GiveUpCounts(ports, maxInflight, |ports|);
      log := GiveUp(|ports|);
    }
  }

  // A sweep with `todo` still to be looked at.
  ghost predicate Sweeping(
      before: map<int, Pending>, active: map<int, Pending>, todo: set<int>, now: int, timeoutMs: int, swept: seq<Event>)
  {
    && (forall e :: e in swept ==> e.Expire? && e.key in before && now - before[e.key].started >= timeoutMs)
    && (forall k :: k in before && k !in todo ==>
         if now - before[k].started >= timeoutMs then k !in active && Expire(k) in swept else k in active)
  }

  // What the books record.
  lemma {:induction false} History(b: Books)
    requires b.Valid()
    ensures Replayable(Start(b.ports, b.maxInflight), b.log)
    ensures Replay(Start(b.ports, b.maxInflight), b.log) == b.State()
  { }

  // The events since `log` lead from the state then to the state now.
  lemma {:induction false} Since(b: Books, log: seq<Event>, l: Ledger, more: seq<Event>)
    requires b.Valid() && b.log == log + more
    requires Replayable(Start(b.ports, b.maxInflight), log) && Replay(Start(b.ports, b.maxInflight), log) == l
    ensures Replayable(l, more) && Replay(l, more) == b.State()
  {
    ReplaySplit(Start(b.ports, b.maxInflight), log, more);
  }

  // A tally adds to the open list exactly on Connected.
  lemma {:induction false} TallyOpens(out: WorkerResult, port: int, v: Verdict)
    ensures |Tally(out, port, v).open| == |out.open| + (if v.Connected? then 1 else 0)
    ensures Tally(out, port, v).scanned == out.scanned + 1
  { }

  lemma {:induction false} Summary(b: Books)
    requires b.Valid()
    ensures Replayable(Start(b.ports, b.maxInflight), b.log)
    ensures b.out == Replay(Start(b.ports, b.maxInflight), b.log).out
    ensures Sums(b.out) && !b.out.aborted && b.out.scanned <= |b.ports| && OpenPorts(b.out.open) <= multiset(b.ports)
    ensures b.nextIdx == |b.ports| && b.active == map[] ==> b.out.scanned == |b.ports|
    ensures b.addedScanned == b.out.scanned && b.addedOpen == |b.out.open|
  {
    hide Replayable, Replay, OpenPorts, Sums;
    Outcome(Start(b.ports, b.maxInflight), b.log);
  }
}
