/**
  The accounting that the three port scanners of tcp_async_scan.cpp share. A
  ledger is the state of one worker: the ports it was given, how many of them
  it has started, which connections are in flight, and its counters. The
  scanners move it only by the four events below.
*/
module ScanLedger {
  datatype TcpOpen = TcpOpen(port: int, connectMs: int)

  datatype WorkerResult = WorkerResult(
    open: seq<TcpOpen>,
    scanned: nat,
    timeouts: nat,
    refused: nat,
    other: nat,
    aborted: bool)

  const NOTHING := WorkerResult([], 0, 0, 0, 0, false)

  datatype Pending = Pending(handle: int, port: int, started: int)

  datatype Verdict = Connected(ms: int) | Refused | Failed

  datatype Event =
    | Settle(verdict: Verdict)
    | Launch(key: int, handle: int, started: int)
    | Resolve(key: int, verdict: Verdict)
    | Expire(key: int)

  datatype Ledger = Ledger(ports: seq<int>, limit: nat, next: nat, active: map<int, Pending>, out: WorkerResult)

  function Start(ports: seq<int>, limit: nat): Ledger { Ledger(ports, limit, 0, map[], NOTHING) }

  // The counters after a port has got its verdict.
  function Tally(out: WorkerResult, port: int, v: Verdict): WorkerResult {
    match v
    case Connected(ms) => out.(open := out.open + [TcpOpen(port, ms)], scanned := out.scanned + 1)
    case Refused => out.(refused := out.refused + 1, scanned := out.scanned + 1)
    case Failed => out.(other := out.other + 1, scanned := out.scanned + 1)
  }

  predicate Enabled(l: Ledger, e: Event) {
    match e
    case Settle(_) => l.next < |l.ports|
    case Launch(key, _, _) => l.next < |l.ports| && key !in l.active && |l.active| < l.limit
    case Resolve(key, _) => key in l.active
    case Expire(key) => key in l.active
  }

  function Apply(l: Ledger, e: Event): Ledger
    requires Enabled(l, e)
  {
    match e
    case Settle(v) => l.(next := l.next + 1, out := Tally(l.out, l.ports[l.next], v))
    case Launch(key, handle, started) =>
      l.(next := l.next + 1, active := l.active[key := Pending(handle, l.ports[l.next], started)])
    case Resolve(key, v) => l.(active := l.active - {key}, out := Tally(l.out, l.active[key].port, v))
    case Expire(key) =>
      l.(active := l.active - {key}, out := l.out.(timeouts := l.out.timeouts + 1, scanned := l.out.scanned + 1))
  }

  ghost predicate Replayable(l: Ledger, log: seq<Event>)
    decreases |log|, 0
  {
    log == [] || (Replayable(l, Most(log)) && Enabled(Replay(l, Most(log)), Last(log)))
  }

  ghost function Replay(l: Ledger, log: seq<Event>): Ledger
    requires Replayable(l, log)
    decreases |log|, 1
  {
    if log == [] then l else Apply(Replay(l, Most(log)), Last(log))
  }

  function Most(log: seq<Event>): seq<Event> requires log != [] { log[..|log| - 1] }

  function Last(log: seq<Event>): Event requires log != [] { log[|log| - 1] }

  lemma {:induction false} ReplayMore(l: Ledger, log: seq<Event>, e: Event)
    requires Replayable(l, log) && Enabled(Replay(l, log), e)
    ensures Replayable(l, log + [e]) && Replay(l, log + [e]) == Apply(Replay(l, log), e)
  {
    assert Most(log + [e]) == log;
  }

  // ------------------------------------------------------------- invariants

  function OpenPorts(open: seq<TcpOpen>): multiset<int> {
    if open == [] then multiset{} else OpenPorts(open[..|open| - 1]) + multiset{open[|open| - 1].port}
  }

  ghost function PortsOf(active: map<int, Pending>): multiset<int>
    decreases active.Keys
  {
    if exists k :: k in active then
      var k :| k in active;
      PortsOf(active - {k}) + multiset{active[k].port}
    else multiset{}
  }

  lemma {:induction false} MapMinus<V>(m: map<int, V>, j: int, k: int)
    requires j in m && k in m && j != k
    ensures (m - {j}) - {k} == (m - {k}) - {j}
    ensures k in m - {j} && (m - {j})[k] == m[k]
    ensures |m - {j}| == |m| - 1
  {
    MapMinusSize(m, j);
  }

  lemma {:induction false} MapMinusSize<V>(m: map<int, V>, k: int)
    requires k in m
    ensures |m - {k}| == |m| - 1
  {
    assert (m - {k}).Keys == m.Keys - {k};
    assert |(m - {k}).Keys| == |m - {k}| && |m.Keys| == |m|;
  }

  lemma {:induction false} PortsOfMinus(active: map<int, Pending>, k: int)
    requires k in active
    ensures PortsOf(active) == PortsOf(active - {k}) + multiset{active[k].port}
    decreases |active|
  {
    var j :| j in active && PortsOf(active) == PortsOf(active - {j}) + multiset{active[j].port};
    if j != k {
      MapMinus(active, j, k);
      MapMinus(active, k, j);
      PortsOfMinus(active - {j}, k);
      PortsOfMinus(active - {k}, j);
    }
  }

  lemma {:induction false} PortsOfPlus(active: map<int, Pending>, k: int, p: Pending)
    requires k !in active
    ensures PortsOf(active[k := p]) == PortsOf(active) + multiset{p.port}
    ensures |active[k := p]| == |active| + 1
  {
    assert active[k := p] - {k} == active;
    PortsOfMinus(active[k := p], k);
    MapMinusSize(active[k := p], k);
  }

  predicate Sums(out: WorkerResult) { out.scanned == |out.open| + out.timeouts + out.refused + out.other }

  lemma {:induction false} NextPort(ports: seq<int>, n: nat)
    requires n < |ports|
    ensures multiset(ports[..n + 1]) == multiset(ports[..n]) + multiset{ports[n]}
  {
    assert ports[..n + 1] == ports[..n] + [ports[n]];
  }

  lemma {:induction false} TallyPorts(out: WorkerResult, port: int, v: Verdict)
    ensures OpenPorts(Tally(out, port, v).open) ==
      OpenPorts(out.open) + if v.Connected? then multiset{port} else multiset{}
  {
    if v.Connected? { assert (out.open + [TcpOpen(port, v.ms)])[..|out.open|] == out.open; }
  }

  // ----------------------------------------------------------- conservation

  // The ports an event counts as timed out, refused or other.
  ghost function ClosedBy(l: Ledger, e: Event): multiset<int>
    requires Enabled(l, e)
  {
    match e
    case Settle(v) => if v.Connected? then multiset{} else multiset{l.ports[l.next]}
    case Launch(_, _, _) => multiset{}
    case Resolve(key, v) => if v.Connected? then multiset{} else multiset{l.active[key].port}
    case Expire(key) => multiset{l.active[key].port}
  }

  ghost function ClosedPorts(l: Ledger, log: seq<Event>): multiset<int>
    requires Replayable(l, log)
    decreases |log|
  {
    if log == [] then multiset{} else ClosedPorts(l, Most(log)) + ClosedBy(Replay(l, Most(log)), Last(log))
  }

  // Each started port is open, closed or in flight, exactly as often as it was
  // asked for, and the counters are the size of what is closed.
  ghost predicate Conserved(l: Ledger, closed: multiset<int>) {
    && l.next <= |l.ports|
    && multiset(l.ports[..l.next]) == OpenPorts(l.out.open) + closed + PortsOf(l.active)
    && |closed| == l.out.timeouts + l.out.refused + l.out.other
  }

  lemma {:induction false} EventConserves(l: Ledger, e: Event, closed: multiset<int>)
    requires Enabled(l, e) && Conserved(l, closed)
    ensures Conserved(Apply(l, e), closed + ClosedBy(l, e))
  {
    match e
    case Settle(v) => SettleConserves(l, v, closed);
    case Launch(key, handle, started) => LaunchConserves(l, key, handle, started, closed);
    case Resolve(key, v) => ResolveConserves(l, key, v, closed);
    case Expire(key) => ExpireConserves(l, key, closed);
  }

  lemma {:induction false} SettleConserves(l: Ledger, v: Verdict, closed: multiset<int>)
    requires Conserved(l, closed) && l.next < |l.ports|
    ensures Conserved(Apply(l, Settle(v)), closed + ClosedBy(l, Settle(v)))
  {
    hide OpenPorts, PortsOf;
    NextPort(l.ports, l.next);
    TallyPorts(l.out, l.ports[l.next], v);
  }

  lemma {:induction false} LaunchConserves(l: Ledger, key: int, handle: int, started: int, closed: multiset<int>)
    requires Conserved(l, closed) && Enabled(l, Launch(key, handle, started))
    ensures Conserved(Apply(l, Launch(key, handle, started)), closed + ClosedBy(l, Launch(key, handle, started)))
  {
    hide OpenPorts, PortsOf;
    NextPort(l.ports, l.next);
    PortsOfPlus(l.active, key, Pending(handle, l.ports[l.next], started));
  }

  lemma {:induction false} ResolveConserves(l: Ledger, key: int, v: Verdict, closed: multiset<int>)
    requires Conserved(l, closed) && key in l.active
    ensures Conserved(Apply(l, Resolve(key, v)), closed + ClosedBy(l, Resolve(key, v)))
  {
    hide OpenPorts, PortsOf;
    PortsOfMinus(l.active, key);
    TallyPorts(l.out, l.active[key].port, v);
  }

  lemma {:induction false} ExpireConserves(l: Ledger, key: int, closed: multiset<int>)
    requires Conserved(l, closed) && key in l.active
    ensures Conserved(Apply(l, Expire(key)), closed + ClosedBy(l, Expire(key)))
  {
    hide OpenPorts, PortsOf;
    PortsOfMinus(l.active, key);
  }

  lemma {:induction false} StartConserved(ports: seq<int>, limit: nat)
    ensures Conserved(Start(ports, limit), multiset{})
  { }

  // Every started port is either counted or in flight, the counters add up, and
  // the ports behind them are the ones that were asked for.
  ghost predicate Inv(l: Ledger) {
    && l.next == l.out.scanned + |l.active|
    && |l.active| <= l.limit
    && Sums(l.out)
    && exists closed :: Conserved(l, closed)
  }

  lemma {:induction false} StartInv(ports: seq<int>, limit: nat)
    ensures Inv(Start(ports, limit))
  {
    StartConserved(ports, limit);
  }

  lemma {:induction false} TallySums(out: WorkerResult, port: int, v: Verdict)
    requires Sums(out)
    ensures Sums(Tally(out, port, v)) && Tally(out, port, v).scanned == out.scanned + 1
  { }

  lemma {:induction false} ExpireSums(out: WorkerResult)
    requires Sums(out)
    ensures Sums(out.(timeouts := out.timeouts + 1, scanned := out.scanned + 1))
  { }

  lemma {:induction false} EventCounts(l: Ledger, e: Event)
    requires Enabled(l, e) && l.next == l.out.scanned + |l.active| && |l.active| <= l.limit && Sums(l.out)
    ensures var m := Apply(l, e); m.next == m.out.scanned + |m.active| && |m.active| <= m.limit && Sums(m.out)
  {
    hide Sums, Tally, PortsOf;
    match e
    case Settle(v) => TallySums(l.out, l.ports[l.next], v);
    case Launch(key, handle, started) => PortsOfPlus(l.active, key, Pending(handle, l.ports[l.next], started));
    case Resolve(key, v) =>
      MapMinusSize(l.active, key);
      TallySums(l.out, l.active[key].port, v);
    case Expire(key) =>
      MapMinusSize(l.active, key);
      ExpireSums(l.out);
  }

  /** What every event keeps. */
  lemma {:induction false} ApplyInv(l: Ledger, e: Event)
    requires Inv(l) && Enabled(l, e)
    ensures Inv(Apply(l, e))
  {
    hide Conserved, ClosedBy;
    EventCounts(l, e);
    var closed :| Conserved(l, closed);
    EventConserves(l, e, closed);
  }

  lemma {:induction false} ReplayInv(l: Ledger, log: seq<Event>)
    requires Inv(l) && Replayable(l, log)
    ensures Inv(Replay(l, log)) && Replay(l, log).ports == l.ports && Replay(l, log).limit == l.limit
    ensures Replay(l, log).out.aborted == l.out.aborted
    decreases |log|
  {
    hide Inv, Enabled;
    if log != [] {
      ReplayInv(l, Most(log));
      ApplyInv(Replay(l, Most(log)), Last(log));
    }
  }

  /** After any run of events, no started port is lost and none is counted twice. */
  lemma {:induction false} Conservation(ports: seq<int>, limit: nat, log: seq<Event>)
    requires Replayable(Start(ports, limit), log)
    ensures Conserved(Replay(Start(ports, limit), log), ClosedPorts(Start(ports, limit), log))
    decreases |log|
  {
    hide Conserved, ClosedBy;
    var start := Start(ports, limit);
    if log == [] {
      StartConserved(ports, limit);
    } else {
      Conservation(ports, limit, Most(log));
      EventConserves(Replay(start, Most(log)), Last(log), ClosedPorts(start, Most(log)));
    }
  }

  // A worker that could not be set up gives every port the same verdict.
  function GiveUp(n: nat): seq<Event> { seq(n, i requires 0 <= i < n => Settle(Failed)) }

  lemma {:induction false} GiveUpCounts(ports: seq<int>, limit: nat, n: nat)
    requires n <= |ports|
    ensures Replayable(Start(ports, limit), GiveUp(n))
    ensures Replay(Start(ports, limit), GiveUp(n)) == Ledger(ports, limit, n, map[], NOTHING.(scanned := n, other := n))
  {
    if n > 0 {
      GiveUpCounts(ports, limit, n - 1);
      assert Most(GiveUp(n)) == GiveUp(n - 1);
    }
  }

  lemma {:induction false} StartedPorts(l: Ledger)
    requires Inv(l)
    ensures l.next <= |l.ports| && l.out.scanned <= |l.ports|
    ensures OpenPorts(l.out.open) <= multiset(l.ports)
  {
    hide OpenPorts, PortsOf;
    var closed :| Conserved(l, closed);
    assert l.ports == l.ports[..l.next] + l.ports[l.next..];
    assert multiset(l.ports) == multiset(l.ports[..l.next]) + multiset(l.ports[l.next..]);
  }

  /** A worker with nothing left to start or wait for has counted every port exactly once. */
  lemma {:induction false} AllCounted(l: Ledger)
    requires Inv(l) && l.next == |l.ports| && l.active == map[]
    ensures l.out.scanned == |l.ports|
    ensures |l.out.open| + l.out.timeouts + l.out.refused + l.out.other == |l.ports|
    ensures OpenPorts(l.out.open) <= multiset(l.ports)
  {
    StartedPorts(l);
  }

  /** What any run of a worker comes to. */
  lemma {:induction false} Outcome(start: Ledger, log: seq<Event>)
    requires start == Start(start.ports, start.limit) && Replayable(start, log)
    ensures var l := Replay(start, log);
      && Sums(l.out) && !l.out.aborted
      && l.next <= |l.ports| && l.out.scanned <= |l.ports| && l.ports == start.ports
      && |l.active| <= l.limit == start.limit
      && OpenPorts(l.out.open) <= multiset(l.ports)
      && (l.next == |l.ports| && l.active == map[] ==> l.out.scanned == |l.ports|)
  {
    hide Conserved, OpenPorts, Sums, Replay, Replayable;
    StartInv(start.ports, start.limit);
    ReplayInv(start, log);
    StartedPorts(Replay(start, log));
  }

  // ------------------------------------------------ what a run is answerable to

  // One launch of a scanner's loop, or one turn after the launches: the ticks
  // [from, upto) at which the kernel was asked, and the events that came of it.
  datatype Step = Step(turn: bool, from: nat, upto: nat, events: seq<Event>)

  function Ends(steps: seq<Step>): nat { if steps == [] then 0 else steps[|steps| - 1].upto }

  /**
    The run is one step after another. No two steps share a tick, so no answer
    of the kernel is used for both, and each step's events are what `fits`
    allows in the state that the run has reached.
  */
  ghost predicate Explains(start: Ledger, log: seq<Event>, steps: seq<Step>, fits: (Ledger, Step) -> bool)
    decreases |steps|
  {
    if steps == [] then log == []
    else
      var most, s := steps[..|steps| - 1], steps[|steps| - 1];
      var n := |log| - |s.events|;
      && 0 <= n && log[n..] == s.events
      && Replayable(start, log[..n]) && Explains(start, log[..n], most, fits)
      && Ends(most) <= s.from < s.upto
      && fits(Replay(start, log[..n]), s)
  }

  lemma {:induction false} ExplainMore(
      start: Ledger, log: seq<Event>, l: Ledger, steps: seq<Step>, s: Step, after: seq<Event>,
      fits: (Ledger, Step) -> bool)
    requires Replayable(start, log) && Replay(start, log) == l && Explains(start, log, steps, fits)
    requires fits(l, s) && Ends(steps) <= s.from < s.upto && after == log + s.events
    ensures Explains(start, after, steps + [s], fits) && Ends(steps + [s]) == s.upto
  {
    hide Replay, Replayable;
    assert (steps + [s])[..|steps|] == steps;
    assert after[..|log|] == log && after[|log|..] == s.events;
  }

  /** Of two steps, the one told of later asked the kernel later. */
  lemma {:induction false} StepsApart(
      start: Ledger, log: seq<Event>, steps: seq<Step>, fits: (Ledger, Step) -> bool, i: nat, j: nat)
    requires Explains(start, log, steps, fits) && i < j < |steps|
    ensures steps[i].from < steps[i].upto <= steps[j].from < steps[j].upto
    decreases |steps|
  {
    hide Replay, Replayable;
    var most, s := steps[..|steps| - 1], steps[|steps| - 1];
    var earlier := log[..|log| - |s.events|];
    if j < |most| {
      StepsApart(start, earlier, most, fits, i, j);
    } else if i < |most| - 1 {
      StepsApart(start, earlier, most, fits, i, |most| - 1);
    } else {
      assert most != [];
    }
  }

  // The sweep at `now`: every connection that is old enough expires, and no other.
  ghost predicate Swept(active: map<int, Pending>, now: int, timeoutMs: int, events: seq<Event>) {
    && (forall e :: e in events ==> e.Expire? && e.key in active && now - active[e.key].started >= timeoutMs)
    && forall key :: key in active && now - active[key].started >= timeoutMs ==> Expire(key) in events
  }

  // The events of a turn: the answers, then the sweep over what they leave.
  ghost predicate AnsweredThenSwept(l: Ledger, events: seq<Event>, answers: seq<Event>, now: int, timeoutMs: int) {
    && answers <= events && Replayable(l, answers)
    && Swept(Replay(l, answers).active, now, timeoutMs, events[|answers|..])
  }

  lemma {:induction false} NothingReplayed(l: Ledger)
    ensures Replayable(l, []) && Replay(l, []) == l
  { }

  lemma {:induction false} ReplayOne(l: Ledger, e: Event)
    requires Replayable(l, [e])
    ensures Enabled(l, e) && Replay(l, [e]) == Apply(l, e)
  {
    assert Most([e]) == [] && Last([e]) == e;
  }

  lemma {:induction false} ReplaySplit(start: Ledger, log: seq<Event>, more: seq<Event>)
    requires Replayable(start, log + more)
    ensures Replayable(start, log) && Replayable(Replay(start, log), more)
    ensures Replay(Replay(start, log), more) == Replay(start, log + more)
    decreases |more|
  {
    hide Enabled;
    if more == [] {
      assert log + more == log;
    } else {
      assert Most(log + more) == log + Most(more);
      ReplaySplit(start, log, Most(more));
    }
  }

  // ------------------------------------------------------ one key over a run

  function Launches(log: seq<Event>, key: int): nat {
    if log == [] then 0
    else Launches(Most(log), key) + if Last(log).Launch? && Last(log).key == key then 1 else 0
  }

  function Finishes(log: seq<Event>, key: int): nat {
    if log == [] then 0
    else Finishes(Most(log), key) + if (Last(log).Resolve? || Last(log).Expire?) && Last(log).key == key then 1 else 0
  }

  /** Each launch of a connection is matched by one finish, or is still in flight. */
  lemma {:induction false} LaunchedThenFinished(start: Ledger, log: seq<Event>, key: int)
    requires Replayable(start, log) && start.active == map[]
    ensures Launches(log, key) == Finishes(log, key) + if key in Replay(start, log).active then 1 else 0
    decreases |log|
  {
    if log != [] { LaunchedThenFinished(start, Most(log), key); }
  }

  lemma {:induction false} FinishesCons(e: Event, log: seq<Event>, key: int)
    ensures Finishes([e] + log, key) == Finishes(log, key) + if (e.Resolve? || e.Expire?) && e.key == key then 1 else 0
    decreases |log|
  {
    if log == [] {
      assert [e] + log == [e];
    } else {
      FinishesCons(e, Most(log), key);
      assert Most([e] + log) == [e] + Most(log);
    }
  }

  // Every key launched is below `n`, and none is launched twice.
  ghost predicate KeysFresh(log: seq<Event>, n: int) {
    forall key :: Launches(log, key) <= if 0 <= key < n then 1 else 0
  }

  lemma {:induction false} KeysStayFresh(log: seq<Event>, e: Event, n: int)
    requires KeysFresh(log, n) && 0 <= n
    ensures !e.Launch? ==> KeysFresh(log + [e], n)
    ensures e.Launch? && e.key == n ==> KeysFresh(log + [e], n + 1)
  {
    assert Most(log + [e]) == log;
    forall key ensures Launches(log + [e], key) == Launches(log, key) + if e.Launch? && e.key == key then 1 else 0 { }
  }
}
