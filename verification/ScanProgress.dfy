/**
  Why the collector of run_connect_scan_with_pool gets every future: its workers
  have only so much to do, and something can be done until all is collected.
*/
module ScanProgress {
  import opened Bytes
  import opened ScanLedger
  import opened ScanSystem
  import opened Sharding

  // The steps by which the scan itself moves on, not the watchdog, clock or user.
  predicate Busy(step: ScanSystem.Step) {
    step.Work? || step.TellScanned? || step.TellOpen? || step.Return? || step.Collect?
  }

  function BusySteps(steps: seq<ScanSystem.Step>): nat {
    if steps == [] then 0 else (if Busy(steps[0]) then 1 else 0) + BusySteps(steps[1..])
  }

  // A port is started and settled, and both counters are told of it; a result is set and taken.
  function LeftOf(w: Worker): int {
    var n := |w.ledger.ports|;
    2 * (n - w.ledger.next) + |w.ledger.active| + (n - w.told) + (n - w.toldOpen)
    + (if w.result == None then 1 else 0) + if w.taken then 0 else 1
  }

  function Left(): Worker -> int { (w: Worker) => LeftOf(w) }

  lemma {:induction false} EventLess(l: Ledger, e: Event)
    requires Enabled(l, e)
    ensures var m := Apply(l, e); m.ports == l.ports && 2 * m.next - |m.active| > 2 * l.next - |l.active|
  {
    hide Tally;
    match e
    case Settle(v) =>
    case Launch(key, handle, started) => Grown(l.active, key, Pending(handle, l.ports[l.next], started));
    case Resolve(key, v) => MapMinusSize(l.active, key);
    case Expire(key) => MapMinusSize(l.active, key);
  }

  lemma {:induction false} Grown<V>(m: map<int, V>, k: int, v: V)
    requires k !in m
    ensures |m[k := v]| == |m| + 1
  {
    assert m[k := v] - {k} == m;
    MapMinusSize(m[k := v], k);
  }

  lemma {:induction false} LeftNotNegative(w: Worker, shard: seq<int>, stop: bool)
    requires WorkerInv(w, shard, stop)
    ensures LeftOf(w) >= 0
  {
    hide Conserved, OpenPorts;
    StartedPorts(w.ledger);
  }

  // A busy step leaves its worker less to do; the others touch no worker.
  lemma {:induction false} StepLess(s: System, step: ScanSystem.Step, stallMs: int)
    requires Moves(s, step)
    ensures SumOf(Left(), Move(s, step, stallMs).workers) <= SumOf(Left(), s.workers) - if Busy(step) then 1 else 0
  {
    hide SumOf, Enabled, Apply, Finished, Judged;
    if Busy(step) {
      var w := step.w;
      var was, now := s.workers[w], Move(s, step, stallMs).workers[w];
      if step.Work? { EventLess(was.ledger, step.event); }
      assert LeftOf(now) < LeftOf(was);
      SumUpdate(Left(), s.workers, w, now);
    }
  }

  lemma {:induction false} RunLess(s: System, steps: seq<ScanSystem.Step>, stallMs: int)
    requires Runs(s, steps, stallMs)
    ensures BusySteps(steps) + SumOf(Left(), End(s, steps, stallMs).workers) <= SumOf(Left(), s.workers)
    decreases |steps|
  {
    hide SumOf, Moves, Move, Busy, Left;
    if steps != [] {
      StepLess(s, steps[0], stallMs);
      RunLess(Move(s, steps[0], stallMs), steps[1..], stallMs);
    }
  }

  lemma {:induction false} SumNotNegative(s: System, shards: seq<seq<int>>)
    requires SystemInv(s, shards)
    ensures SumOf(Left(), s.workers) >= 0
  {
    hide SumOf, WorkerInv, Merged, WatchdogInv, LeftOf;
    forall w | 0 <= w < |s.workers| ensures Left()(s.workers[w]) >= 0 {
      LeftNotNegative(s.workers[w], shards[w], s.stop);
    }
    SumAtLeastZero(Left(), s.workers);
  }

  lemma {:induction false} SumAtLeastZero(g: Worker -> int, workers: seq<Worker>)
    requires forall w :: 0 <= w < |workers| ==> g(workers[w]) >= 0
    ensures SumOf(g, workers) >= 0
    decreases |workers|
  {
    if workers != [] { SumAtLeastZero(g, workers[..|workers| - 1]); }
  }

  // What there is to do at the start.
  lemma {:induction false} LeftAtFirst(workers: seq<Worker>)
    requires forall w :: 0 <= w < |workers| ==> LeftOf(workers[w]) == 4 * |workers[w].ledger.ports| + 2
    ensures SumOf(Left(), workers) == 4 * SumOf(PortCount(), workers) + 2 * |workers|
    decreases |workers|
  {
    hide LeftOf;
    if workers != [] { LeftAtFirst(workers[..|workers| - 1]); }
  }

  /**
    Whatever the interleaving, workers and collector take no more than four steps
    for each port and two for each worker.
  */
  lemma {:induction false} ScanEnds(
      ports: seq<int>, workers: nat, inflight: nat, clock: int, steps: seq<ScanSystem.Step>, stallMs: int)
    requires workers > 0 && Runs(ScanSystem.Launch(Dealt(ports, workers), inflight, clock), steps, stallMs)
    ensures BusySteps(steps) <= 4 * |ports| + 2 * workers
  {
    hide SumOf, Runs, End, SystemInv, Dealt, Flatten, Left;
    var shards := Dealt(ports, workers);
    var start := ScanSystem.Launch(shards, inflight, clock);
    LaunchInv(shards, inflight, clock);
    RunInv(start, shards, steps, stallMs);
    RunLess(start, steps, stallMs);
    SumNotNegative(End(start, steps, stallMs), shards);
    LeftAtFirst(start.workers);
    FlattenSums(start.workers, shards, 0);
    Partition(ports, workers);
    SizeOfSame(Flatten(shards), ports);
    DealtSize(ports, workers);
  }

  lemma {:induction false} DealtSize(ports: seq<int>, workers: nat)
    requires workers > 0
    ensures |Dealt(ports, workers)| == workers
  { }

  ghost predicate CanMove(s: System) { exists step :: Busy(step) && Moves(s, step) }

  // A worker whose future has not been taken has a step.
  lemma {:induction false} WorkerMoves(s: System, shards: seq<seq<int>>, w: nat)
    requires SystemInv(s, shards) && w < |s.workers| && !s.workers[w].taken
    ensures CanMove(s)
  {
    hide Inv, SumOf, Merged, WatchdogInv, Tally;
    var l := s.workers[w].ledger;
    assert WorkerInv(s.workers[w], shards[w], s.stop);
    WithinPorts(l);
    var step :=
      if s.workers[w].result.Some? then Collect(w)
      else if s.workers[w].told < l.out.scanned then TellScanned(w)
      else if s.workers[w].toldOpen < |l.out.open| then TellOpen(w)
      else if l.next < |l.ports| then Work(w, Settle(Failed))
      else if exists key :: key in l.active then
        var key :| key in l.active;
        Work(w, Expire(key))
      else Return(w, false);
    assert Busy(step) && Moves(s, step);
  }

  lemma {:induction false} WithinPorts(l: Ledger)
    requires Inv(l)
    ensures l.next <= |l.ports|
  {
    hide Conserved;
    StartedPorts(l);
  }

  // A worker whose future has been taken has none.
  lemma {:induction false} TakenRests(s: System, shards: seq<seq<int>>, step: ScanSystem.Step)
    requires SystemInv(s, shards) && Busy(step) && Moves(s, step)
    ensures !s.workers[step.w].taken
  {
    hide Inv, SumOf, Merged, WatchdogInv, Enabled;
    assert WorkerInv(s.workers[step.w], shards[step.w], s.stop);
  }

  /** Workers and collector are stuck exactly when every future has been taken. */
  lemma {:induction false} ScanMoves(s: System, shards: seq<seq<int>>)
    requires SystemInv(s, shards)
    ensures s.collector.done <= |s.workers|
    ensures CanMove(s) <==> s.collector.done < |s.workers|
  {
    hide SumOf, WorkerInv, Merged, WatchdogInv, Moves, Busy;
    SumOfOnes(s.workers);
    SumOrder(TakenOne(), One(), s.workers);
    if w :| 0 <= w < |s.workers| && !s.workers[w].taken {
      WorkerMoves(s, shards, w);
      if s.collector.done == |s.workers| { AllTaken(s.workers); }
    } else {
      SumSame(TakenOne(), One(), s.workers);
      forall step | Busy(step) && Moves(s, step) ensures false { TakenRests(s, shards, step); TakesPart(s, step); }
    }
  }

  lemma {:induction false} TakesPart(s: System, step: ScanSystem.Step)
    requires Busy(step) && Moves(s, step)
    ensures 0 <= step.w < |s.workers|
  { }
}
