/**
  One worker's run, and what a scan by several of them comes to: the sum of
  their results, which counts every answer that a kernel gave once, by what it says.
*/
module ScanRuns {
  import EpollMeaning
  import EpollWorker
  import IocpMeaning
  import IocpWorker
  import SynMeaning
  import SynScanner
  import opened Bytes
  import opened Counting
  import opened Kernel
  import opened Readings
  import opened ScanLedger
  import opened ScanSystem

  // The ports a worker was given, its limit, its result, and the run behind it.
  datatype Run = Run(
    ports: seq<int>, limit: nat, result: WorkerResult, log: seq<Event>, steps: seq<ScanLedger.Step>)

  ghost function Before(run: Run): Ledger { Start(run.ports, run.limit) }

  // The result is what the run makes of the ports.
  ghost predicate Results(run: Run) {
    && Replayable(Before(run), run.log)
    && run.result == Replay(Before(run), run.log).out.(aborted := run.result.aborted)
  }

  ghost function WhyOf(windows: bool, k: Kernel, timeoutMs: int): (Ledger, ScanLedger.Step) -> bool {
    if windows then IocpWorker.Why(k, timeoutMs) else EpollWorker.Why(k, timeoutMs)
  }

  ghost function ReadsOf(windows: bool, k: Kernel): (Ledger, ScanLedger.Step) -> seq<Reading> {
    if windows then IocpMeaning.Reads(k) else EpollMeaning.Reads(k)
  }

  predicate SetUpDone(windows: bool, k: Kernel, ports: seq<int>) {
    ports != [] && if windows then IocpWorker.SetUp(k) else k.accept(0)
  }

  /** The worker on this kernel: its run is the kernel's answers, or every port fails because it cannot be set up. */
  ghost predicate WorkerRan(windows: bool, k: Kernel, timeoutMs: int, run: Run) {
    && Results(run)
    && (run.result.aborted ==> exists t: nat :: k.stop(t))
    && if SetUpDone(windows, k, run.ports)
       then Explains(Before(run), run.log, run.steps, WhyOf(windows, k, timeoutMs))
       else run.log == GiveUp(|run.ports|)
  }

  // Of ports that a worker could not be set up for.
  function Unset(ports: seq<int>): seq<Reading> {
    if ports == [] then [] else Unset(ports[..|ports| - 1]) + [Reading(ports[|ports| - 1], NotSet, 0)]
  }

  // What the kernel said over the worker's run.
  ghost function SaidTo(windows: bool, k: Kernel, timeoutMs: int, run: Run): seq<Reading>
    requires WorkerRan(windows, k, timeoutMs, run)
  {
    if SetUpDone(windows, k, run.ports)
    then RunReadings(Before(run), run.log, run.steps, WhyOf(windows, k, timeoutMs), ReadsOf(windows, k))
    else Unset(run.ports)
  }

  lemma {:induction false} UnsetSays(ports: seq<int>)
    ensures Opens(Unset(ports)) == [] && Count(Unset(ports), RefusedReading()) == 0
    ensures Count(Unset(ports), OtherReading()) == |ports|
    decreases |ports|
  {
    if ports != [] { UnsetSays(ports[..|ports| - 1]); }
  }

  lemma {:induction false} GiveUpExpiresNone(n: nat)
    ensures Expiries(GiveUp(n)) == 0
  {
    NoExpiries(GiveUp(n));
  }

  /** The worker's result counts everything that was said to it, once, by what it says. */
  lemma {:induction false} WorkerCounts(windows: bool, k: Kernel, timeoutMs: int, run: Run)
    requires WorkerRan(windows, k, timeoutMs, run)
    ensures Adds(NOTHING, run.result, SaidTo(windows, k, timeoutMs, run), Expiries(run.log))
  {
    hide Replayable, Replay, Explains, RunReadings, Count, Opens, Expiries, EpollWorker.Why, IocpWorker.Why,
      EpollMeaning.Reads, IocpMeaning.Reads, IocpWorker.SetUp, Unset;
    if !SetUpDone(windows, k, run.ports) {
      UnsetSays(run.ports);
      GiveUpCounts(run.ports, run.limit, |run.ports|);
      GiveUpExpiresNone(|run.ports|);
    } else if windows {
      IocpMeaning.WorkerMeans(k, timeoutMs, Before(run), run.log, run.steps);
    } else {
      EpollMeaning.WorkerMeans(k, timeoutMs, Before(run), run.log, run.steps);
    }
  }

  // ------------------------------------------------------------ all workers

  // The results of the runs, merged one after another.
  function MergeAll(runs: seq<Run>): WorkerResult {
    if runs == [] then NOTHING else Merge(MergeAll(runs[..|runs| - 1]), runs[|runs| - 1].result)
  }

  ghost predicate AllRan(windows: bool, kernels: nat -> Kernel, timeoutMs: int, runs: seq<Run>) {
    forall w: nat :: w < |runs| ==> WorkerRan(windows, kernels(w), timeoutMs, runs[w])
  }

  ghost function AllSaid(windows: bool, kernels: nat -> Kernel, timeoutMs: int, runs: seq<Run>): seq<Reading>
    requires AllRan(windows, kernels, timeoutMs, runs)
    decreases |runs|
  {
    if runs == [] then []
    else
      var n := |runs| - 1;
      AllSaid(windows, kernels, timeoutMs, runs[..n]) + SaidTo(windows, kernels(n), timeoutMs, runs[n])
  }

  function AllExpiries(runs: seq<Run>): nat {
    if runs == [] then 0 else AllExpiries(runs[..|runs| - 1]) + Expiries(runs[|runs| - 1].log)
  }

  lemma {:induction false} MergeAdds(
      a: WorkerResult, b: WorkerResult, ds: seq<Reading>, es: seq<Reading>, m: nat, n: nat)
    requires Adds(NOTHING, a, ds, m) && Adds(NOTHING, b, es, n)
    ensures Adds(NOTHING, Merge(a, b), ds + es, m + n)
  {
    hide Opens, Count;
    OpensConcat(ds, es);
    CountConcat(ds, es, RefusedReading());
    CountConcat(ds, es, OtherReading());
  }

  /** So do all workers' results together. */
  lemma {:induction false} AllCount(windows: bool, kernels: nat -> Kernel, timeoutMs: int, runs: seq<Run>)
    requires AllRan(windows, kernels, timeoutMs, runs)
    ensures Adds(NOTHING, MergeAll(runs), AllSaid(windows, kernels, timeoutMs, runs), AllExpiries(runs))
    decreases |runs|
  {
    hide Adds, WorkerRan, Merge, Expiries, SaidTo;
    if runs == [] {
      AddsNothing(NOTHING);
    } else {
      var n := |runs| - 1;
      AllCount(windows, kernels, timeoutMs, runs[..n]);
      WorkerCounts(windows, kernels(n), timeoutMs, runs[n]);
      MergeAdds(
        MergeAll(runs[..n]), runs[n].result, AllSaid(windows, kernels, timeoutMs, runs[..n]),
        SaidTo(windows, kernels(n), timeoutMs, runs[n]), AllExpiries(runs[..n]), Expiries(runs[n].log));
    }
  }

  // The same counters, and the same open ports in whatever order.
  ghost predicate SameTally(a: WorkerResult, b: WorkerResult) {
    && a.scanned == b.scanned && a.timeouts == b.timeouts && a.refused == b.refused && a.other == b.other
    && multiset(a.open) == multiset(b.open)
  }

  function Times(o: TcpOpen): WorkerResult -> int { (r: WorkerResult) => multiset(r.open)[o] }

  lemma {:induction false} TimesAdds(o: TcpOpen)
    ensures Additive(Times(o))
  { }

  lemma {:induction false} SumIsMerged(f: WorkerResult -> int, ws: seq<Worker>, runs: seq<Run>)
    requires Additive(f) && |ws| == |runs|
    requires forall w :: 0 <= w < |ws| ==> ws[w].taken && ws[w].result == Some(runs[w].result)
    ensures SumOf(TakenOf(f), ws) == f(MergeAll(runs))
    decreases |ws|
  {
    hide Merge;
    if ws != [] {
      var n := |ws| - 1;
      SumIsMerged(f, ws[..n], runs[..n]);
      assert f(Merge(MergeAll(runs[..n]), runs[n].result)) == f(MergeAll(runs[..n])) + f(runs[n].result);
    }
  }

  /** The collector's total over all futures is the merged results, whatever the order in which it took them. */
  lemma {:induction false} TotalIsMerged(ws: seq<Worker>, total: WorkerResult, runs: seq<Run>)
    requires Merged(ws, total) && |ws| == |runs|
    requires forall w :: 0 <= w < |ws| ==> ws[w].taken && ws[w].result == Some(runs[w].result)
    ensures SameTally(total, MergeAll(runs))
  {
    hide SumOf, TakenOf, MergeAll;
    Additives(0);
    assert Additive(TimeoutsOf()) && Additive(RefusedOf()) && Additive(OtherOf());
    forall f | Additive(f) ensures f(total) == f(MergeAll(runs)) { SumIsMerged(f, ws, runs); }
    assert ScannedOf()(total) == total.scanned && TimeoutsOf()(total) == total.timeouts;
    assert RefusedOf()(total) == total.refused && OtherOf()(total) == total.other;
    forall o ensures multiset(total.open)[o] == multiset(MergeAll(runs).open)[o] {
      TimesAdds(o);
      assert Times(o)(total) == multiset(total.open)[o];
    }
  }

  // ------------------------------------------------------- the SYN scanner

  /** The half-open scan on this kernel: its run is what was sent and received. */
  ghost predicate SynRan(k: Kernel, timeoutMs: int, target: seq<Octet>, source: seq<Octet>, run: Run) {
    && Results(run)
    && (run.result.aborted ==> exists t: nat :: k.stop(t))
    && Explains(Before(run), run.log, run.steps, SynScanner.Why(k, timeoutMs, target, source))
    && exists cursor :: SynScanner.Walks(k, Before(run), run.log, run.steps, cursor)
  }

  ghost function SynSaid(k: Kernel, timeoutMs: int, target: seq<Octet>, source: seq<Octet>, run: Run): seq<Reading>
    requires SynRan(k, timeoutMs, target, source, run)
  {
    RunReadings(
      Before(run), run.log, run.steps, SynScanner.Why(k, timeoutMs, target, source),
      SynMeaning.Reads(k, target, source))
  }

  lemma {:induction false} SynCounts(k: Kernel, timeoutMs: int, target: seq<Octet>, source: seq<Octet>, run: Run)
    requires SynRan(k, timeoutMs, target, source, run)
    ensures Adds(NOTHING, run.result, SynSaid(k, timeoutMs, target, source, run), Expiries(run.log))
  {
    hide Replayable, Replay, Explains, RunReadings, Count, Opens, Expiries, SynScanner.Why, SynMeaning.Reads;
    SynMeaning.ScannerMeans(k, timeoutMs, target, source, Before(run), run.log, run.steps);
  }
}
