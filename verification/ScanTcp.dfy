/** run_connect_scan_with_pool and scan_tcp_async of tcp_async_scan.cpp, from the ports asked for to the statistics. */
module ScanTcp {
  import EpollWorker
  import IocpWorker
  import SynScanner
  import opened Bytes
  import opened Counting
  import opened Kernel
  import opened Readings
  import opened ScanLedger
  import opened ScanRuns
  import opened ScanSystem
  import opened Sharding
  import opened SortOpen

  datatype ScanStats = ScanStats(scanned: nat, timeouts: nat, refused: nat, other: nat, skipped: bool)

  // What the collector's loop gets from outside, by tick: which futures are
  // ready, the clock, the progress counter, and the user's quit key.
  datatype Poll = Poll(ready: (nat, nat) -> bool, now: nat -> int, progress: nat -> nat, quit: nat -> bool)
  {
    // Every future is ready in the end.
    ghost predicate SettledBy(n: nat, settled: nat) {
      forall t: nat, w: nat :: settled <= t && w < n ==> ready(t, w)
    }

    ghost predicate Settles(n: nat) { exists settled: nat :: SettledBy(n, settled) }
  }

  datatype Environment = Environment(
    windows: bool, hardware: nat, resolves: bool,
    target: seq<Octet>, source: seq<Octet>,
    synKernel: Kernel, kernels: nat -> Kernel, poll: Poll)
  {
    ghost predicate Sane() {
      && synKernel.Sane() && synKernel.Advances()
      && (forall w: nat :: kernels(w).Sane() && kernels(w).Advances())
      && (forall n: nat :: poll.Settles(n))
    }

    // One of the first `n` workers has seen the stop flag.
    ghost predicate WorkerStopped(n: int) { exists w: nat, t: nat :: w < n && kernels(w).stop(t) }

    // A signal came while the half-open scan ran.
    ghost predicate SynStopped() { exists t: nat :: synKernel.stop(t) }
  }

  // --------------------------------------------------------- the collector

  // The collector has taken exactly the futures that the system counts as taken.
  ghost predicate Tracks(
      s: System, shards: seq<seq<int>>, results: seq<WorkerResult>, taken: seq<bool>, done: nat, total: WorkerResult)
  {
    && SystemInv(s, shards) && |shards| == |results| == |taken| == |s.workers|
    && (forall w :: 0 <= w < |taken| ==> s.workers[w].result == Some(results[w]) && s.workers[w].taken == taken[w])
    && s.collector.done == done && s.collector.total == total
  }

  lemma {:induction false} TrackCollect(
      s: System, shards: seq<seq<int>>, results: seq<WorkerResult>, taken: seq<bool>, done: nat, total: WorkerResult,
      w: nat)
    requires Tracks(s, shards, results, taken, done, total) && w < |taken| && !taken[w]
    ensures Moves(s, Collect(w))
    ensures Tracks(Move(s, Collect(w), 0), shards, results, taken[w := true], done + 1, Merge(total, results[w]))
    ensures Move(s, Collect(w), 0).stop == s.stop
  {
    hide SystemInv;
    MoveInv(s, shards, Collect(w), 0);
  }

  lemma {:induction false} TrackDone(
      s: System, shards: seq<seq<int>>, results: seq<WorkerResult>, taken: seq<bool>, done: nat, total: WorkerResult)
    requires Tracks(s, shards, results, taken, done, total)
    ensures done <= |taken|
    ensures (forall w :: 0 <= w < |taken| ==> taken[w]) ==> done == |taken|
  {
    hide SumOf;
    SumOfOnes(s.workers);
    SumOrder(TakenOne(), One(), s.workers);
    if forall w :: 0 <= w < |taken| ==> taken[w] { SumSame(TakenOne(), One(), s.workers); }
  }

  // The steps lead from one state to the other, and each of them collects a future.
  ghost predicate Collects(s: System, steps: seq<ScanSystem.Step>, end: System) {
    Runs(s, steps, 0) && End(s, steps, 0) == end && forall step :: step in steps ==> step.Collect?
  }

  lemma {:induction false} CollectsNone(s: System)
    ensures Collects(s, [], s)
  { }

  lemma {:induction false} CollectsMore(s: System, steps: seq<ScanSystem.Step>, end: System, w: nat)
    requires Collects(s, steps, end) && Moves(end, Collect(w))
    ensures Collects(s, steps + [Collect(w)], Move(end, Collect(w), 0))
    decreases |steps|
  {
    hide Moves, Move;
    if steps == [] {
      RunsOne(s, Collect(w), [], 0);
      assert [] + [Collect(w)] == [Collect(w)] + [];
    } else {
      var next, rest := Move(s, steps[0], 0), steps[1..];
      CollectsMore(next, rest, end, w);
      RunsOne(s, steps[0], rest + [Collect(w)], 0);
      assert steps + [Collect(w)] == [steps[0]] + (rest + [Collect(w)]);
    }
  }

  lemma {:induction false} CollectsTrans(
      a: System, steps: seq<ScanSystem.Step>, b: System, more: seq<ScanSystem.Step>, c: System)
    requires Collects(a, steps, b) && Collects(b, more, c)
    ensures Collects(a, steps + more, c)
    decreases |steps|
  {
    hide Moves, Move;
    if steps == [] {
      assert [] + more == more;
    } else {
      var next, rest := Move(a, steps[0], 0), steps[1..];
      CollectsTrans(next, rest, b, more, c);
      RunsOne(a, steps[0], rest + more, 0);
      assert steps + more == [steps[0]] + (rest + more);
    }
  }

  // One pass over the futures: it takes exactly those that are ready when it comes to them.
  method Pass(poll: Poll, results: seq<WorkerResult>, t: nat, taken0: seq<bool>, done0: nat, total0: WorkerResult,
      ghost s0: System, ghost shards: seq<seq<int>>, ghost settled: nat)
    returns (taken: seq<bool>, done: nat, total: WorkerResult, ghost s: System, ghost steps: seq<ScanSystem.Step>)
    requires Tracks(s0, shards, results, taken0, done0, total0) && poll.SettledBy(|results|, settled)
    ensures Tracks(s, shards, results, taken, done, total) && s.stop == s0.stop && Collects(s0, steps, s)
    ensures |taken| == |taken0| == |results|
    ensures forall w: nat :: w < |results| ==> (taken[w] <==> taken0[w] || poll.ready(t + w, w))
    ensures done0 <= done && (settled <= t ==> done == |results|)
  {
    hide Tracks, Merge, Move, Moves, Collects, Poll.SettledBy;
    taken, done, total, s, steps := taken0, done0, total0, s0, [];
    TrackLength(s, shards, results, taken, done, total);
    CollectsNone(s);
    for i := 0 to |results|
      invariant Tracks(s, shards, results, taken, done, total) && s.stop == s0.stop && done0 <= done
      invariant Collects(s0, steps, s) && |taken| == |results|
      invariant forall w: nat :: w < |results| ==> (taken[w] <==> taken0[w] || (w < i && poll.ready(t + w, w)))
    {
      if taken[i] { continue; }
      if poll.ready(t + i, i) {
        TrackCollect(s, shards, results, taken, done, total, i);
        CollectsMore(s0, steps, s, i);
        steps := steps + [Collect(i)];
        s := Move(s, Collect(i), 0);
        total, taken, done := Merge(total, results[i]), taken[i := true], done + 1;
      }
    }
    TrackDone(s, shards, results, taken, done, total);
    if settled <= t {
      forall w: nat | w < |results| ensures taken[w] { Ready(poll, |results|, settled, t + w, w); }
    }
  }

  lemma {:induction false} TrackLength(
      s: System, shards: seq<seq<int>>, results: seq<WorkerResult>, taken: seq<bool>, done: nat, total: WorkerResult)
    requires Tracks(s, shards, results, taken, done, total)
    ensures |taken| == |results|
  { }

  lemma {:induction false} Ready(poll: Poll, n: nat, settled: nat, t: nat, w: nat)
    requires poll.SettledBy(n, settled) && w < n
    ensures settled <= t ==> poll.ready(t, w)
  { }

  lemma {:induction false} TrackTaken(
      s: System, shards: seq<seq<int>>, results: seq<WorkerResult>, taken: seq<bool>, done: nat, total: WorkerResult)
    requires Tracks(s, shards, results, taken, done, total) && done >= |results|
    ensures |s.workers| == |results| && done == |results|
    ensures forall w :: 0 <= w < |results| ==> s.workers[w].result == Some(results[w]) && s.workers[w].taken
  {
    hide SumOf;
    TrackDone(s, shards, results, taken, done, total);
    AllTaken(s.workers);
  }

  // The user's quit key was pressed.
  ghost predicate Quits(poll: Poll) { exists t: nat :: poll.quit(t) }

  // Between two readings of the clock more than 8 seconds and six timeouts passed.
  ghost predicate Stalls(poll: Poll, timeoutMs: int) { exists p: nat, u: nat :: Apart(poll, p, u, timeoutMs) }

  predicate Apart(poll: Poll, p: nat, u: nat, timeoutMs: int) {
    p < u && poll.now(u) - poll.now(p) > 8000 && poll.now(u) - poll.now(p) > 6 * timeoutMs
  }

  // One judgement of the watchdog, whose last progress was at tick `p`.
  lemma {:induction false} JudgedApart(w: Watchdog, poll: Poll, p: nat, u: nat, timeoutMs: int)
    requires w.seen.Some? && w.lastProgress == poll.now(p) && p < u
    ensures var (next, stalled) := Judged(w, poll.now(u), StallLimit(timeoutMs));
      && (next.lastProgress == poll.now(p) || next.lastProgress == poll.now(u))
      && (stalled ==> Stalls(poll, timeoutMs) && w.seen.value == w.lastScanned)
  {
    var (next, stalled) := Judged(w, poll.now(u), StallLimit(timeoutMs));
    if stalled { assert Apart(poll, p, u, timeoutMs); }
  }

  // The collector's loop, its watchdog included.
  method CollectAll(
      poll: Poll, results: seq<WorkerResult>, timeoutMs: int, ghost s0: System, ghost shards: seq<seq<int>>)
    returns (total: WorkerResult, raised: bool, ghost s: System, ghost steps: seq<ScanSystem.Step>)
    requires Tracks(s0, shards, results, seq(|results|, i => false), 0, NOTHING) && poll.Settles(|results|)
    ensures SystemInv(s, shards) && s.collector.done == |s.workers| && s.collector.total == total && s.stop == s0.stop
    ensures raised ==> Quits(poll) || Stalls(poll, timeoutMs)
    ensures Collects(s0, steps, s) && |s.workers| == |results|
    ensures forall w :: 0 <= w < |results| ==> s.workers[w].result == Some(results[w]) && s.workers[w].taken
  {
    hide SystemInv, Collects, Poll.SettledBy, Judged, StallLimit, Stalls;
    ghost var settled: nat :| poll.SettledBy(|results|, settled);
    var taken: seq<bool> := seq(|results|, i => false);
    var done, t: nat := 0, 0;
    total, raised, s, steps := NOTHING, false, s0, [];
    CollectsNone(s);
    var watchdog := Watchdog(0, poll.now(0), None, poll.now(0), poll.now(0), poll.now(0));
    ghost var at: nat := 0;
    while done < |results|
      invariant Tracks(s, shards, results, taken, done, total) && s.stop == s0.stop && Collects(s0, steps, s)
      invariant raised ==> Quits(poll) || Stalls(poll, timeoutMs)
      invariant at <= t && watchdog.lastProgress == poll.now(at)
      decreases |results| - done, settled - t
    {
      raised := raised || poll.quit(t);
      ghost var before, more := s, steps;
      taken, done, total, s, more := Pass(poll, results, t, taken, done, total, s, shards, settled);
      CollectsTrans(s0, steps, before, more, s);
      steps := steps + more;
      t := t + |results| + 1;
      watchdog := watchdog.(seen := Some(poll.progress(t)));
      JudgedApart(watchdog, poll, at, t + 1, timeoutMs);
      var (next, stalled) := Judged(watchdog, poll.now(t + 1), StallLimit(timeoutMs));
      if next.lastProgress != poll.now(at) { at := t + 1; }
      watchdog, raised, t := next, raised || stalled, t + 1;
    }
    TrackTaken(s, shards, results, taken, done, total);
  }

  // ---------------------------------------------------------- the connect scan

  // The worker of one shard; its kernel is its own, stop flag included.
  method ScanShard(windows: bool, k: Kernel, shard: seq<int>, timeoutMs: int, inflight: nat)
    returns (r: WorkerResult, ghost w: Worker, ghost run: Run)
    requires k.Sane() && k.Advances() && inflight >= 1
    ensures w.result == Some(r) && !w.taken && WorkerInv(w, shard, r.aborted)
    ensures r.aborted ==> exists t: nat :: k.stop(t)
    ensures run.ports == shard && run.limit == inflight && run.result == r && WorkerRan(windows, k, timeoutMs, run)
  {
    hide Replayable, Replay, Explains, EpollWorker.Why, IocpWorker.Why, Kernel.Sane, Kernel.Advances, WorkerInv,
      OpenPorts, IocpWorker.SetUp;
    var scanned, open, u;
    ghost var log, steps, created, closed;
    if windows {
      r, scanned, open, u, log, steps, created, closed := IocpWorker.ScanConnectWorker(k, shard, timeoutMs, inflight);
    } else {
      r, scanned, open, u, log, steps := EpollWorker.ScanConnectWorker(k, shard, timeoutMs, inflight);
    }
    Returned(shard, inflight, log, r);
    w := Worker(Replay(Start(shard, inflight), log), r.scanned, |r.open|, Some(r), false);
    run := Run(shard, inflight, r, log, steps);
  }

  lemma {:induction false} Returned(shard: seq<int>, inflight: nat, log: seq<Event>, r: WorkerResult)
    requires Replayable(Start(shard, inflight), log)
    requires r == Replay(Start(shard, inflight), log).out.(aborted := r.aborted)
    requires r.scanned <= |shard| && (r.scanned < |shard| ==> r.aborted)
    ensures WorkerInv(
      Worker(Replay(Start(shard, inflight), log), r.scanned, |r.open|, Some(r), false), shard, r.aborted)
  {
    hide Replayable, Replay, Inv;
    StartInv(shard, inflight);
    ReplayInv(Start(shard, inflight), log);
  }

  // The system in which every worker has returned and no future was collected.
  ghost function AllReturned(ws: seq<Worker>, stop: bool): System
    requires SumOf(Told(), ws) >= 0 && SumOf(ToldOpen(), ws) >= 0
  {
    System(
      ws, stop, SumOf(Told(), ws), SumOf(ToldOpen(), ws), 0, 0,
      Collector(0, NOTHING), Watchdog(0, 0, None, 0, 0, 0))
  }

  lemma {:induction false} ToldNat(ws: seq<Worker>)
    ensures SumOf(Told(), ws) >= 0 && SumOf(ToldOpen(), ws) >= 0
    decreases |ws|
  {
    if ws != [] { ToldNat(ws[..|ws| - 1]); }
  }

  lemma {:induction false} CollectorStart(
      ws: seq<Worker>, shards: seq<seq<int>>, results: seq<WorkerResult>, stop: bool)
    requires |ws| == |shards| == |results| && SumOf(Told(), ws) >= 0 && SumOf(ToldOpen(), ws) >= 0
    requires forall w :: 0 <= w < |ws| ==>
      WorkerInv(ws[w], shards[w], stop) && !ws[w].taken && ws[w].result == Some(results[w])
    ensures Tracks(AllReturned(ws, stop), shards, results, seq(|results|, i => false), 0, NOTHING)
  {
    hide SumOf, WorkerInv;
    SumZero(TakenOne(), ws);
    forall f | Additive(f) ensures f(NOTHING) == SumOf(TakenOf(f), ws) { SumZero(TakenOf(f), ws); }
  }

  // The ports were dealt out, and each shard scanned by a worker on a kernel of its own.
  ghost predicate Shared(env: Environment, ports: seq<int>, timeoutMs: int, runs: seq<Run>) {
    && 0 < |runs| <= |ports|
    && (forall w :: 0 <= w < |runs| ==> runs[w].ports == Dealt(ports, |runs|)[w] && runs[w].limit >= 64)
    && AllRan(env.windows, env.kernels, timeoutMs, runs)
  }

  // The workers have returned, each from its shard.
  ghost predicate Returns(
      env: Environment, timeoutMs: int, shards: seq<seq<int>>, results: seq<WorkerResult>, ws: seq<Worker>,
      runs: seq<Run>, stop: bool)
  {
    && |results| == |ws| == |runs| == |shards|
    && (forall v :: 0 <= v < |ws| ==>
         WorkerInv(ws[v], shards[v], stop) && !ws[v].taken && ws[v].result == Some(results[v]))
    && (forall v :: 0 <= v < |runs| ==>
         runs[v].result == results[v] && runs[v].ports == shards[v] && runs[v].limit >= 64)
    && AllRan(env.windows, env.kernels, timeoutMs, runs)
    && (stop <==> exists run :: run in runs && run.result.aborted)
  }

  lemma {:induction false} NoneReturned(env: Environment, timeoutMs: int)
    ensures Returns(env, timeoutMs, [], [], [], [], false)
  { }

  lemma {:induction false} OneMoreReturned(
      env: Environment, timeoutMs: int, shards: seq<seq<int>>, results: seq<WorkerResult>, ws: seq<Worker>,
      runs: seq<Run>, stop: bool, shard: seq<int>, worker: Worker, run: Run)
    requires Returns(env, timeoutMs, shards, results, ws, runs, stop)
    requires worker.result == Some(run.result) && !worker.taken && WorkerInv(worker, shard, run.result.aborted)
    requires run.ports == shard && run.limit >= 64
    requires WorkerRan(env.windows, env.kernels(|runs|), timeoutMs, run)
    ensures Returns(
      env, timeoutMs, shards + [shard], results + [run.result], ws + [worker], runs + [run], stop || run.result.aborted)
  {
    hide WorkerInv, WorkerRan;
    StopSpreads(ws, shards, stop, run.result.aborted);
    StopSpreads([worker], [shard], run.result.aborted, stop);
    assert [worker][0] == worker && [shard][0] == shard;
    OneMoreRun(runs, run);
  }

  // The loop over the workers.
  method RunWorkers(env: Environment, shards: seq<seq<int>>, timeoutMs: int, inflight: nat)
    returns (results: seq<WorkerResult>, ghost ws: seq<Worker>, ghost runs: seq<Run>, ghost stop: bool)
    requires env.Sane() && inflight >= 64
    ensures Returns(env, timeoutMs, shards, results, ws, runs, stop) && (stop ==> env.WorkerStopped(|shards|))
  {
    hide WorkerInv, WorkerRan, Returns, Environment.WorkerStopped;
    results, ws, runs, stop := [], [], [], false;
    NoneReturned(env, timeoutMs);
    for w := 0 to |shards|
      invariant |runs| == w && Returns(env, timeoutMs, shards[..w], results, ws, runs, stop)
      invariant stop ==> env.WorkerStopped(|shards|)
    {
      var r;
      ghost var worker, run;
      r, worker, run := ScanShard(env.windows, env.kernels(w), shards[w], timeoutMs, inflight);
      WorkerStops(env, w, |shards|, r.aborted);
      OneMoreReturned(env, timeoutMs, shards[..w], results, ws, runs, stop, shards[w], worker, run);
      assert shards[..w + 1] == shards[..w] + [shards[w]];
      results, ws, runs, stop := results + [r], ws + [worker], runs + [run], stop || r.aborted;
    }
    assert shards[..|shards|] == shards;
  }

  /**
    The connect scan. Its total is the merged results of its workers, each the
    run of one shard on its kernel.
  */
  method RunConnectScan(env: Environment, ports: seq<int>, threads: int, timeoutMs: int)
    returns (total: WorkerResult, ghost runs: seq<Run>)
    requires env.Sane()
    ensures Sums(total) && total.scanned <= |ports| && OpenPorts(total.open) <= multiset(ports)
    ensures if total.aborted then env.WorkerStopped(|ports|) else total.scanned == |ports|
    ensures if ports == [] then runs == [] else Shared(env, ports, timeoutMs, runs)
    ensures SameTally(total, MergeAll(runs))
    ensures total.aborted <==> exists run :: run in runs && run.result.aborted
  {
    hide SystemInv, WorkerInv, AllRan, Tracks, OpenPorts, Sums, Flatten, Dealt, AllReturned, Max, Min, SameTally,
      MergeAll, Collects, Environment.WorkerStopped;
    runs := [];
    if ports == [] {
      NothingScanned(ports);
      return NOTHING, [];
    }
    var inflightTotal, workers, inflight := Plan(threads, env.hardware, |ports|);
    var shards := Deal(ports, workers);
    DealtCount(ports, workers);
    var results;
    ghost var ws, stop;
    results, ws, runs, stop := RunWorkers(env, shards, timeoutMs, inflight);
    MoreStop(env, |shards|, |ports|);
    ToldNat(ws);
    CollectorStart(ws, shards, results, stop);
    var raised;
    ghost var s, steps;
    total, raised, s, steps := CollectAll(env.poll, results, timeoutMs, AllReturned(ws, stop), shards);
    StopOf(ws, stop);
    TotalOver(s, ports, workers);
    TotalIs(s, shards, total, runs);
  }

  lemma {:induction false} MoreStop(env: Environment, n: int, m: int)
    requires n <= m
    ensures env.WorkerStopped(n) ==> env.WorkerStopped(m)
  { }

  lemma {:induction false} DealtCount(ports: seq<int>, workers: nat)
    requires workers > 0
    ensures |Dealt(ports, workers)| == workers
  { }

  lemma {:induction false} WorkerStops(env: Environment, w: nat, n: int, aborted: bool)
    requires w < n && (aborted ==> exists t: nat :: env.kernels(w).stop(t))
    ensures aborted ==> env.WorkerStopped(n)
  { }

  lemma {:induction false} OneMoreRun(runs: seq<Run>, run: Run)
    ensures (exists r :: r in runs + [run] && r.result.aborted) <==>
      run.result.aborted || exists r :: r in runs && r.result.aborted
  {
    assert run in runs + [run] && forall r :: r in runs ==> r in runs + [run];
  }

  lemma {:induction false} TotalIs(s: System, shards: seq<seq<int>>, total: WorkerResult, runs: seq<Run>)
    requires SystemInv(s, shards) && s.collector.total == total && |s.workers| == |runs|
    requires forall w :: 0 <= w < |runs| ==> s.workers[w].result == Some(runs[w].result) && s.workers[w].taken
    ensures SameTally(total, MergeAll(runs))
    ensures (exists run :: run in runs && run.result.aborted) ==> total.aborted
    ensures total.aborted ==> s.stop
  {
    hide SameTally, MergeAll, WorkerInv, SumOf, Additive, WatchdogInv;
    TotalIsMerged(s.workers, total, runs);
    if run :| run in runs && run.result.aborted {
      var w :| 0 <= w < |runs| && runs[w] == run;
      assert s.workers[w].taken && s.workers[w].result.Some? && s.workers[w].result.value.aborted;
    }
  }

  lemma {:induction false} StopOf(ws: seq<Worker>, stop: bool)
    requires SumOf(Told(), ws) >= 0 && SumOf(ToldOpen(), ws) >= 0
    ensures AllReturned(ws, stop).stop == stop
  { }

  lemma {:induction false} StopSpreads(ws: seq<Worker>, shards: seq<seq<int>>, stop: bool, more: bool)
    requires |ws| == |shards| && forall v :: 0 <= v < |ws| ==> WorkerInv(ws[v], shards[v], stop)
    ensures forall v :: 0 <= v < |ws| ==> WorkerInv(ws[v], shards[v], stop || more)
  {
    hide WorkerInv;
    if more && !stop {
      forall v | 0 <= v < |ws| ensures WorkerInv(ws[v], shards[v], true) { StopKeeps(ws[v], shards[v], stop); }
    }
  }

  lemma {:induction false} NothingScanned(ports: seq<int>)
    requires ports == []
    ensures Sums(NOTHING) && OpenPorts(NOTHING.open) <= multiset(ports) && SameTally(NOTHING, MergeAll([]))
  { }

  // ------------------------------------------------------------- the result

  function Failures(stats: ScanStats): nat { stats.timeouts + stats.refused + stats.other }

  // The statistics of a scan of `portCount` ports.
  function StatsOf(total: WorkerResult, portCount: nat): ScanStats {
    ScanStats(total.scanned, total.timeouts, total.refused, total.other, total.aborted || total.scanned < portCount)
  }

  // The last lines of both scans.
  method Report(total: WorkerResult, portCount: nat) returns (open: seq<TcpOpen>, stats: ScanStats)
    ensures multiset(open) == multiset(total.open) && SortedByPort(open)
    ensures OpenPorts(open) == OpenPorts(total.open) && |open| == |total.open|
    ensures stats.scanned == total.scanned && stats.timeouts == total.timeouts
    ensures stats.refused == total.refused && stats.other == total.other
    ensures stats.skipped <==> total.aborted || total.scanned < portCount
    ensures stats == StatsOf(total, portCount)
  {
    SortSorts(total.open);
    open := SortByPort(total.open);
    var skipped := total.aborted || total.scanned < portCount;
    stats := ScanStats(total.scanned, total.timeouts, total.refused, total.other, skipped);
  }

  /**
    At the end of any run of the system, in any interleaving: a scan that does
    not say it was skipped has accounted for every port, and one that does say
    so was stopped.
  */
  lemma {:induction false} RunNotSkippedAccounts(
      ports: seq<int>, workers: nat, inflight: nat, clock: int, steps: seq<ScanSystem.Step>, stallMs: int)
    requires workers > 0 && Runs(ScanSystem.Launch(Dealt(ports, workers), inflight, clock), steps, stallMs)
    requires End(ScanSystem.Launch(Dealt(ports, workers), inflight, clock), steps, stallMs).collector.done == workers
    ensures var s := End(ScanSystem.Launch(Dealt(ports, workers), inflight, clock), steps, stallMs);
      var stats := StatsOf(s.collector.total, |ports|);
      && (!stats.skipped ==> |s.collector.total.open| + Failures(stats) == |ports|)
      && (stats.skipped ==> s.stop)
  {
    hide Runs, End, ScanSystem.Launch, Dealt, OpenPorts;
    ScanAccounts(ports, workers, inflight, clock, steps, stallMs);
  }

  // The target has to be resolved for the connect scan, and is not.
  predicate Unresolved(env: Environment, syn: bool, ports: seq<int>) {
    ports != [] && !env.resolves && (!syn || env.windows || !env.synKernel.accept(0))
  }

  // The half-open scan, if it can be set up.
  method TrySyn(env: Environment, ports: seq<int>, threads: int, timeoutMs: int)
    returns (r: Option<WorkerResult>, ghost run: Run)
    requires env.Sane() && ports != []
    ensures r == None <==> !env.synKernel.accept(0)
    ensures r.Some? ==>
      && Sums(r.value) && r.value.scanned <= |ports| && OpenPorts(r.value.open) <= multiset(ports)
      && if r.value.aborted then env.SynStopped() else r.value.scanned == |ports|
    ensures r.Some? ==>
      && run.ports == ports && run.limit == Clamp(threads, 64, 4000) && run.result == r.value
      && SynRan(env.synKernel, timeoutMs, env.target, env.source, run)
  {
    hide Replayable, Replay, Explains, OpenPorts, Kernel.Sane, Kernel.Advances, Sums, Ends, SynScanner.Why,
      SynScanner.Walks;
    var scanned, found, u;
    ghost var log, steps, cursor;
    r, scanned, found, u, log, steps, cursor :=
      SynScanner.ScanSyn(env.synKernel, ports, timeoutMs, Clamp(threads, 64, 4000), env.target, env.source);
    run := Run(ports, Clamp(threads, 64, 4000), if r.Some? then r.value else NOTHING, log, steps);
  }

  // The half-open scan is asked for, possible, and set up.
  predicate HalfOpen(env: Environment, syn: bool, ports: seq<int>) {
    ports != [] && syn && !env.windows && env.synKernel.accept(0)
  }

  // What the answer is made of: the runs behind it, and what was said over them.
  ghost predicate Behind(
      env: Environment, syn: bool, ports: seq<int>, threads: int, timeoutMs: int, runs: seq<Run>, said: seq<Reading>)
  {
    if HalfOpen(env, syn, ports) then
      && |runs| == 1 && runs[0].ports == ports && runs[0].limit == Clamp(threads, 64, 4000)
      && SynRan(env.synKernel, timeoutMs, env.target, env.source, runs[0])
      && said == SynSaid(env.synKernel, timeoutMs, env.target, env.source, runs[0])
    else if ports == [] || !env.resolves then runs == [] && said == []
    else Shared(env, ports, timeoutMs, runs) && said == AllSaid(env.windows, env.kernels, timeoutMs, runs)
  }

  // The answer counts what was said, once, by what it says, and `unset` ports besides.
  ghost predicate Counts(open: seq<TcpOpen>, stats: ScanStats, runs: seq<Run>, said: seq<Reading>, unset: nat) {
    && multiset(open) == multiset(Opens(said))
    && stats.refused == Count(said, RefusedReading()) && stats.other == Count(said, OtherReading()) + unset
    && stats.timeouts == AllExpiries(runs)
  }

  // The half-open scan and its answer.
  method AnswerSyn(env: Environment, ports: seq<int>, threads: int, timeoutMs: int)
    returns (done: bool, open: seq<TcpOpen>, stats: ScanStats, ghost runs: seq<Run>, ghost said: seq<Reading>)
    requires env.Sane() && ports != [] && !env.windows
    ensures done <==> HalfOpen(env, true, ports)
    ensures done ==>
      && SortedByPort(open) && OpenPorts(open) <= multiset(ports)
      && stats.scanned == |open| + Failures(stats) <= |ports|
      && (if stats.skipped then env.SynStopped() else stats.scanned == |ports|)
      && Behind(env, true, ports, threads, timeoutMs, runs, said) && Counts(open, stats, runs, said, 0)
  {
    hide Environment.Sane, Environment.SynStopped, OpenPorts, SortedByPort, SynRan, Counts, SynSaid;
    done, open, stats, runs, said := false, [], ScanStats(0, 0, 0, 0, false), [], [];
    var r;
    ghost var run;
    r, run := TrySyn(env, ports, threads, timeoutMs);
    if r.Some? {
      done := true;
      open, stats := Report(r.value, |ports|);
      runs, said := [run], SynSaid(env.synKernel, timeoutMs, env.target, env.source, run);
      HalfOpenCounts(env, timeoutMs, run, open, stats);
    }
  }

  // The connect scan and its answer.
  method AnswerConnect(env: Environment, ports: seq<int>, threads: int, timeoutMs: int)
    returns (open: seq<TcpOpen>, stats: ScanStats, ghost runs: seq<Run>, ghost said: seq<Reading>)
    requires env.Sane() && ports != []
    ensures SortedByPort(open) && OpenPorts(open) <= multiset(ports)
    ensures stats.scanned == |open| + Failures(stats) <= |ports|
    ensures if stats.skipped then env.WorkerStopped(|ports|) else stats.scanned == |ports|
    ensures Shared(env, ports, timeoutMs, runs) && said == AllSaid(env.windows, env.kernels, timeoutMs, runs)
    ensures Counts(open, stats, runs, said, 0)
  {
    hide Environment.Sane, Environment.WorkerStopped, OpenPorts, SortedByPort, Counts, AllSaid, MergeAll, SameTally,
      AllRan, Dealt;
    var total;
    total, runs := RunConnectScan(env, ports, threads, timeoutMs);
    open, stats := Report(total, |ports|);
    said := AllSaid(env.windows, env.kernels, timeoutMs, runs);
    ConnectCounts(env, timeoutMs, total, runs, open, stats);
  }

  /**
    The scan. On every return path the open ports are sorted and among those
    asked for, and unless the scan says it was skipped, every port is open or
    counted as one failure. It says so only if something raised a stop flag.
    What it calls scanned is the sum of these counts unless the connect scan
    cannot resolve its target, and then it is 0. Behind the answer there are the
    runs of the workers, or of the half-open scanner: it counts everything that
    their kernels said of a port, once, by what it says.
  */
  method ScanTcpAsync(env: Environment, syn: bool, ports: seq<int>, threads: int, timeoutMs: int)
    returns (open: seq<TcpOpen>, stats: ScanStats, ghost runs: seq<Run>, ghost said: seq<Reading>)
    requires env.Sane()
    ensures SortedByPort(open) && OpenPorts(open) <= multiset(ports)
    ensures !stats.skipped ==> |open| + Failures(stats) == |ports|
    ensures stats.skipped ==> env.WorkerStopped(|ports|) || (syn && env.SynStopped())
    ensures stats.scanned == |open| + Failures(stats) <==> !Unresolved(env, syn, ports)
    ensures Unresolved(env, syn, ports) ==> open == [] && stats == ScanStats(0, 0, 0, |ports|, false)
    ensures stats.scanned <= |ports|
    ensures Behind(env, syn, ports, threads, timeoutMs, runs, said)
    ensures Counts(open, stats, runs, said, if Unresolved(env, syn, ports) then |ports| else 0)
  {
    hide Environment.Sane, Environment.WorkerStopped, Environment.SynStopped, OpenPorts, SortedByPort, SynRan, Shared,
      Counts, AllSaid, SynSaid;
    if ports == [] {
      NoOpenPorts(ports);
      NothingCounted(0);
      return [], ScanStats(0, 0, 0, 0, false), [], [];
    }
    if syn && !env.windows {
      var done;
      done, open, stats, runs, said := AnswerSyn(env, ports, threads, timeoutMs);
      if done { return; }
    }
    if !env.resolves {
      NoOpenPorts(ports);
      NothingCounted(|ports|);
      return [], ScanStats(0, 0, 0, |ports|, false), [], [];
    }
    open, stats, runs, said := AnswerConnect(env, ports, threads, timeoutMs);
  }

  lemma {:induction false} NothingCounted(unset: nat)
    ensures Counts([], ScanStats(0, 0, 0, unset, false), [], [], unset)
  { }

  lemma {:induction false} OneExpires(run: Run)
    ensures AllExpiries([run]) == Expiries(run.log)
  {
    hide Expiries;
    assert [run][..0] == [] && AllExpiries([]) == 0;
  }

  lemma {:induction false} HalfOpenCounts(
      env: Environment, timeoutMs: int, run: Run, open: seq<TcpOpen>, stats: ScanStats)
    requires SynRan(env.synKernel, timeoutMs, env.target, env.source, run)
    requires multiset(open) == multiset(run.result.open) && stats.timeouts == run.result.timeouts
    requires stats.refused == run.result.refused && stats.other == run.result.other
    ensures Counts(open, stats, [run], SynSaid(env.synKernel, timeoutMs, env.target, env.source, run), 0)
  {
    hide SynRan, SynSaid, Opens, Count, Expiries;
    SynCounts(env.synKernel, timeoutMs, env.target, env.source, run);
    OneExpires(run);
  }

  lemma {:induction false} ConnectCounts(
      env: Environment, timeoutMs: int, total: WorkerResult, runs: seq<Run>, open: seq<TcpOpen>, stats: ScanStats)
    requires AllRan(env.windows, env.kernels, timeoutMs, runs) && SameTally(total, MergeAll(runs))
    requires multiset(open) == multiset(total.open) && stats.timeouts == total.timeouts
    requires stats.refused == total.refused && stats.other == total.other
    ensures Counts(open, stats, runs, AllSaid(env.windows, env.kernels, timeoutMs, runs), 0)
  {
    hide AllRan, AllSaid, MergeAll, Opens, Count, AllExpiries;
    AllCount(env.windows, env.kernels, timeoutMs, runs);
  }

  lemma {:induction false} NoOpenPorts(ports: seq<int>)
    ensures SortedByPort([]) && OpenPorts([]) <= multiset(ports)
  { }

  // A machine with a clock that runs, a target that does not resolve, and no sockets.
  function Offline(): Environment {
    var k := Kernel(
      t => t, t => false, (t, used) => -1, t => Error(false), t => false, (t, waiting) => [], t => NoError, t => -1,
      t => []);
    Environment(false, 4, false, [10, 0, 0, 2], [10, 0, 0, 1], k, w => k,
      Poll((t, w) => true, t => t, t => 0, t => false))
  }

  lemma {:induction false} OfflineIsSane()
    ensures Offline().Sane() && Unresolved(Offline(), false, [80])
  {
    var k := Offline().synKernel;
    forall bound: int ensures k.Reaches(bound) { assert bound <= k.now(if bound < 0 then 0 else bound); }
    forall n: nat ensures Offline().poll.Settles(n) { assert Offline().poll.SettledBy(n, 0); }
  }

  /** There the scan of one port reports a failure, nothing scanned, and nothing skipped. */
  method ScanOffline() returns (open: seq<TcpOpen>, stats: ScanStats)
    ensures open == [] && stats == ScanStats(0, 0, 0, 1, false) && stats.scanned != |open| + Failures(stats)
  {
    OfflineIsSane();
    ghost var runs, said;
    open, stats, runs, said := ScanTcpAsync(Offline(), false, [80], 100, 1000);
  }
}
