/**
  run_connect_scan_with_pool of tcp_async_scan.cpp as one system: the workers,
  the shared counters and stop flag, and the collector with its watchdog, in
  any interleaving.
*/
module ScanSystem {
  import opened Bytes
  import opened ScanLedger
  import opened Sharding

  // A worker: its ledger, how much of it the shared counters know, its future,
  // and whether that was collected.
  datatype Worker = Worker(ledger: Ledger, told: nat, toldOpen: nat, result: Option<WorkerResult>, taken: bool)

  datatype Collector = Collector(done: nat, total: WorkerResult)

  // The watchdog reads the counter first (`seen`) and the clock later. History:
  // when it read the counter last, and when for the value behind lastProgress;
  // and when the counter had last grown at that last reading.
  datatype Watchdog = Watchdog(
    lastScanned: nat, lastProgress: int, seen: Option<nat>, seenAt: int, behindAt: int, toldBefore: int)

  datatype System = System(
    workers: seq<Worker>,
    stop: bool,
    scanned: nat,
    open: nat,
    clock: int,
    // When `scanned` last grew.
    lastTold: int,
    collector: Collector,
    watchdog: Watchdog)

  datatype Step =
    | Work(w: nat, event: Event)
    | TellScanned(w: nat)
    | TellOpen(w: nat)
    | Return(w: nat, aborted: bool)
    | Collect(w: nat)
    | Load
    | Judge
    | Tick(now: int)
    | Quit

  function Launch(shards: seq<seq<int>>, inflight: nat, clock: int): System {
    System(
      seq(|shards|, w requires 0 <= w < |shards| => Worker(Start(shards[w], inflight), 0, 0, None, false)),
      false, 0, 0, clock, clock, Collector(0, NOTHING), Watchdog(0, clock, None, clock, clock, clock))
  }

  function StallLimit(timeoutMs: int): int { Max(8000, timeoutMs * 6) }

  function Merge(a: WorkerResult, b: WorkerResult): WorkerResult {
    WorkerResult(
      a.open + b.open, a.scanned + b.scanned, a.timeouts + b.timeouts, a.refused + b.refused, a.other + b.other,
      a.aborted || b.aborted)
  }

  predicate Finished(l: Ledger) { l.next == |l.ports| && l.active == map[] }

  // A worker returns when its work is done or it has seen the stop flag, which
  // stays up; it reports an abort only if the flag is up.
  predicate CanReturn(w: Worker, stop: bool, aborted: bool) {
    && w.result == None
    && w.told == w.ledger.out.scanned && w.toldOpen == |w.ledger.out.open|
    && (if aborted then stop else Finished(w.ledger))
  }

  predicate Moves(s: System, step: Step) {
    match step
    case Work(w, e) => w < |s.workers| && s.workers[w].result == None && Enabled(s.workers[w].ledger, e)
    case TellScanned(w) => w < |s.workers| && s.workers[w].told < s.workers[w].ledger.out.scanned
    case TellOpen(w) => w < |s.workers| && s.workers[w].toldOpen < |s.workers[w].ledger.out.open|
    case Return(w, aborted) => w < |s.workers| && CanReturn(s.workers[w], s.stop, aborted)
    case Collect(w) => w < |s.workers| && s.workers[w].result.Some? && !s.workers[w].taken
    case Load => s.watchdog.seen == None
    case Judge => s.watchdog.seen.Some?
    case Tick(now) => s.clock <= now
    case Quit => true
  }

  // The watchdog at the clock, with the counter it has seen: what it remembers,
  // and whether it raises the stop flag.
  function Judged(w: Watchdog, now: int, stallMs: int): (Watchdog, bool)
    requires w.seen.Some?
  {
    if w.seen.value != w.lastScanned
    then (w.(lastScanned := w.seen.value, lastProgress := now, behindAt := w.seenAt, seen := None), false)
    else (w.(seen := None), now - w.lastProgress > stallMs)
  }

  function Took(c: Collector, r: WorkerResult): Collector { c.(done := c.done + 1, total := Merge(c.total, r)) }

  function Move(s: System, step: Step, stallMs: int): System
    requires Moves(s, step)
  {
    match step
    case Work(w, e) => s.(workers := s.workers[w := s.workers[w].(ledger := Apply(s.workers[w].ledger, e))])
    case TellScanned(w) =>
      s.(workers := s.workers[w := s.workers[w].(told := s.workers[w].told + 1)],
        scanned := s.scanned + 1, lastTold := s.clock)
    case TellOpen(w) =>
      s.(workers := s.workers[w := s.workers[w].(toldOpen := s.workers[w].toldOpen + 1)], open := s.open + 1)
    case Return(w, aborted) =>
      s.(workers := s.workers[w := s.workers[w].(result := Some(s.workers[w].ledger.out.(aborted := aborted)))])
    case Collect(w) =>
      s.(workers := s.workers[w := s.workers[w].(taken := true)],
        collector := Took(s.collector, s.workers[w].result.value))
    case Load => s.(watchdog := s.watchdog.(seen := Some(s.scanned), seenAt := s.clock, toldBefore := s.lastTold))
    case Judge =>
      var (w, raise) := Judged(s.watchdog, s.clock, stallMs);
      s.(watchdog := w, stop := s.stop || raise)
    case Tick(now) => s.(clock := now)
    case Quit => s.(stop := true)
  }

  // --------------------------------------------------------------- sums

  function SumOf(g: Worker -> int, workers: seq<Worker>): int {
    if workers == [] then 0 else SumOf(g, workers[..|workers| - 1]) + g(workers[|workers| - 1])
  }

  lemma {:induction false} SumUpdate(g: Worker -> int, workers: seq<Worker>, w: nat, to: Worker)
    requires w < |workers|
    ensures SumOf(g, workers[w := to]) == SumOf(g, workers) - g(workers[w]) + g(to)
    decreases |workers|
  {
    var n := |workers| - 1;
    if w < n {
      assert workers[w := to][..n] == workers[..n][w := to];
      SumUpdate(g, workers[..n], w, to);
    } else {
      assert workers[w := to][..n] == workers[..n];
    }
  }

  lemma {:induction false} SumZero(g: Worker -> int, workers: seq<Worker>)
    requires forall w :: 0 <= w < |workers| ==> g(workers[w]) == 0
    ensures SumOf(g, workers) == 0
    decreases |workers|
  {
    if workers != [] { SumZero(g, workers[..|workers| - 1]); }
  }

  function Told(): Worker -> int { (w: Worker) => w.told }

  function ToldOpen(): Worker -> int { (w: Worker) => w.toldOpen }

  function TakenOne(): Worker -> int { (w: Worker) => if w.taken then 1 else 0 }

  function TakenOf(f: WorkerResult -> int): Worker -> int {
    (w: Worker) => if w.taken && w.result.Some? then f(w.result.value) else 0
  }

  // A quantity that merging two results adds up.
  ghost predicate Additive(f: WorkerResult -> int) {
    f(NOTHING) == 0 && forall a, b :: f(Merge(a, b)) == f(a) + f(b)
  }

  // ----------------------------------------------------------- invariant

  /** What holds of one worker: a future, once set, says what the ledger counted, and is complete unless aborted. */
  ghost predicate WorkerInv(w: Worker, shard: seq<int>, stop: bool) {
    && Inv(w.ledger) && w.ledger.ports == shard && !w.ledger.out.aborted
    && w.told <= w.ledger.out.scanned && w.toldOpen <= |w.ledger.out.open|
    && match w.result
       case None => !w.taken
       case Some(r) =>
         && r == w.ledger.out.(aborted := r.aborted)
         && w.told == r.scanned && w.toldOpen == |r.open|
         && (if r.aborted then stop else r.scanned == |shard|)
  }

  // The collector has merged each taken result once.
  ghost predicate Merged(workers: seq<Worker>, total: WorkerResult) {
    && (forall f :: Additive(f) ==> f(total) == SumOf(TakenOf(f), workers))
    && (forall w :: 0 <= w < |workers| && workers[w].taken && workers[w].result.Some? ==>
         workers[w].result.value.aborted ==> total.aborted)
  }

  ghost predicate SystemInv(s: System, shards: seq<seq<int>>) {
    && |s.workers| == |shards|
    && (forall w :: 0 <= w < |shards| ==> WorkerInv(s.workers[w], shards[w], s.stop))
    && s.scanned == SumOf(Told(), s.workers)
    && s.open == SumOf(ToldOpen(), s.workers)
    && s.collector.done == SumOf(TakenOne(), s.workers)
    && Merged(s.workers, s.collector.total)
    && (s.collector.total.aborted ==> s.stop)
    && WatchdogInv(s.watchdog, s.scanned, s.lastTold, s.clock)
  }

  // What the watchdog saw was the counter when it looked, and the counter only grows.
  ghost predicate WatchdogInv(w: Watchdog, scanned: nat, lastTold: int, clock: int) {
    && lastTold <= clock && w.behindAt <= w.lastProgress <= clock && w.behindAt <= w.seenAt <= clock
    && w.lastScanned <= scanned
    && (w.lastScanned == scanned ==> lastTold <= w.behindAt)
    && (w.seen.Some? ==>
      && w.lastScanned <= w.seen.value <= scanned && w.toldBefore <= w.seenAt
      && (w.seen.value == w.lastScanned ==> w.toldBefore <= w.behindAt)
      && (if w.seen.value == scanned then w.toldBefore == lastTold else w.seenAt <= lastTold))
  }

  lemma {:induction false} LaunchInv(shards: seq<seq<int>>, inflight: nat, clock: int)
    ensures SystemInv(Launch(shards, inflight, clock), shards)
  {
    hide Inv, SumOf;
    var s := Launch(shards, inflight, clock);
    forall w | 0 <= w < |shards| ensures WorkerInv(s.workers[w], shards[w], s.stop) { StartInv(shards[w], inflight); }
    SumZero(Told(), s.workers);
    SumZero(ToldOpen(), s.workers);
    SumZero(TakenOne(), s.workers);
    forall f | Additive(f) ensures f(NOTHING) == SumOf(TakenOf(f), s.workers) { SumZero(TakenOf(f), s.workers); }
  }

  lemma {:induction false} StopKeeps(w: Worker, shard: seq<int>, stop: bool)
    requires WorkerInv(w, shard, stop)
    ensures WorkerInv(w, shard, true)
  { }

  // One worker changes, and nothing the collector has seen of it.
  lemma {:induction false} UntakenKeeps(workers: seq<Worker>, w: nat, to: Worker, total: WorkerResult)
    requires w < |workers| && !workers[w].taken && !to.taken && Merged(workers, total)
    ensures Merged(workers[w := to], total)
    ensures SumOf(TakenOne(), workers[w := to]) == SumOf(TakenOne(), workers)
  {
    hide SumOf, Additive;
    SumUpdate(TakenOne(), workers, w, to);
    forall f | Additive(f) ensures f(total) == SumOf(TakenOf(f), workers[w := to]) {
      SumUpdate(TakenOf(f), workers, w, to);
    }
  }

  lemma {:induction false} Grows(l: Ledger, e: Event)
    requires Enabled(l, e)
    ensures var m := Apply(l, e);
      && m.ports == l.ports && m.out.aborted == l.out.aborted
      && l.out.scanned <= m.out.scanned && |l.out.open| <= |m.out.open|
  { }

  lemma {:induction false} WorkInv(s: System, shards: seq<seq<int>>, w: nat, e: Event, stallMs: int)
    requires SystemInv(s, shards) && Moves(s, Work(w, e))
    ensures SystemInv(Move(s, Work(w, e), stallMs), shards)
  {
    hide Inv, Merged, SumOf, Enabled, Apply;
    var from := s.workers[w];
    var to := from.(ledger := Apply(from.ledger, e));
    Grows(from.ledger, e);
    ApplyInv(from.ledger, e);
    UntakenKeeps(s.workers, w, to, s.collector.total);
    SumUpdate(Told(), s.workers, w, to);
    SumUpdate(ToldOpen(), s.workers, w, to);
  }

  lemma {:induction false} TellInv(s: System, shards: seq<seq<int>>, step: Step, w: nat, stallMs: int)
    requires SystemInv(s, shards) && (step == TellScanned(w) || step == TellOpen(w)) && Moves(s, step)
    ensures SystemInv(Move(s, step, stallMs), shards)
  {
    hide Inv, Merged, SumOf;
    var to := Move(s, step, stallMs).workers[w];
    assert s.workers[w].result == None by { assert WorkerInv(s.workers[w], shards[w], s.stop); }
    UntakenKeeps(s.workers, w, to, s.collector.total);
    SumUpdate(Told(), s.workers, w, to);
    SumUpdate(ToldOpen(), s.workers, w, to);
  }

  lemma {:induction false} Complete(l: Ledger)
    requires Inv(l) && Finished(l)
    ensures l.out.scanned == |l.ports|
  {
    AllCounted(l);
  }

  lemma {:induction false} ReturnInv(s: System, shards: seq<seq<int>>, w: nat, aborted: bool, stallMs: int)
    requires SystemInv(s, shards) && Moves(s, Return(w, aborted))
    ensures SystemInv(Move(s, Return(w, aborted), stallMs), shards)
  {
    hide Inv, Merged, SumOf;
    var to := Move(s, Return(w, aborted), stallMs).workers[w];
    assert WorkerInv(s.workers[w], shards[w], s.stop);
    if !aborted { Complete(s.workers[w].ledger); }
    UntakenKeeps(s.workers, w, to, s.collector.total);
    SumUpdate(Told(), s.workers, w, to);
    SumUpdate(ToldOpen(), s.workers, w, to);
  }

  lemma {:induction false} CollectMerges(workers: seq<Worker>, w: nat, to: Worker, total: WorkerResult)
    requires w < |workers| && !workers[w].taken && workers[w].result.Some? && to == workers[w].(taken := true)
    requires Merged(workers, total)
    ensures Merged(workers[w := to], Merge(total, to.result.value))
    ensures SumOf(TakenOne(), workers[w := to]) == SumOf(TakenOne(), workers) + 1
  {
    hide SumOf;
    var r := to.result.value;
    SumUpdate(TakenOne(), workers, w, to);
    forall f | Additive(f) ensures f(Merge(total, r)) == SumOf(TakenOf(f), workers[w := to]) {
      SumUpdate(TakenOf(f), workers, w, to);
    }
  }

  lemma {:induction false} CollectInv(s: System, shards: seq<seq<int>>, w: nat, stallMs: int)
    requires SystemInv(s, shards) && Moves(s, Collect(w))
    ensures SystemInv(Move(s, Collect(w), stallMs), shards)
  {
    hide Inv, Merged, SumOf;
    var to := s.workers[w].(taken := true);
    assert WorkerInv(s.workers[w], shards[w], s.stop);
    CollectMerges(s.workers, w, to, s.collector.total);
    SumUpdate(Told(), s.workers, w, to);
    SumUpdate(ToldOpen(), s.workers, w, to);
  }

  lemma {:induction false} OtherInv(s: System, shards: seq<seq<int>>, step: Step, stallMs: int)
    requires SystemInv(s, shards) && Moves(s, step) && (step.Load? || step.Judge? || step.Tick? || step.Quit?)
    ensures SystemInv(Move(s, step, stallMs), shards)
  {
    hide Inv, Merged, SumOf, WorkerInv;
    forall w | 0 <= w < |shards| ensures WorkerInv(s.workers[w], shards[w], true) {
      StopKeeps(s.workers[w], shards[w], s.stop);
    }
  }

  /** What every step of every thread keeps. */
  lemma {:induction false} MoveInv(s: System, shards: seq<seq<int>>, step: Step, stallMs: int)
    requires SystemInv(s, shards) && Moves(s, step)
    ensures SystemInv(Move(s, step, stallMs), shards)
    ensures s.stop ==> Move(s, step, stallMs).stop
  {
    hide SystemInv;
    match step
    case Work(w, e) => WorkInv(s, shards, w, e, stallMs);
    case TellScanned(w) => TellInv(s, shards, step, w, stallMs);
    case TellOpen(w) => TellInv(s, shards, step, w, stallMs);
    case Return(w, aborted) => ReturnInv(s, shards, w, aborted, stallMs);
    case Collect(w) => CollectInv(s, shards, w, stallMs);
    case _ => OtherInv(s, shards, step, stallMs);
  }

  /**
    When the watchdog raises the flag, no worker has told of progress between
    the reading of the counter behind lastProgress and the last reading, and
    more than the limit has passed since lastProgress. A worker that has told of
    progress within the limit did so after the last reading.
  */
  lemma {:induction false} WatchdogIsPatient(s: System, shards: seq<seq<int>>, stallMs: int)
    requires SystemInv(s, shards) && !s.stop && Moves(s, Judge) && Move(s, Judge, stallMs).stop
    ensures s.watchdog.toldBefore <= s.watchdog.behindAt <= s.watchdog.seenAt
    ensures s.clock - s.watchdog.lastProgress > stallMs && s.watchdog.behindAt <= s.watchdog.lastProgress
    ensures s.scanned == s.watchdog.seen.value ==> s.clock - s.lastTold > stallMs
    ensures s.scanned != s.watchdog.seen.value ==> s.watchdog.seenAt <= s.lastTold
  { }

  /**
    A watchdog that judges within the limit of its reading is right to raise the
    flag if and only if the counter is still what it read.
  */
  lemma {:induction false} WatchdogIsRight(s: System, shards: seq<seq<int>>, stallMs: int)
    requires SystemInv(s, shards) && !s.stop && Moves(s, Judge) && Move(s, Judge, stallMs).stop
    requires s.clock - s.watchdog.seenAt <= stallMs
    ensures s.clock - s.lastTold > stallMs <==> s.scanned == s.watchdog.seen.value
  {
    WatchdogIsPatient(s, shards, stallMs);
  }

  // -------------------------------------------------------------- whole runs

  ghost predicate Runs(s: System, steps: seq<Step>, stallMs: int)
    decreases |steps|
  {
    steps == [] || (Moves(s, steps[0]) && Runs(Move(s, steps[0], stallMs), steps[1..], stallMs))
  }

  ghost function End(s: System, steps: seq<Step>, stallMs: int): System
    requires Runs(s, steps, stallMs)
    decreases |steps|
  {
    if steps == [] then s else End(Move(s, steps[0], stallMs), steps[1..], stallMs)
  }

  lemma {:induction false} RunInv(s: System, shards: seq<seq<int>>, steps: seq<Step>, stallMs: int)
    requires SystemInv(s, shards) && Runs(s, steps, stallMs)
    ensures SystemInv(End(s, steps, stallMs), shards)
    decreases |steps|
  {
    hide SystemInv, Moves, Move;
    if steps != [] {
      MoveInv(s, shards, steps[0], stallMs);
      RunInv(Move(s, steps[0], stallMs), shards, steps[1..], stallMs);
    }
  }

  // A worker that tells of progress between the watchdog's two readings.
  function Hasty(): seq<Step> { [Tick(9000), Load, Work(0, Settle(Refused)), TellScanned(0), Judge] }

  /** So the flag can go up in the very millisecond in which a worker has told of progress. */
  lemma {:induction false} WatchdogCanBeHasty()
    ensures var start := Launch([[80]], 64, 0);
      && Runs(start, Hasty(), 8000)
      && var s := End(start, Hasty(), 8000); s.stop && s.lastTold == s.clock && s.scanned == 1
  {
    var s0 := Launch([[80]], 64, 0);
    var s1 := Move(s0, Tick(9000), 8000);
    var s2 := Move(s1, Load, 8000);
    var s3 := Move(s2, Work(0, Settle(Refused)), 8000);
    var s4 := Move(s3, TellScanned(0), 8000);
    var s5 := Move(s4, Judge, 8000);
    RunsOne(s4, Judge, [], 8000);
    RunsOne(s3, TellScanned(0), [Judge], 8000);
    RunsOne(s2, Work(0, Settle(Refused)), [TellScanned(0), Judge], 8000);
    RunsOne(s1, Load, [Work(0, Settle(Refused)), TellScanned(0), Judge], 8000);
    RunsOne(s0, Tick(9000), [Load, Work(0, Settle(Refused)), TellScanned(0), Judge], 8000);
  }

  // The same, and then a judgement later than the limit.
  function Late(): seq<Step> { [Tick(9000), Load, Work(0, Settle(Refused)), TellScanned(0), Tick(20000), Judge] }

  /** A watchdog that judges later than that can be right although the counter has grown. */
  lemma {:induction false} WatchdogCanBeLate()
    ensures var start := Launch([[80]], 64, 0);
      && Runs(start, Late(), 8000)
      && var s := End(start, Late(), 8000); s.stop && s.clock - s.lastTold > 8000 && s.scanned == 1
  {
    var s0 := Launch([[80]], 64, 0);
    var s1 := Move(s0, Tick(9000), 8000);
    var s2 := Move(s1, Load, 8000);
    var s3 := Move(s2, Work(0, Settle(Refused)), 8000);
    var s4 := Move(s3, TellScanned(0), 8000);
    var s5 := Move(s4, Tick(20000), 8000);
    var s6 := Move(s5, Judge, 8000);
    RunsOne(s5, Judge, [], 8000);
    RunsOne(s4, Tick(20000), [Judge], 8000);
    RunsOne(s3, TellScanned(0), [Tick(20000), Judge], 8000);
    RunsOne(s2, Work(0, Settle(Refused)), [TellScanned(0), Tick(20000), Judge], 8000);
    RunsOne(s1, Load, [Work(0, Settle(Refused)), TellScanned(0), Tick(20000), Judge], 8000);
    RunsOne(s0, Tick(9000), [Load, Work(0, Settle(Refused)), TellScanned(0), Tick(20000), Judge], 8000);
  }

  lemma {:induction false} RunsOne(s: System, step: Step, rest: seq<Step>, stallMs: int)
    requires Moves(s, step) && Runs(Move(s, step, stallMs), rest, stallMs)
    ensures Runs(s, [step] + rest, stallMs)
    ensures End(s, [step] + rest, stallMs) == End(Move(s, step, stallMs), rest, stallMs)
  {
    hide Moves, Move;
    assert ([step] + rest)[1..] == rest;
  }

  // ---------------------------------------------------------- the accounting

  lemma {:induction false} SumOrder(g: Worker -> int, h: Worker -> int, workers: seq<Worker>)
    requires forall w :: 0 <= w < |workers| ==> g(workers[w]) <= h(workers[w])
    ensures SumOf(g, workers) <= SumOf(h, workers)
    ensures SumOf(g, workers) == SumOf(h, workers) ==> forall w :: 0 <= w < |workers| ==> g(workers[w]) == h(workers[w])
    decreases |workers|
  {
    if workers != [] { SumOrder(g, h, workers[..|workers| - 1]); }
  }

  lemma {:induction false} SumSame(g: Worker -> int, h: Worker -> int, workers: seq<Worker>)
    requires forall w :: 0 <= w < |workers| ==> g(workers[w]) == h(workers[w])
    ensures SumOf(g, workers) == SumOf(h, workers)
    decreases |workers|
  {
    if workers != [] { SumSame(g, h, workers[..|workers| - 1]); }
  }

  function One(): Worker -> int { (w: Worker) => 1 }

  lemma {:induction false} SumOfOnes(workers: seq<Worker>)
    ensures SumOf(One(), workers) == |workers|
    decreases |workers|
  {
    if workers != [] { SumOfOnes(workers[..|workers| - 1]); }
  }

  /** When as many futures were taken as there are workers, each was taken, and only once. */
  lemma {:induction false} AllTaken(workers: seq<Worker>)
    requires SumOf(TakenOne(), workers) == |workers|
    ensures forall w :: 0 <= w < |workers| ==> workers[w].taken
  {
    SumOfOnes(workers);
    SumOrder(TakenOne(), One(), workers);
    forall w | 0 <= w < |workers| ensures workers[w].taken { assert TakenOne()(workers[w]) == One()(workers[w]); }
  }

  lemma {:induction false} OpenPortsConcat(a: seq<TcpOpen>, b: seq<TcpOpen>)
    ensures OpenPorts(a + b) == OpenPorts(a) + OpenPorts(b)
    decreases |b|
  {
    if b == [] {
      assert a + b == a;
    } else {
      assert (a + b)[..|a + b| - 1] == a + b[..|b| - 1];
      OpenPortsConcat(a, b[..|b| - 1]);
    }
  }

  function ScannedOf(): WorkerResult -> int { (r: WorkerResult) => r.scanned }

  function OpenOf(): WorkerResult -> int { (r: WorkerResult) => |r.open| }

  function Imbalance(): WorkerResult -> int {
    (r: WorkerResult) => |r.open| + r.timeouts + r.refused + r.other - r.scanned
  }

  function CountOf(port: int): WorkerResult -> int { (r: WorkerResult) => OpenPorts(r.open)[port] }

  lemma {:induction false} Additives(port: int)
    ensures Additive(ScannedOf()) && Additive(OpenOf()) && Additive(Imbalance()) && Additive(CountOf(port))
  {
    hide OpenPorts;
    assert OpenPorts([]) == multiset{} by { EmptyOpen(); }
    forall a: WorkerResult, b: WorkerResult ensures CountOf(port)(Merge(a, b)) == CountOf(port)(a) + CountOf(port)(b) {
      OpenPortsConcat(a.open, b.open);
    }
  }

  lemma {:induction false} EmptyOpen()
    ensures OpenPorts([]) == multiset{}
  { }

  function TimeoutsOf(): WorkerResult -> int { (r: WorkerResult) => r.timeouts }

  function RefusedOf(): WorkerResult -> int { (r: WorkerResult) => r.refused }

  function OtherOf(): WorkerResult -> int { (r: WorkerResult) => r.other }

  /** At every moment each counter of the total is the sum of that counter over the futures taken so far. */
  lemma {:induction false} EachCounterAdds(s: System, shards: seq<seq<int>>, port: int)
    requires SystemInv(s, shards)
    ensures var total := s.collector.total;
      && total.scanned == SumOf(TakenOf(ScannedOf()), s.workers) && |total.open| == SumOf(TakenOf(OpenOf()), s.workers)
      && total.timeouts == SumOf(TakenOf(TimeoutsOf()), s.workers)
      && total.refused == SumOf(TakenOf(RefusedOf()), s.workers)
      && total.other == SumOf(TakenOf(OtherOf()), s.workers)
      && OpenPorts(total.open)[port] == SumOf(TakenOf(CountOf(port)), s.workers)
  {
    hide SumOf, TakenOf, OpenPorts, WorkerInv;
    var total := s.collector.total;
    Additives(port);
    assert Additive(TimeoutsOf()) && Additive(RefusedOf()) && Additive(OtherOf());
    assert ScannedOf()(total) == total.scanned && OpenOf()(total) == |total.open|
      && CountOf(port)(total) == OpenPorts(total.open)[port];
    assert TimeoutsOf()(total) == total.timeouts && RefusedOf()(total) == total.refused
      && OtherOf()(total) == total.other;
  }

  function PortCount(): Worker -> int { (w: Worker) => |w.ledger.ports| }

  function PortHits(port: int): Worker -> int { (w: Worker) => multiset(w.ledger.ports)[port] }

  lemma {:induction false} FlattenSums(workers: seq<Worker>, shards: seq<seq<int>>, port: int)
    requires |workers| == |shards| && forall w :: 0 <= w < |shards| ==> workers[w].ledger.ports == shards[w]
    ensures SumOf(PortCount(), workers) == |Flatten(shards)|
    ensures SumOf(PortHits(port), workers) == multiset(Flatten(shards))[port]
    decreases |shards|
  {
    if shards != [] {
      FlattenSums(workers[..|workers| - 1], shards[..|shards| - 1], port);
    }
  }

  // A worker's result, once returned, against its shard.
  lemma {:induction false} ResultFacts(w: Worker, shard: seq<int>, stop: bool, port: int)
    requires WorkerInv(w, shard, stop) && w.result.Some? && w.taken
    ensures TakenOf(Imbalance())(w) == 0
    ensures TakenOf(ScannedOf())(w) <= PortCount()(w)
      && (!w.result.value.aborted ==> TakenOf(ScannedOf())(w) == PortCount()(w))
    ensures TakenOf(CountOf(port))(w) <= PortHits(port)(w)
    ensures TakenOf(ScannedOf())(w) == Told()(w) && TakenOf(OpenOf())(w) == ToldOpen()(w)
  {
    hide OpenPorts, Conserved;
    StartedPorts(w.ledger);
  }

  /** What the collector's total comes to, for one port, when it has taken every future. */
  lemma {:induction false} TotalFacts(s: System, shards: seq<seq<int>>, port: int)
    requires SystemInv(s, shards) && s.collector.done == |s.workers|
    ensures Sums(s.collector.total)
    ensures s.collector.total.scanned <= |Flatten(shards)|
    ensures if s.collector.total.aborted then s.stop else s.collector.total.scanned == |Flatten(shards)|
    ensures OpenPorts(s.collector.total.open)[port] <= multiset(Flatten(shards))[port]
    ensures s.scanned == s.collector.total.scanned && s.open == |s.collector.total.open|
  {
    hide SumOf, Additive, TakenOf, PortCount, PortHits, Told, ToldOpen, TakenOne, Inv, OpenPorts, Flatten;
    var ws, total := s.workers, s.collector.total;
    AllTaken(ws);
    Additives(port);
    forall w | 0 <= w < |ws| ensures ws[w].result.Some? && ws[w].ledger.ports == shards[w] {
      assert WorkerInv(ws[w], shards[w], s.stop);
    }
    FlattenSums(ws, shards, port);
    AllFacts(s, shards, port);
    SumZero(TakenOf(Imbalance()), ws);
    SumOrder(TakenOf(ScannedOf()), PortCount(), ws);
    SumOrder(TakenOf(CountOf(port)), PortHits(port), ws);
    SumSame(TakenOf(ScannedOf()), Told(), ws);
    SumSame(TakenOf(OpenOf()), ToldOpen(), ws);
    if !total.aborted { SumSame(TakenOf(ScannedOf()), PortCount(), ws); }
    assert Imbalance()(total) == 0 && ScannedOf()(total) == s.scanned && OpenOf()(total) == s.open;
    assert CountOf(port)(total) == OpenPorts(total.open)[port];
  }

  lemma {:induction false} AllFacts(s: System, shards: seq<seq<int>>, port: int)
    requires SystemInv(s, shards) && forall w :: 0 <= w < |s.workers| ==>
      s.workers[w].taken && s.workers[w].result.Some?
    ensures forall w :: 0 <= w < |s.workers| ==> TakenOf(Imbalance())(s.workers[w]) == 0
    ensures forall w :: 0 <= w < |s.workers| ==> TakenOf(ScannedOf())(s.workers[w]) <= PortCount()(s.workers[w])
    ensures !s.collector.total.aborted ==>
      forall w :: 0 <= w < |s.workers| ==> TakenOf(ScannedOf())(s.workers[w]) == PortCount()(s.workers[w])
    ensures forall w :: 0 <= w < |s.workers| ==> TakenOf(CountOf(port))(s.workers[w]) <= PortHits(port)(s.workers[w])
    ensures forall w :: 0 <= w < |s.workers| ==> TakenOf(ScannedOf())(s.workers[w]) == Told()(s.workers[w])
    ensures forall w :: 0 <= w < |s.workers| ==> TakenOf(OpenOf())(s.workers[w]) == ToldOpen()(s.workers[w])
  {
    hide SumOf, Additive, TakenOf, PortCount, PortHits, Told, ToldOpen, TakenOne, WorkerInv, OpenPorts;
    forall w | 0 <= w < |s.workers|
      ensures TakenOf(Imbalance())(s.workers[w]) == 0
      ensures TakenOf(ScannedOf())(s.workers[w]) <= PortCount()(s.workers[w])
      ensures !s.collector.total.aborted ==> TakenOf(ScannedOf())(s.workers[w]) == PortCount()(s.workers[w])
      ensures TakenOf(CountOf(port))(s.workers[w]) <= PortHits(port)(s.workers[w])
      ensures TakenOf(ScannedOf())(s.workers[w]) == Told()(s.workers[w])
      ensures TakenOf(OpenOf())(s.workers[w]) == ToldOpen()(s.workers[w])
    {
      ResultFacts(s.workers[w], shards[w], s.stop, port);
    }
  }

  /** The total over shards that were dealt from the ports. */
  lemma {:induction false} TotalOver(s: System, ports: seq<int>, workers: nat)
    requires workers > 0 && SystemInv(s, Dealt(ports, workers)) && s.collector.done == |s.workers|
    ensures var total := s.collector.total;
      && Sums(total) && total.scanned <= |ports|
      && (if total.aborted then s.stop else total.scanned == |ports|)
      && OpenPorts(total.open) <= multiset(ports)
      && s.scanned == total.scanned && s.open == |total.open|
  {
    hide SystemInv, OpenPorts, Flatten, Dealt, Sums;
    var shards := Dealt(ports, workers);
    Partition(ports, workers);
    SizeOfSame(Flatten(shards), ports);
    forall port ensures OpenPorts(s.collector.total.open)[port] <= multiset(ports)[port] {
      TotalFacts(s, shards, port);
    }
    TotalFacts(s, shards, 0);
  }

  /**
    Whatever the interleaving of workers, collector, watchdog and user: when the
    collector has every future, the four counters add up to the ports scanned,
    those are all of them unless the scan was stopped, the open ports are among
    those asked for, and the progress counters agree.
  */
  lemma {:induction false} ScanAccounts(
      ports: seq<int>, workers: nat, inflight: nat, clock: int, steps: seq<Step>, stallMs: int)
    requires workers > 0 && Runs(Launch(Dealt(ports, workers), inflight, clock), steps, stallMs)
    requires End(Launch(Dealt(ports, workers), inflight, clock), steps, stallMs).collector.done == workers
    ensures var s := End(Launch(Dealt(ports, workers), inflight, clock), steps, stallMs);
      var total := s.collector.total;
      && Sums(total) && total.scanned <= |ports|
      && (if total.aborted then s.stop else total.scanned == |ports|)
      && OpenPorts(total.open) <= multiset(ports)
      && s.scanned == total.scanned && s.open == |total.open|
  {
    hide Runs, End, SystemInv, OpenPorts, Dealt, Sums;
    var shards := Dealt(ports, workers);
    var start := Launch(shards, inflight, clock);
    LaunchInv(shards, inflight, clock);
    RunInv(start, shards, steps, stallMs);
    SameSize(End(start, steps, stallMs), shards);
    TotalOver(End(start, steps, stallMs), ports, workers);
  }

  lemma {:induction false} SameSize(s: System, shards: seq<seq<int>>)
    requires SystemInv(s, shards)
    ensures |s.workers| == |shards|
  { }

  lemma {:induction false} SizeOfSame(a: seq<int>, b: seq<int>)
    requires multiset(a) == multiset(b)
    ensures |a| == |b|
  {
    assert |multiset(a)| == |a| && |multiset(b)| == |b|;
  }
}
