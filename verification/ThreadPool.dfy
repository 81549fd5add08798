/**
  ThreadPool of tcp_async_scan.cpp. Each method below is one atomic step of one
  thread: the lock makes the queue operations atomic, and a task runs outside
  the lock. Any interleaving of the threads is a sequence of such steps.
*/
module ThreadPool {
  datatype Worker = Idle | Running(task: int) | Exited

  datatype Pool = Pool(
    queue: seq<int>,
    workers: seq<Worker>,
    // Whose stop was requested: the destructor stops and joins one worker at a time.
    stopped: seq<bool>,
    closing: bool,
    // History: what was enqueued, what was started, what has finished.
    enqueued: seq<int>,
    started: seq<int>,
    finished: multiset<int>)

  datatype Step =
    | Enqueue(task: int)
    | Take(w: nat)
    | Finish(w: nat)
    | Close
    | Stop(w: nat)
    | Exit(w: nat)

  function Start(workerCount: nat): Pool {
    Pool([], seq(workerCount, i => Idle), seq(workerCount, i => false), false, [], [], multiset{})
  }

  // Whether every worker whose stop was requested has been joined.
  predicate Joined(workers: seq<Worker>, stopped: seq<bool>)
    requires |workers| == |stopped|
  {
    forall w :: 0 <= w < |workers| && stopped[w] ==> workers[w] == Exited
  }

  predicate Enabled(p: Pool, s: Step)
    requires |p.workers| == |p.stopped|
  {
    match s
    case Enqueue(_) => !p.closing
    case Take(w) => w < |p.workers| && p.workers[w] == Idle && p.queue != []
    case Finish(w) => w < |p.workers| && p.workers[w].Running?
    case Close => !p.closing
    case Stop(w) => w < |p.workers| && p.closing && !p.stopped[w] && Joined(p.workers, p.stopped)
    case Exit(w) => w < |p.workers| && p.workers[w] == Idle && p.stopped[w] && p.queue == []
  }

  function Do(p: Pool, s: Step): (q: Pool)
    requires |p.workers| == |p.stopped| && Enabled(p, s)
    ensures |q.workers| == |q.stopped| == |p.workers|
  {
    match s
    case Enqueue(task) => p.(queue := p.queue + [task], enqueued := p.enqueued + [task])
    case Take(w) =>
      p.(queue := p.queue[1..], workers := p.workers[w := Running(p.queue[0])], started := p.started + [p.queue[0]])
    case Finish(w) => p.(workers := p.workers[w := Idle], finished := p.finished + multiset{p.workers[w].task})
    case Close => p.(closing := true)
    case Stop(w) => p.(stopped := p.stopped[w := true])
    case Exit(w) => p.(workers := p.workers[w := Exited])
  }

  function InHand(workers: seq<Worker>): multiset<int> {
    if workers == [] then multiset{}
    else InHand(workers[..|workers| - 1]) + Held(workers[|workers| - 1])
  }

  function Held(w: Worker): multiset<int> { if w.Running? then multiset{w.task} else multiset{} }

  /** Tasks start in the order they came; each is queued, in hand or finished, as often as it was enqueued. */
  ghost predicate Inv(p: Pool) {
    && |p.workers| == |p.stopped|
    && p.enqueued == p.started + p.queue
    && Balanced(p.started, p.finished, p.workers)
    && (forall w :: 0 <= w < |p.workers| && p.workers[w] == Exited ==> p.stopped[w] && p.closing && p.queue == [])
    && (forall w :: 0 <= w < |p.workers| && p.stopped[w] ==> p.closing)
  }

  // What was started is finished or in hand.
  ghost predicate Balanced(started: seq<int>, finished: multiset<int>, workers: seq<Worker>) {
    multiset(started) == finished + InHand(workers)
  }

  lemma {:induction false} InHandUpdate(workers: seq<Worker>, w: nat, to: Worker)
    requires w < |workers|
    ensures InHand(workers[w := to]) + Held(workers[w]) == InHand(workers) + Held(to)
    decreases |workers|
  {
    hide InHand, Held;
    var n := |workers| - 1;
    InHandLast(workers);
    InHandLast(workers[w := to]);
    if w < n {
      assert workers[w := to][..n] == workers[..n][w := to];
      InHandUpdate(workers[..n], w, to);
      Shuffle(InHand(workers[..n][w := to]), Held(workers[w]), InHand(workers[..n]), Held(to), Held(workers[n]));
    } else {
      assert workers[w := to][..n] == workers[..n];
      Across(InHand(workers[..n]), Held(to), Held(workers[w]));
    }
  }

  lemma {:induction false} InHandLast(workers: seq<Worker>)
    requires workers != []
    ensures InHand(workers) == InHand(workers[..|workers| - 1]) + Held(workers[|workers| - 1])
  { }

  lemma {:induction false} Across<T>(a: multiset<T>, b: multiset<T>, c: multiset<T>)
    ensures a + b + c == a + c + b
  { }

  lemma {:induction false} Shuffle<T>(a: multiset<T>, b: multiset<T>, c: multiset<T>, d: multiset<T>, e: multiset<T>)
    requires a + b == c + d
    ensures a + e + b == c + e + d
  {
    assert a + e + b == (a + b) + e;
    assert c + e + d == (c + d) + e;
  }

  lemma {:induction false} TakeOff<T>(a: multiset<T>, b: multiset<T>, c: multiset<T>)
    requires a + multiset{} == b + c
    ensures a == b + c
  {
    assert a + multiset{} == a;
  }

  lemma {:induction false} StartInv(workerCount: nat)
    ensures Inv(Start(workerCount))
  {
    NoneInHand(workerCount);
  }

  lemma {:induction false} NoneInHand(n: nat)
    ensures InHand(seq(n, i => Idle)) == multiset{}
  {
    if n > 0 {
      NoneInHand(n - 1);
      assert seq(n, i => Idle)[..n - 1] == seq(n - 1, i => Idle);
    }
  }

  lemma {:induction false} TakeBalanced(
      started: seq<int>, finished: multiset<int>, workers: seq<Worker>, w: nat, task: int)
    requires Balanced(started, finished, workers) && w < |workers| && workers[w] == Idle
    ensures Balanced(started + [task], finished, workers[w := Running(task)])
  {
    hide InHand;
    InHandUpdate(workers, w, Running(task));
    TakeOff(InHand(workers[w := Running(task)]), InHand(workers), multiset{task});
    assert multiset(started + [task]) == multiset(started) + multiset{task};
  }

  lemma {:induction false} FinishBalanced(started: seq<int>, finished: multiset<int>, workers: seq<Worker>, w: nat)
    requires Balanced(started, finished, workers) && w < |workers| && workers[w].Running?
    ensures Balanced(started, finished + multiset{workers[w].task}, workers[w := Idle])
  {
    hide InHand;
    InHandUpdate(workers, w, Idle);
    var held := multiset{workers[w].task};
    TakeOff(InHand(workers), InHand(workers[w := Idle]), held);
    assert finished + InHand(workers) == (finished + held) + InHand(workers[w := Idle]);
  }

  lemma {:induction false} ExitBalanced(started: seq<int>, finished: multiset<int>, workers: seq<Worker>, w: nat)
    requires Balanced(started, finished, workers) && w < |workers| && workers[w] == Idle
    ensures Balanced(started, finished, workers[w := Exited])
  {
    hide InHand;
    InHandUpdate(workers, w, Exited);
    TakeOff(InHand(workers[w := Exited]), InHand(workers), multiset{});
  }

  lemma {:induction false} StepInv(p: Pool, s: Step)
    requires Inv(p) && Enabled(p, s)
    ensures Inv(Do(p, s))
  {
    hide Balanced, Joined;
    match s
    case Enqueue(task) =>
    case Take(w) =>
      TakeBalanced(p.started, p.finished, p.workers, w, p.queue[0]);
      assert p.queue == [p.queue[0]] + p.queue[1..];
    case Finish(w) => FinishBalanced(p.started, p.finished, p.workers, w);
    case Close =>
    case Stop(w) =>
    case Exit(w) => ExitBalanced(p.started, p.finished, p.workers, w);
  }

  // ------------------------------------------------------------ whole runs

  ghost predicate Runs(p: Pool, steps: seq<Step>)
    requires |p.workers| == |p.stopped|
    decreases |steps|
  {
    steps == [] || (Enabled(p, steps[0]) && Runs(Do(p, steps[0]), steps[1..]))
  }

  ghost function End(p: Pool, steps: seq<Step>): (q: Pool)
    requires |p.workers| == |p.stopped| && Runs(p, steps)
    ensures |q.workers| == |q.stopped| == |p.workers|
    decreases |steps|
  {
    if steps == [] then p else End(Do(p, steps[0]), steps[1..])
  }

  lemma {:induction false} RunInv(p: Pool, steps: seq<Step>)
    requires Inv(p) && Runs(p, steps)
    ensures Inv(End(p, steps))
    decreases |steps|
  {
    hide Inv, Enabled, Do;
    if steps != [] {
      SameLengths(p);
      StepInv(p, steps[0]);
      RunInv(Do(p, steps[0]), steps[1..]);
    }
  }

  predicate Destroyed(p: Pool) { p.closing && forall w :: 0 <= w < |p.workers| ==> p.workers[w] == Exited }

  lemma {:induction false} NothingInHand(workers: seq<Worker>)
    requires forall w :: 0 <= w < |workers| ==> !workers[w].Running?
    ensures InHand(workers) == multiset{}
    decreases |workers|
  {
    if workers != [] { NothingInHand(workers[..|workers| - 1]); }
  }

  /**
    Once the pool is destroyed, every enqueued task has run exactly once, and
    they started in order, if and only if it had a worker or no task.
  */
  lemma {:induction false} AllRanOnce(workerCount: nat, steps: seq<Step>)
    requires Runs(Start(workerCount), steps) && Destroyed(End(Start(workerCount), steps))
    ensures var p := End(Start(workerCount), steps);
      && (p.finished == multiset(p.enqueued) <==> workerCount > 0 || p.enqueued == [])
      && (workerCount > 0 ==> p.started == p.enqueued && p.queue == [])
  {
    hide Runs, Do, Enabled;
    var p := End(Start(workerCount), steps);
    StartInv(workerCount);
    RunInv(Start(workerCount), steps);
    NothingInHand(p.workers);
    assert workerCount > 0 ==> p.workers[0] == Exited;
    if workerCount == 0 { NoneStarted(steps); }
  }

  lemma {:induction false} NoneStarted(steps: seq<Step>)
    requires Runs(Start(0), steps)
    ensures End(Start(0), steps).finished == multiset{}
  {
    NeverFinishes(Start(0), steps);
  }

  lemma {:induction false} NeverFinishes(p: Pool, steps: seq<Step>)
    requires p.workers == [] && p.stopped == [] && Runs(p, steps)
    ensures End(p, steps).finished == p.finished
    decreases |steps|
  {
    if steps != [] { NeverFinishes(Do(p, steps[0]), steps[1..]); }
  }

  // ------------------------------------------------- destruction completes

  // The steps a worker may still take, besides those for queued tasks.
  function Ahead(w: Worker, stopped: bool): nat {
    (if stopped then 0 else 1) + match w
      case Idle => 1
      case Running(_) => 2
      case Exited => 0
  }

  function AllAhead(workers: seq<Worker>, stopped: seq<bool>): nat
    requires |workers| == |stopped|
    decreases |workers|
  {
    if workers == [] then 0
    else
      var n := |workers| - 1;
      AllAhead(workers[..n], stopped[..n]) + Ahead(workers[n], stopped[n])
  }

  function Remaining(p: Pool): nat
    requires |p.workers| == |p.stopped|
  {
    2 * |p.queue| + AllAhead(p.workers, p.stopped)
  }

  lemma {:induction false} AheadUpdate(workers: seq<Worker>, stopped: seq<bool>, w: nat, to: Worker, stop: bool)
    requires w < |workers| == |stopped|
    ensures AllAhead(workers[w := to], stopped[w := stop]) + Ahead(workers[w], stopped[w])
      == AllAhead(workers, stopped) + Ahead(to, stop)
    decreases |workers|
  {
    hide Ahead;
    var n := |workers| - 1;
    if w < n {
      assert workers[w := to][..n] == workers[..n][w := to];
      assert stopped[w := stop][..n] == stopped[..n][w := stop];
      AheadUpdate(workers[..n], stopped[..n], w, to, stop);
    } else {
      assert workers[w := to][..n] == workers[..n];
      assert stopped[w := stop][..n] == stopped[..n];
    }
  }

  lemma {:induction false} StepShrinks(p: Pool, s: Step)
    requires Inv(p) && p.closing && Enabled(p, s)
    ensures Do(p, s).closing && Remaining(Do(p, s)) == Remaining(p) - 1
  {
    hide InHand, Joined, AllAhead;
    match s
    case Take(w) =>
      AheadUpdate(p.workers, p.stopped, w, Running(p.queue[0]), p.stopped[w]);
      assert p.stopped[w := p.stopped[w]] == p.stopped;
    case Finish(w) =>
      AheadUpdate(p.workers, p.stopped, w, Idle, p.stopped[w]);
      assert p.stopped[w := p.stopped[w]] == p.stopped;
    case Stop(w) =>
      AheadUpdate(p.workers, p.stopped, w, p.workers[w], true);
      assert p.workers[w := p.workers[w]] == p.workers;
    case Exit(w) =>
      AheadUpdate(p.workers, p.stopped, w, Exited, p.stopped[w]);
      assert p.stopped[w := p.stopped[w]] == p.stopped;
  }

  /** Once destruction has begun, no interleaving goes on for longer than this. */
  lemma {:induction false} DestructionEnds(p: Pool, steps: seq<Step>)
    requires Inv(p) && p.closing && Runs(p, steps)
    ensures |steps| <= Remaining(p)
    decreases |steps|
  {
    hide Inv, Enabled, Do, Remaining;
    if steps != [] {
      SameLengths(p);
      StepShrinks(p, steps[0]);
      StepInv(p, steps[0]);
      DestructionEnds(Do(p, steps[0]), steps[1..]);
    }
  }

  /** And it never gets stuck: until the pool is destroyed, some thread can move. */
  lemma {:induction false} DestructionMoves(p: Pool) returns (s: Step)
    requires Inv(p) && p.closing && !Destroyed(p)
    ensures Enabled(p, s)
  {
    var w :| 0 <= w < |p.workers| && p.workers[w] != Exited;
    if p.workers[w].Running? {
      s := Finish(w);
    } else if p.queue != [] {
      s := Take(w);
    } else if Joined(p.workers, p.stopped) {
      s := Stop(w);
    } else {
      var v :| 0 <= v < |p.workers| && p.stopped[v] && p.workers[v] != Exited;
      s := if p.workers[v].Running? then Finish(v) else Exit(v);
    }
  }

  class Threads {
    var queue: seq<int>
    var workers: seq<Worker>
    var stopped: seq<bool>
    var closing: bool
    ghost var enqueued: seq<int>
    ghost var started: seq<int>
    ghost var finished: multiset<int>

    constructor (workerCount: nat)
      ensures Valid() && State() == Start(workerCount)
    {
      queue, closing, enqueued, started, finished := [], false, [], [], multiset{};
      workers, stopped := seq(workerCount, i => Idle), seq(workerCount, i => false);
      new;
      StartInv(workerCount);
    }

    ghost function State(): Pool
      reads this
    {
      Pool(queue, workers, stopped, closing, enqueued, started, finished)
    }

    ghost predicate Valid()
      reads this
    {
      Inv(State())
    }

    // Under the lock, at the back.
    method Add(task: int)
      requires Valid() && !closing
      modifies this
      ensures Valid() && State() == Do(old(State()), Enqueue(task))
    {
      hide InHand, Joined;
      StepInv(State(), Enqueue(task));
      queue, enqueued := queue + [task], enqueued + [task];
    }

    /**
      What a worker does under the lock, once its wait is over: with a task
      queued it takes the first, stopped or not; otherwise it was stopped, and exits.
    */
    method Wake(w: nat) returns (ok: bool, task: int)
      requires Valid() && w < |workers| && workers[w] == Idle && (queue != [] || stopped[w])
      modifies this
      ensures ok <==> old(queue) != []
      ensures ok ==> task == old(queue)[0]
      ensures Valid() && State() == Do(old(State()), if ok then Take(w) else Exit(w))
    {
      hide InHand, Joined, Inv;
      SameLengths(State());
      if queue == [] {
        StepInv(State(), Exit(w));
        workers := workers[w := Exited];
        return false, 0;
      }
      StepInv(State(), Take(w));
      ok, task := true, queue[0];
      workers, queue, started := workers[w := Running(task)], queue[1..], started + [task];
    }

    // A running task returns.
    method Return(w: nat)
      requires Valid() && w < |workers| && workers[w].Running?
      modifies this
      ensures Valid() && State() == Do(old(State()), Finish(w))
    {
      hide InHand, Joined, Inv;
      SameLengths(State());
      StepInv(State(), Finish(w));
      workers, finished := workers[w := Idle], finished + multiset{workers[w].task};
    }

    // The destructor begins; its loop requests the stop of one worker and joins it.
    method Destroy()
      requires Valid() && !closing
      modifies this
      ensures Valid() && State() == Do(old(State()), Close)
    {
      hide InHand, Joined, Inv;
      SameLengths(State());
      StepInv(State(), Close);
      closing := true;
    }

    method RequestStop(w: nat)
      requires Valid() && w < |workers| && closing && !stopped[w] && Joined(workers, stopped)
      modifies this
      ensures Valid() && State() == Do(old(State()), Stop(w))
    {
      hide InHand, Joined, Inv;
      SameLengths(State());
      StepInv(State(), Stop(w));
      stopped := stopped[w := true];
    }
  }

  lemma {:induction false} SameLengths(p: Pool)
    requires Inv(p)
    ensures |p.workers| == |p.stopped|
  { }
}
