/** scan_connect_worker_epoll of tcp_async_scan.cpp. */
module EpollWorker {
  import opened InFlight
  import opened Kernel
  import opened ScanBooks
  import opened ScanLedger

  function Classified(e: SocketError, ms: int): Verdict {
    match e
    case NoError => Connected(ms)
    case RefusedError => Refused
    case OtherError => Failed
  }

  // What launching one port at tick `t` comes to.
  function LaunchEvent(k: Kernel, t: nat, used: set<int>): Event {
    var s := k.socket(t, used);
    if s == -1 then Settle(Failed)
    else
      match k.connect(t + 2)
      case Established => Settle(Connected(k.now(t + 3) - k.now(t + 1)))
      case Error(refused) => Settle(if refused then Refused else Failed)
      case InProgress => if k.accept(t + 3) then Launch(s, s, k.now(t + 1)) else Settle(Failed)
  }

  // What a batch of reported descriptors comes to; those that are not active,
  // or come twice, count for nothing.
  function Completions(k: Kernel, t: nat, now: int, active: map<int, Pending>, fds: seq<int>): seq<Event>
    decreases |fds|
  {
    if fds == [] then []
    else if fds[0] !in active then Completions(k, t + 1, now, active, fds[1..])
    else
      [Resolve(fds[0], Classified(k.error(t), now - active[fds[0]].started))]
      + Completions(k, t + 1, now, active - {fds[0]}, fds[1..])
  }

  // The step is what the kernel made of it: a launch, on a limit not reached
  // and a flag not up, is what the calls for the next port gave; a turn is what
  // one epoll_wait on the descriptors in flight reported, by the errors of their
  // sockets, and then the sweep at the clock read after that wait.
  ghost predicate Fits(k: Kernel, timeoutMs: int, l: Ledger, s: Step) {
    if s.turn then
      var fds := k.wait(s.from, l.active.Keys);
      var now := k.now(s.from + 1);
      && s.upto == s.from + 2 + |fds|
      && AnsweredThenSwept(l, s.events, Completions(k, s.from + 2, now, l.active, fds), now, timeoutMs)
    else
      && s.from > 0 && !k.stop(s.from - 1) && s.upto == s.from + 4
      && |l.active| < l.limit && s.events == [LaunchEvent(k, s.from, l.active.Keys)]
  }

  ghost function Why(k: Kernel, timeoutMs: int): (Ledger, Step) -> bool {
    (l: Ledger, s: Step) => Fits(k, timeoutMs, l, s)
  }

  // The steps account for the books up to tick `t`.
  ghost predicate Told(k: Kernel, timeoutMs: int, b: Books, steps: seq<Step>, t: nat)
    reads b
  {
    b.Valid() && Explains(Start(b.ports, b.maxInflight), b.log, steps, Why(k, timeoutMs)) && Ends(steps) <= t
  }

  function Elements(fds: seq<int>): set<int> { set fd | fd in fds }

  // launch_connect, and the step to the next port.
  method LaunchNext(k: Kernel, b: Books, t: nat) returns (u: nat)
    requires b.Valid() && k.Sane() && b.nextIdx < |b.ports| && |b.active| < b.maxInflight
    modifies b
    ensures b.Valid() && u == t + 4
    ensures var e := LaunchEvent(k, t, old(b.active.Keys));
      b.log == old(b.log) + [e] && Enabled(old(b.State()), e) && b.State() == Apply(old(b.State()), e)
  {
    hide Books.Valid, Kernel.Sane, Tally;
    FreshSocket(k, t, b.active.Keys);
    var s := k.socket(t, b.active.Keys);
    if s == -1 {
      b.Finish(Failed);
    } else {
      var started := k.now(t + 1);
      match k.connect(t + 2) {
        case Established => b.Finish(Connected(k.now(t + 3) - started));
        case Error(refused) => b.Finish(if refused then Refused else Failed);
        case InProgress =>
          if k.accept(t + 3) {
            b.Await(s, s, started);
          } else {
            b.Finish(Failed);
          }
      }
    }
    u := t + 4;
  }

  // A launch, and its step.
  method StartPort(k: Kernel, b: Books, t: nat, timeoutMs: int, ghost told: seq<Step>)
    returns (u: nat, ghost steps: seq<Step>)
    requires Told(k, timeoutMs, b, told, t) && k.Sane() && Started(b.active, k.now(t)) && !k.stop(t)
    requires b.nextIdx < |b.ports| && |b.active| < b.maxInflight
    modifies b
    ensures Told(k, timeoutMs, b, steps, u) && Started(b.active, k.now(u)) && t < u
    ensures b.nextIdx == old(b.nextIdx) + 1 && Launched(old(b.log), b.log, 1)
  {
    hide Books.Valid, LaunchEvent, Kernel.Sane, Started, Explains, Why, Fits, Replayable, Replay, Tally;
    ClockMoves(k, t, t + 1);
    StartedLater(b.active, k.now(t), k.now(t + 1));
    ghost var l := b.State();
    LaunchKind(k, t + 1, l);
    LaunchStarted(k, t + 1, l);
    steps := Launching(k, timeoutMs, b, told, t);
    u := LaunchNext(k, b, t + 1);
  }

  // The inner loop: start ports until the limit, the last port or the stop flag.
  // With a limit of 0 it starts none, and the outer loop would spin.
  method LaunchBatch(k: Kernel, b: Books, t: nat, timeoutMs: int, ghost told: seq<Step>)
    returns (u: nat, ghost steps: seq<Step>)
    requires Told(k, timeoutMs, b, told, t)
    requires b.nextIdx <= |b.ports| && k.Sane() && Started(b.active, k.now(t))
    modifies b
    ensures Told(k, timeoutMs, b, steps, u)
    ensures t < u && old(b.nextIdx) <= b.nextIdx <= |b.ports|
    ensures b.nextIdx == old(b.nextIdx) ==> b.active == old(b.active)
    ensures b.nextIdx == |b.ports| || |b.active| >= b.maxInflight || k.stop(u - 1)
    ensures b.maxInflight == 0 ==> b.nextIdx == old(b.nextIdx)
    ensures Launched(old(b.log), b.log, b.nextIdx - old(b.nextIdx))
    ensures Started(b.active, k.now(u))
  {
    hide *;
    u, steps := t, told;
    NoneLaunched(b.log);
    while b.nextIdx < |b.ports| && |b.active| < b.maxInflight && !k.stop(u)
      invariant Told(k, timeoutMs, b, steps, u)
      invariant t <= u && old(b.nextIdx) <= b.nextIdx <= |b.ports|
      invariant b.nextIdx == old(b.nextIdx) ==> b.active == old(b.active)
      invariant b.maxInflight == 0 ==> b.nextIdx == old(b.nextIdx)
      invariant Launched(old(b.log), b.log, b.nextIdx - old(b.nextIdx))
      invariant Started(b.active, k.now(u))
      decreases |b.ports| - b.nextIdx
    {
      ghost var log, started := b.log, b.nextIdx - old(b.nextIdx);
      u, steps := StartPort(k, b, u, timeoutMs, steps);
      OneMoreLaunched(old(b.log), log, b.log, started);
    }
    ToldLater(k, timeoutMs, b, steps, u);
    ClockMoves(k, u, u + 1);
    StartedLater(b.active, k.now(u), k.now(u + 1));
    u := u + 1;
  }

  // The loop over the reported descriptors.
  method HandleEvents(k: Kernel, b: Books, t: nat, fds: seq<int>, now: int) returns (u: nat)
    requires b.Valid()
    modifies b
    ensures b.Valid() && u == t + |fds| && b.nextIdx == old(b.nextIdx)
    ensures b.log == old(b.log) + Completions(k, t, now, old(b.active), fds)
    ensures b.active == old(b.active) - Elements(fds)
  {
    hide Books.Valid, Tally;
    u := t;
    for i := 0 to |fds|
      invariant b.Valid() && u == t + i && b.nextIdx == old(b.nextIdx)
      invariant b.log + Completions(k, u, now, b.active, fds[i..])
        == old(b.log) + Completions(k, t, now, old(b.active), fds)
      invariant b.active == old(b.active) - Elements(fds[..i])
    {
      var s := fds[i];
      assert fds[i..][0] == s && fds[i..][1..] == fds[i + 1..];
      assert Elements(fds[..i + 1]) == Elements(fds[..i]) + {s};
      if s in b.active {
        var se := k.error(u);
        if se == NoError {
          b.Complete(s, Connected(now - b.active[s].started));
        } else if se == RefusedError {
          b.Complete(s, Refused);
        } else {
          b.Complete(s, Failed);
        }
      }
      u := u + 1;
    }
    assert fds[..|fds|] == fds;
  }

  // One turn of the outer loop after the launches: wait, read the clock,
  // settle what came back, expire what is too old.
  method Turn(k: Kernel, b: Books, t: nat, timeoutMs: int) returns (u: nat, now: int)
    requires b.Valid()
    modifies b
    ensures b.Valid() && b.nextIdx == old(b.nextIdx) && now == k.now(t + 1)
    ensures SubMap(b.active, old(b.active)) && Young(b.active, now, timeoutMs)
    ensures var fds := k.wait(t, old(b.active.Keys));
      && u == t + 2 + |fds| && old(b.log) <= b.log
      && AnsweredThenSwept(old(b.State()), b.log[|old(b.log)|..],
           Completions(k, t + 2, now, old(b.active), fds), now, timeoutMs)
  {
    hide Books.Valid, Completions, Elements, SubMap, Young, Swept, Replayable, Replay;
    History(b);
    var fds := k.wait(t, b.active.Keys);
    now := k.now(t + 1);
    u := HandleEvents(k, b, t + 2, fds, now);
    ghost var answers := Completions(k, t + 2, now, old(b.active), fds);
    Since(b, old(b.log), old(b.State()), answers);
    SubMapMinus(old(b.active), Elements(fds));
    ghost var heard, told := b.active, b.log;
    b.ExpireOld(now, timeoutMs);
    SubMapTrans(b.active, heard, old(b.active));
    assert b.log[|old(b.log)|..][|answers|..] == b.log[|told|..];
  }

  /**
    The outer loop. By tick `due` every connection in flight will have been
    swept; the last sweep was at `swept`.
  */
  method Loop(k: Kernel, b: Books, t: nat, timeoutMs: int) returns (u: nat, ghost steps: seq<Step>)
    requires Told(k, timeoutMs, b, [], t)
    requires b.active == map[] && b.nextIdx <= |b.ports|
    requires k.Sane() && k.Advances() && b.maxInflight >= 1
    modifies b
    ensures Told(k, timeoutMs, b, steps, u)
    ensures (b.nextIdx == |b.ports| && b.active == map[]) || k.stop(u)
  {
    hide *;
    u, steps := t, [];
    ghost var due: nat, swept: nat := 0, 0;
    NoneInFlight(b.active, k.now(u), timeoutMs, k.now(due));
    while (b.nextIdx < |b.ports| || b.active != map[]) && !k.stop(u)
      invariant Told(k, timeoutMs, b, steps, u) && b.nextIdx <= |b.ports|
      invariant Started(b.active, k.now(u)) && DueBy(b.active, timeoutMs, k.now(due))
      invariant b.active != map[] ==> swept < due && swept <= u
      decreases !k.stop(u), |b.ports| - b.nextIdx, due - swept
    {
      ghost var next := b.nextIdx;
      ToldLater(k, timeoutMs, b, steps, u);
      ClockMoves(k, u, u + 1);
      StartedLater(b.active, k.now(u), k.now(u + 1));
      u, steps := LaunchBatch(k, b, u + 1, timeoutMs, steps);
      StopStays(k, u - 1, u);
      if b.active == map[] {
        NoneInFlight(b.active, k.now(u), timeoutMs, k.now(due));
        continue;
      }
      ghost var launched, from := b.active, u;
      u, steps := NextTurn(k, b, u, timeoutMs, steps);
      swept := from + 1;
      StopStays(k, from - 1, u);
      due := Sweep(k, launched, b.active, from, swept, timeoutMs, due, b.nextIdx != next);
      ClockMoves(k, swept, u);
      StartedLater(b.active, k.now(swept), k.now(u));
    }
  }

  // A turn, and its step.
  method NextTurn(k: Kernel, b: Books, t: nat, timeoutMs: int, ghost told: seq<Step>)
    returns (u: nat, ghost steps: seq<Step>)
    requires Told(k, timeoutMs, b, told, t)
    modifies b
    ensures Told(k, timeoutMs, b, steps, u) && b.nextIdx == old(b.nextIdx) && t + 1 < u
    ensures SubMap(b.active, old(b.active)) && Young(b.active, k.now(t + 1), timeoutMs)
  {
    hide Books.Valid, Explains, AnsweredThenSwept, Completions, SubMap, Young, Replayable, Replay;
    History(b);
    ghost var start := Start(b.ports, b.maxInflight);
    var now;
    u, now := Turn(k, b, t, timeoutMs);
    ghost var s := Step(true, t, u, b.log[|old(b.log)|..]);
    ExplainMore(start, old(b.log), old(b.State()), told, s, b.log, Why(k, timeoutMs));
    steps := told + [s];
  }

  /**
    The worker. Whatever the kernel answers, its result is what a run of ledger
    events makes of the ports, and the run is what the kernel answered, one
    launch or turn after another; it leaves ports unscanned only when stopped.
  */
  method ScanConnectWorker(k: Kernel, ports: seq<int>, timeoutMs: int, maxInflight: nat)
    returns (r: WorkerResult, addedScanned: nat, addedOpen: nat, u: nat, ghost log: seq<Event>, ghost steps: seq<Step>)
    requires k.Sane() && k.Advances() && maxInflight >= 1
    ensures Replayable(Start(ports, maxInflight), log)
    ensures r == Replay(Start(ports, maxInflight), log).out.(aborted := r.aborted)
    ensures r.scanned < |ports| ==> r.aborted
    ensures if ports != [] && k.accept(0)
      then r.aborted == k.stop(u) && Explains(Start(ports, maxInflight), log, steps, Why(k, timeoutMs))
        && Ends(steps) < u
      else !r.aborted && log == GiveUp(|ports|)
    ensures Sums(r) && r.scanned <= |ports| && OpenPorts(r.open) <= multiset(ports)
    ensures addedScanned == r.scanned && addedOpen == |r.open|
  {
    hide Replayable, Replay, Kernel.Sane, Kernel.Advances, OpenPorts, Why;
    assert GiveUp(0) == [];
    var b := new Books(ports, maxInflight);
    u, steps := 0, [];
    if ports != [] {
      u := 1;
      if k.accept(0) {
        u, steps := Loop(k, b, u, timeoutMs);
        StopStays(k, u, u + 1);
        u := u + 1;
      } else {
        b.GiveUpAll();
      }
    }
    Outcome(Start(ports, maxInflight), b.log);
    r, addedScanned, addedOpen, log := b.out, b.addedScanned, b.addedOpen, b.log;
    if ports != [] && k.accept(0) {
      r := r.(aborted := k.stop(u));
    }
    b.active := map[];
  }

  // The step of the next launch.
  lemma {:induction false} Launching(k: Kernel, timeoutMs: int, b: Books, told: seq<Step>, t: nat)
    returns (steps: seq<Step>)
    requires Told(k, timeoutMs, b, told, t) && !k.stop(t) && |b.active| < b.maxInflight
    ensures Explains(
      Start(b.ports, b.maxInflight), b.log + [LaunchEvent(k, t + 1, b.active.Keys)], steps, Why(k, timeoutMs))
    ensures Ends(steps) == t + 5
  {
    hide Books.Valid, LaunchEvent, Explains, Replayable, Replay;
    History(b);
    var e := LaunchEvent(k, t + 1, b.active.Keys);
    var s := Step(false, t + 1, t + 5, [e]);
    assert Fits(k, timeoutMs, b.State(), s);
    ExplainMore(Start(b.ports, b.maxInflight), b.log, b.State(), told, s, b.log + [e], Why(k, timeoutMs));
    steps := told + [s];
  }

  lemma {:induction false} ToldLater(k: Kernel, timeoutMs: int, b: Books, steps: seq<Step>, t: nat)
    requires Told(k, timeoutMs, b, steps, t)
    ensures Told(k, timeoutMs, b, steps, t + 1)
  { }

  lemma {:induction false} LaunchKind(k: Kernel, t: nat, l: Ledger)
    ensures LaunchEvent(k, t, l.active.Keys).Settle? || LaunchEvent(k, t, l.active.Keys).Launch?
  { }

  lemma {:induction false} LaunchStarted(k: Kernel, t: nat, l: Ledger)
    requires k.Sane() && Started(l.active, k.now(t))
    ensures var e := LaunchEvent(k, t, l.active.Keys); Enabled(l, e) ==> Started(Apply(l, e).active, k.now(t + 4))
  {
    hide Kernel.Sane, Tally;
    ClockMoves(k, t, t + 1);
    ClockMoves(k, t + 1, t + 4);
  }

  /**
    However often it is reported, a descriptor is counted once if it is active and
    reported, and not at all otherwise.
  */
  lemma {:induction false} CountedOnce(k: Kernel, t: nat, now: int, active: map<int, Pending>, fds: seq<int>, fd: int)
    ensures Finishes(Completions(k, t, now, active, fds), fd) == if fd in active && fd in fds then 1 else 0
    decreases |fds|
  {
    if fds != [] {
      var s, rest := fds[0], fds[1..];
      assert fds == [s] + rest;
      if s !in active {
        CountedOnce(k, t + 1, now, active, rest, fd);
      } else {
        var e := Resolve(s, Classified(k.error(t), now - active[s].started));
        CountedOnce(k, t + 1, now, active - {s}, rest, fd);
        FinishesCons(e, Completions(k, t + 1, now, active - {s}, rest), fd);
      }
    }
  }
}
