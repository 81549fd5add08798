/**
  scan_connect_worker_iocp of tcp_async_scan.cpp. Connections carry fresh
  numbers where the code keys them by the address of their OVERLAPPED block.
*/
module IocpWorker {
  import opened InFlight
  import opened Kernel
  import opened ScanBooks
  import opened ScanLedger

  // The sockets of this worker, and the connections given up on whose
  // completions may still arrive.
  class Sockets {
    var open: set<int>
    var retired: map<int, Pending>
    var nextId: nat

    ghost var created: multiset<int>
    ghost var closed: multiset<int>

    constructor ()
      ensures Valid() && open == {} && retired == map[] && nextId == 0 && created == multiset{}
    {
      open, retired, nextId, created, closed := {}, map[], 0, multiset{}, multiset{};
    }

    // Each socket created is open or has been closed, as often as it was created.
    ghost predicate Valid()
      reads this`open, this`created, this`closed
    {
      created == closed + multiset(open)
    }

    method Create(k: Kernel, t: nat) returns (s: int)
      requires Valid() && k.Sane()
      modifies this`open, this`created
      ensures Valid() && s == k.socket(t, old(open))
      ensures s == -1 ==> open == old(open) && created == old(created)
      ensures s != -1 ==> s !in old(open) && open == old(open) + {s} && created == old(created) + multiset{s}
    {
      hide Kernel.Sane;
      FreshSocket(k, t, open);
      s := k.socket(t, open);
      if s != -1 {
        open, created := open + {s}, created + multiset{s};
      }
    }

    // Only an open socket can be closed.
    method Close(s: int)
      requires Valid() && s in open
      modifies this`open, this`closed
      ensures Valid() && open == old(open) - {s} && closed == old(closed) + multiset{s}
    {
      assert multiset(open) == multiset(open - {s}) + multiset{s};
      open, closed := open - {s}, closed + multiset{s};
    }
  }

  /** The open sockets are those in flight, one each, and no connection is both in flight and given up. */
  ghost predicate Tied(active: map<int, Pending>, retired: map<int, Pending>, open: set<int>, n: nat) {
    && (forall key :: key in active ==> key !in retired && 0 <= key < n && active[key].handle in open)
    && (forall key :: key in retired ==> 0 <= key < n)
    && (forall j, key :: j in active && key in active && active[j].handle == active[key].handle ==> j == key)
    && (forall s :: s in open ==> exists key :: key in active && active[key].handle == s)
  }

  ghost predicate Consistent(b: Books, c: Sockets)
    reads b, c
  {
    b.Valid() && c.Valid() && Tied(b.active, c.retired, c.open, c.nextId) && KeysFresh(b.log, c.nextId)
  }

  // The numbers given out are the ports started.
  ghost predicate Sound(b: Books, c: Sockets)
    reads b, c
  {
    Consistent(b, c) && c.nextId == b.nextIdx
  }

  // What launching one port at tick `t` comes to.
  function LaunchEvent(k: Kernel, t: nat, used: set<int>, id: nat): Event {
    if k.socket(t, used) == -1 then Settle(Failed) else ConnectEvent(k, t + 2, k.socket(t, used), k.now(t + 1), id)
  }

  function ConnectEvent(k: Kernel, t: nat, s: int, started: int, id: nat): Event {
    if !k.accept(t) || !k.accept(t + 1) then Settle(Failed)
    else
      match k.connect(t + 2)
      case Established => Settle(Connected(k.now(t + 3) - started))
      case Error(refused) => Settle(if refused then Refused else Failed)
      case InProgress => Launch(id, s, started)
  }

  // What one completion packet comes to: nothing, unless its connection is in flight.
  function Completion(k: Kernel, t: nat, active: map<int, Pending>): seq<Event> {
    var id := k.packet(t);
    if id !in active then []
    else [Resolve(id, Classified(k.accept(t), k.error(t + 1), k.now(t + 2) - active[id].started))]
  }

  function Classified(ok: bool, e: SocketError, ms: int): Verdict {
    if ok && e.NoError? then Connected(ms)
    else if e.RefusedError? then Refused
    else Failed
  }

  function Handles(active: map<int, Pending>): set<int> { set key | key in active :: active[key].handle }

  // The step is what the kernel made of it: a launch, on a limit not reached
  // and a flag not up, is what the calls for the next port gave, the open
  // sockets being those in flight; a turn is one completion packet, by the error
  // of its socket, and then the sweep at the clock read after it.
  ghost predicate Fits(k: Kernel, timeoutMs: int, l: Ledger, s: Step) {
    if s.turn then
      && s.upto == s.from + 4
      && AnsweredThenSwept(l, s.events, Completion(k, s.from, l.active), k.now(s.from + 3), timeoutMs)
    else
      && s.from > 0 && !k.stop(s.from - 1) && s.upto == s.from + 6
      && |l.active| < l.limit && s.events == [LaunchEvent(k, s.from, Handles(l.active), l.next)]
  }

  ghost function Why(k: Kernel, timeoutMs: int): (Ledger, Step) -> bool {
    (l: Ledger, s: Step) => Fits(k, timeoutMs, l, s)
  }

  // The tables agree, and the steps account for the books up to tick `t`.
  ghost predicate Told(k: Kernel, timeoutMs: int, b: Books, c: Sockets, steps: seq<Step>, t: nat)
    reads b, c
  {
    Sound(b, c) && Explains(Start(b.ports, b.maxInflight), b.log, steps, Why(k, timeoutMs)) && Ends(steps) <= t
  }

  // launch_connect, and the step to the next port.
  method LaunchNext(k: Kernel, b: Books, c: Sockets, t: nat) returns (u: nat)
    requires Sound(b, c)
    requires k.Sane() && b.nextIdx < |b.ports| && |b.active| < b.maxInflight
    modifies b, c
    ensures Sound(b, c)
    ensures var e := LaunchEvent(k, t, old(c.open), old(c.nextId));
      b.log == old(b.log) + [e] && Enabled(old(b.State()), e) && b.State() == Apply(old(b.State()), e)
    ensures u == t + 6 && c.retired == old(c.retired) && c.nextId == old(c.nextId) + 1
  {
    hide Books.Valid, Sockets.Valid, Kernel.Sane, Tally, Tied, KeysFresh, ConnectEvent;
    LaunchKind(k, t, c.open, c.nextId);
    LaunchTied(b.active, c.retired, c.open, c.nextId, Pending(-1, 0, 0));
    KeysStayFresh(b.log, LaunchEvent(k, t, c.open, c.nextId), c.nextId);
    ghost var open := c.open;
    var s := c.Create(k, t);
    var started := k.now(t + 1);
    var id := c.nextId;
    c.nextId := c.nextId + 1;
    if s == -1 {
      KeysStayFreshLater(b.log + [Settle(Failed)], id);
      b.Finish(Failed);
    } else {
      assert c.open - {s} == open;
      Connect(k, b, c, t + 2, s, started, id);
    }
    u := t + 6;
  }

  // The rest of launch_connect, on a socket just created.
  method Connect(k: Kernel, b: Books, c: Sockets, t: nat, s: int, started: int, id: nat)
    requires b.Valid() && c.Valid() && s in c.open && Tied(b.active, c.retired, c.open - {s}, id)
      && KeysFresh(b.log, id)
    requires b.nextIdx < |b.ports| && |b.active| < b.maxInflight && c.nextId == id + 1
    modifies b, c`open, c`closed
    ensures Consistent(b, c)
    ensures var e := ConnectEvent(k, t, s, started, id);
      b.log == old(b.log) + [e] && Enabled(old(b.State()), e) && b.State() == Apply(old(b.State()), e)
  {
    hide Books.Valid, Sockets.Valid, Tally, Tied, KeysFresh;
    ghost var e := ConnectEvent(k, t, s, started, id);
    LaunchTied(b.active, c.retired, c.open - {s}, id, Pending(s, b.ports[b.nextIdx], started));
    KeysStayFresh(b.log, e, id);
    KeysStayFreshLater(b.log + [e], id);
    if !k.accept(t) || !k.accept(t + 1) {
      c.Close(s);
      b.Finish(Failed);
    } else {
      match k.connect(t + 2) {
        case Established =>
          c.Close(s);
          b.Finish(Connected(k.now(t + 3) - started));
        case Error(refused) =>
          c.Close(s);
          b.Finish(if refused then Refused else Failed);
        case InProgress =>
          assert c.open - {s} + {s} == c.open;
          b.Await(id, s, started);
      }
    }
  }

  // The inner loop: start ports until the limit, the last port or the stop flag.
  method LaunchBatch(k: Kernel, b: Books, c: Sockets, t: nat, timeoutMs: int, ghost told: seq<Step>)
    returns (u: nat, ghost steps: seq<Step>)
    requires Told(k, timeoutMs, b, c, told, t)
    requires b.nextIdx <= |b.ports| && k.Sane() && Started(b.active, k.now(t))
    modifies b, c
    ensures Told(k, timeoutMs, b, c, steps, u)
    ensures t < u && old(b.nextIdx) <= b.nextIdx <= |b.ports|
    ensures b.nextIdx == old(b.nextIdx) ==> b.active == old(b.active)
    ensures b.nextIdx == |b.ports| || |b.active| >= b.maxInflight || k.stop(u - 1)
    ensures Launched(old(b.log), b.log, b.nextIdx - old(b.nextIdx))
    ensures Started(b.active, k.now(u)) && c.retired == old(c.retired)
  {
    hide Sound, LaunchEvent, Kernel.Sane, Started, Explains, Why, Fits, Handles, Replayable, Replay;
    u, steps := t, told;
    while b.nextIdx < |b.ports| && |b.active| < b.maxInflight && !k.stop(u)
      invariant Told(k, timeoutMs, b, c, steps, u)
      invariant t <= u && old(b.nextIdx) <= b.nextIdx <= |b.ports|
      invariant b.nextIdx == old(b.nextIdx) ==> b.active == old(b.active)
      invariant Launched(old(b.log), b.log, b.nextIdx - old(b.nextIdx))
      invariant Started(b.active, k.now(u)) && c.retired == old(c.retired)
      decreases |b.ports| - b.nextIdx
    {
      ClockMoves(k, u, u + 1);
      StartedLater(b.active, k.now(u), k.now(u + 1));
      LaunchStarted(k, u + 1, b.State(), c.open, c.nextId);
      steps := Launching(k, timeoutMs, b, c, steps, u);
      u := LaunchNext(k, b, c, u + 1);
    }
    ClockMoves(k, u, u + 1);
    StartedLater(b.active, k.now(u), k.now(u + 1));
    u := u + 1;
  }

  /** One completion packet: a connection given up on, or already settled, counts for nothing more. */
  method HandlePacket(k: Kernel, b: Books, c: Sockets, t: nat)
    requires Sound(b, c)
    modifies b, c`open, c`retired, c`closed
    ensures Sound(b, c) && b.nextIdx == old(b.nextIdx)
    ensures b.log == old(b.log) + Completion(k, t, old(b.active))
    ensures b.active == old(b.active) - {k.packet(t)} && c.retired == old(c.retired) - {k.packet(t)}
  {
    hide Books.Valid, Sockets.Valid, Tied, Tally, KeysFresh;
    var id := k.packet(t);
    NoneGone(b.active, c.retired, id);
    if id in b.active {
      TakeOut(b.active, c.retired, c.open, c.nextId, id);
      var done := b.active[id];
      var ok, se := k.accept(t), k.error(t + 1);
      var v;
      if ok && se == NoError {
        v := Connected(k.now(t + 2) - done.started);
      } else if se == RefusedError {
        v := Refused;
      } else {
        v := Failed;
      }
      KeysStayFresh(b.log, Resolve(id, v), c.nextId);
      c.Close(done.handle);
      b.Complete(id, v);
    } else if id in c.retired {
      Forget(b.active, c.retired, c.open, c.nextId, id);
      c.retired := c.retired - {id};
    }
  }

  // The sweep: what is too old is counted, closed and kept as given up.
  method ExpireOld(b: Books, c: Sockets, now: int, timeoutMs: int)
    requires Sound(b, c)
    modifies b, c`open, c`retired, c`closed
    ensures Sound(b, c) && b.nextIdx == old(b.nextIdx)
    ensures SubMap(b.active, old(b.active)) && Young(b.active, now, timeoutMs)
    ensures forall key :: key in old(b.active) && key !in b.active ==> key in c.retired
    ensures |b.log| == |old(b.log)| + (|old(b.active)| - |b.active|) && old(b.log) <= b.log
    ensures Swept(old(b.active), now, timeoutMs, b.log[|old(b.log)|..])
  {
    hide Books.Valid, Sockets.Valid, Tied, KeysFresh;
    var todo := b.active.Keys;
    ghost var swept: seq<Event> := [];
    while exists key :: key in todo
      invariant Sound(b, c) && b.nextIdx == old(b.nextIdx) && b.log == old(b.log) + swept
      invariant todo <= b.active.Keys <= old(b.active.Keys)
      invariant forall key :: key in b.active ==> b.active[key] == old(b.active)[key]
      invariant Sweeping(old(b.active), b.active, todo, now, timeoutMs, swept)
      invariant forall key :: key in old(b.active) && key !in b.active ==> key in c.retired
      invariant |b.log| == |old(b.log)| + (|old(b.active)| - |b.active|)
      decreases todo
    {
      var key :| key in todo;
      todo := todo - {key};
      if now - b.active[key].started >= timeoutMs {
        MapMinusSize(b.active, key);
        KeysStayFresh(b.log, Expire(key), c.nextId);
        Retire(b, c, key);
        b.ExpireOne(key);
        swept := swept + [Expire(key)];
      }
    }
  }

  // Close the socket of a connection that is about to leave those in flight.
  method Retire(b: Books, c: Sockets, key: int)
    requires c.Valid() && key in b.active && Tied(b.active, c.retired, c.open, c.nextId)
    modifies c`open, c`retired, c`closed
    ensures c.Valid() && Tied(b.active - {key}, c.retired, c.open, c.nextId)
    ensures c.retired == old(c.retired)[key := b.active[key]]
  {
    hide Tied, Sockets.Valid;
    TakeOut(b.active, c.retired, c.open, c.nextId, key);
    var done := b.active[key];
    c.Close(done.handle);
    c.retired := c.retired[key := done];
  }

  // One turn of the outer loop after the launches: one packet, then the sweep.
  method Turn(k: Kernel, b: Books, c: Sockets, t: nat, timeoutMs: int) returns (u: nat, now: int)
    requires Sound(b, c)
    modifies b, c`open, c`retired, c`closed
    ensures Sound(b, c) && b.nextIdx == old(b.nextIdx) && u == t + 4 && now == k.now(t + 3)
    ensures SubMap(b.active, old(b.active)) && Young(b.active, now, timeoutMs)
    ensures old(b.log) <= b.log
    ensures AnsweredThenSwept(old(b.State()), b.log[|old(b.log)|..], Completion(k, t, old(b.active)), now, timeoutMs)
  {
    hide Books.Valid, Sockets.Valid, Tied, KeysFresh, Completion, SubMap, Young, Swept, Replayable, Replay;
    History(b);
    HandlePacket(k, b, c, t);
    now := k.now(t + 3);
    ghost var answers := Completion(k, t, old(b.active));
    Since(b, old(b.log), old(b.State()), answers);
    ghost var heard, told := b.active, b.log;
    SubMapMinus(old(b.active), {k.packet(t)});
    ExpireOld(b, c, now, timeoutMs);
    SubMapTrans(b.active, heard, old(b.active));
    assert b.log[|old(b.log)|..][|answers|..] == b.log[|told|..];
    u := t + 4;
  }

  // A turn, and its step.
  method NextTurn(k: Kernel, b: Books, c: Sockets, t: nat, timeoutMs: int, ghost told: seq<Step>)
    returns (u: nat, ghost steps: seq<Step>)
    requires Told(k, timeoutMs, b, c, told, t)
    modifies b, c`open, c`retired, c`closed
    ensures Told(k, timeoutMs, b, c, steps, u) && b.nextIdx == old(b.nextIdx) && u == t + 4
    ensures SubMap(b.active, old(b.active)) && Young(b.active, k.now(t + 3), timeoutMs)
  {
    hide Books.Valid, Sockets.Valid, Tied, KeysFresh, Explains, AnsweredThenSwept, Completion, SubMap, Young,
      Replayable, Replay;
    History(b);
    var now;
    u, now := Turn(k, b, c, t, timeoutMs);
    ghost var s := Step(true, t, u, b.log[|old(b.log)|..]);
    ExplainMore(Start(b.ports, b.maxInflight), old(b.log), old(b.State()), told, s, b.log, Why(k, timeoutMs));
    steps := told + [s];
  }

  // One turn of the outer loop, launches first. By tick `due` every connection
  // in flight will have been swept, this time at `swept`.
  method Round(k: Kernel, b: Books, c: Sockets, t: nat, timeoutMs: int, ghost due0: nat, ghost told: seq<Step>)
    returns (u: nat, ghost swept: nat, ghost due: nat, ghost steps: seq<Step>)
    requires Told(k, timeoutMs, b, c, told, t)
    requires b.nextIdx <= |b.ports| && b.maxInflight >= 1 && k.Sane() && k.Advances()
    requires Started(b.active, k.now(t)) && DueBy(b.active, timeoutMs, k.now(due0))
    modifies b, c
    ensures Told(k, timeoutMs, b, c, steps, u) && old(b.nextIdx) <= b.nextIdx <= |b.ports|
    ensures Started(b.active, k.now(u)) && DueBy(b.active, timeoutMs, k.now(due))
    ensures t < swept <= u && (b.active != map[] ==> swept < due)
    ensures b.nextIdx == old(b.nextIdx) ==> due == due0
    ensures old(b.nextIdx) == b.nextIdx < |b.ports| && old(b.active) == map[] ==> k.stop(u)
  {
    hide *;
    u, steps := LaunchBatch(k, b, c, t, timeoutMs, told);
    ghost var launched, from := b.active, u;
    u, steps := NextTurn(k, b, c, u, timeoutMs, steps);
    swept := from + 3;
    StopStays(k, from - 1, u);
    due := Sweep(k, launched, b.active, from, swept, timeoutMs, due0, b.nextIdx != old(b.nextIdx));
    ClockMoves(k, swept, u);
    StartedLater(b.active, k.now(swept), k.now(u));
  }

  /** The outer loop: each turn starts a port, or comes closer to the tick by which all is swept. */
  method Loop(k: Kernel, b: Books, c: Sockets, t: nat, timeoutMs: int) returns (u: nat, ghost steps: seq<Step>)
    requires Told(k, timeoutMs, b, c, [], t) && b.active == map[] && b.nextIdx <= |b.ports|
    requires k.Sane() && k.Advances() && b.maxInflight >= 1
    modifies b, c
    ensures Told(k, timeoutMs, b, c, steps, u) && t <= u
    ensures (b.nextIdx == |b.ports| && b.active == map[]) || k.stop(u)
  {
    hide *;
    u, steps := t, [];
    ghost var due: nat, swept: nat := 0, 0;
    NoneInFlight(b.active, k.now(u), timeoutMs, k.now(due));
    while (b.nextIdx < |b.ports| || b.active != map[]) && !k.stop(u)
      invariant Told(k, timeoutMs, b, c, steps, u) && b.nextIdx <= |b.ports| && t <= u
      invariant Started(b.active, k.now(u)) && DueBy(b.active, timeoutMs, k.now(due))
      invariant b.active != map[] ==> swept < due && swept <= u
      decreases !k.stop(u), |b.ports| - b.nextIdx, due - swept
    {
      ToldLater(k, timeoutMs, b, c, steps, u);
      ClockMoves(k, u, u + 1);
      StartedLater(b.active, k.now(u), k.now(u + 1));
      u, swept, due, steps := Round(k, b, c, u + 1, timeoutMs, due, steps);
    }
  }

  // The abort: every connection in flight is closed and given up, and none is counted.
  method RetireAll(b: Books, c: Sockets)
    requires c.Valid() && Tied(b.active, c.retired, c.open, c.nextId)
    modifies b`active, c`open, c`retired, c`closed
    ensures c.Valid() && b.active == map[] && Tied(b.active, c.retired, c.open, c.nextId)
    ensures c.retired.Keys == old(c.retired.Keys) + old(b.active.Keys)
  {
    hide Tied, Sockets.Valid;
    while exists key :: key in b.active
      invariant c.Valid() && Tied(b.active, c.retired, c.open, c.nextId)
      invariant c.retired.Keys + b.active.Keys == old(c.retired.Keys) + old(b.active.Keys)
      decreases b.active.Keys
    {
      var key :| key in b.active;
      Retire(b, c, key);
      b.active := b.active - {key};
    }
  }

  // The keys of new connections are not in use, and a new socket belongs to one connection.
  lemma {:induction false} LaunchTied(
      active: map<int, Pending>, retired: map<int, Pending>, open: set<int>, n: nat, p: Pending)
    requires Tied(active, retired, open, n)
    ensures n !in active && Tied(active, retired, open, n + 1)
    ensures p.handle !in open ==> Tied(active[n := p], retired, open + {p.handle}, n + 1)
  {
    if p.handle !in open {
      var active' := active[n := p];
      forall s | s in open + {p.handle} ensures exists key :: key in active' && active'[key].handle == s {
        if s == p.handle { assert n in active'; } else {
          var key :| key in active && active[key].handle == s;
          assert key in active';
        }
      }
    }
  }

  lemma {:induction false} KeysStayFreshLater(log: seq<Event>, n: nat)
    ensures KeysFresh(log, n) ==> KeysFresh(log, n + 1)
  { }

  // The wait for the completions of what was given up: a second at most.
  method Drain(k: Kernel, c: Sockets, t: nat)
    requires k.Sane() && k.Advances()
    modifies c`retired
    ensures c.retired == map[]
  {
    hide Kernel.Sane;
    var u: nat := t + 1;
    var deadline := k.now(t) + 1000;
    assert k.Reaches(deadline);
    ghost var due: nat :| deadline <= k.now(due);
    while c.retired != map[] && k.now(u) < deadline
      decreases due - u
    {
      if due <= u { ClockMoves(k, due, u); }
      var id := k.packet(u);
      if id in c.retired {
        c.retired := c.retired - {id};
      }
      if id == -1 && k.accept(u) { break; }
      u := u + 1;
    }
    c.retired := map[];
  }

  // load_connectex_ptr, which needs a socket of its own.
  method LoadConnectEx(k: Kernel, c: Sockets, t: nat) returns (ok: bool)
    requires c.Valid() && k.Sane()
    modifies c`open, c`created, c`closed
    ensures c.Valid() && c.open == old(c.open)
    ensures ok <==> k.socket(t, old(c.open)) != -1 && k.accept(t + 1)
  {
    hide Sockets.Valid, Kernel.Sane;
    var s := c.Create(k, t);
    if s == -1 { return false; }
    c.Close(s);
    ok := k.accept(t + 1);
  }

  // ConnectEx is found and the completion port created.
  predicate SetUp(k: Kernel) { k.socket(0, {}) != -1 && k.accept(1) && k.accept(2) }

  /**
    The worker. Its result is what a run of ledger events makes of the ports,
    the run is what the kernel answered, one launch or turn after another, no
    connection is counted twice however late its completion comes, and every
    socket created has been closed exactly as often, on every path.
  */
  method ScanConnectWorker(k: Kernel, ports: seq<int>, timeoutMs: int, maxInflight: nat)
    returns (r: WorkerResult, addedScanned: nat, addedOpen: nat, u: nat,
      ghost log: seq<Event>, ghost steps: seq<Step>, ghost created: multiset<int>, ghost closed: multiset<int>)
    requires k.Sane() && k.Advances() && maxInflight >= 1
    ensures Replayable(Start(ports, maxInflight), log)
    ensures r == Replay(Start(ports, maxInflight), log).out.(aborted := r.aborted)
    ensures r.scanned < |ports| ==> r.aborted
    ensures if ports != [] && SetUp(k)
      then r.aborted == k.stop(u) && Explains(Start(ports, maxInflight), log, steps, Why(k, timeoutMs))
        && Ends(steps) < u
      else !r.aborted && log == GiveUp(|ports|)
    ensures Sums(r) && r.scanned <= |ports| && OpenPorts(r.open) <= multiset(ports)
    ensures addedScanned == r.scanned && addedOpen == |r.open|
    ensures forall key :: Finishes(log, key) <= Launches(log, key) <= 1
    ensures created == closed
  {
    hide Replayable, Replay, Kernel.Sane, Kernel.Advances, OpenPorts, Tied, KeysFresh, Books.Valid, Sockets.Valid;
    var b := new Books(ports, maxInflight);
    var c := new Sockets();
    SoundStart();
    assert GiveUp(0) == [];
    var looped := false;
    u, steps := 0, [];
    if ports != [] {
      looped, u, steps := Scan(k, b, c, timeoutMs);
    }
    Summary(b);
    FinishedOnce(Start(ports, maxInflight), b.log, c.nextId);
    r, addedScanned, addedOpen, log := b.out, b.addedScanned, b.addedOpen, b.log;
    if looped {
      r := r.(aborted := k.stop(u));
      WindUp(k, b, c, u);
    } else {
      TiedNone(b.active, c.retired, c.open, c.nextId);
    }
    AllClosed(c);
    created, closed := c.created, c.closed;
  }

  // Set up, and run the outer loop if that worked.
  method Scan(k: Kernel, b: Books, c: Sockets, timeoutMs: int) returns (looped: bool, u: nat, ghost steps: seq<Step>)
    requires Consistent(b, c) && b.State() == Start(b.ports, b.maxInflight) && b.log == []
      && c.nextId == b.nextIdx == 0 && c.open == {}
    requires k.Sane() && k.Advances() && b.maxInflight >= 1
    modifies b, c
    ensures Consistent(b, c) && looped == SetUp(k)
    ensures looped ==> Explains(Start(b.ports, b.maxInflight), b.log, steps, Why(k, timeoutMs)) && Ends(steps) < u
    ensures (b.nextIdx == |b.ports| && b.active == map[]) || (looped && k.stop(u))
    ensures !looped ==> b.log == GiveUp(|b.ports|)
  {
    hide Kernel.Sane, Kernel.Advances, Tied, KeysFresh, Books.Valid, Sockets.Valid, Explains, Why, Fits, GiveUp;
    NothingTold(k, timeoutMs, Start(b.ports, b.maxInflight));
    var connectEx := LoadConnectEx(k, c, 0);
    looped, steps := connectEx && k.accept(2), [];
    if looped {
      u, steps := Loop(k, b, c, 3, timeoutMs);
      StopStays(k, u, u + 1);
      u := u + 1;
    } else {
      b.GiveUpAll();
      GiveUpFresh(|b.ports|);
      u := 3;
    }
  }

  lemma {:induction false} NothingTold(k: Kernel, timeoutMs: int, start: Ledger)
    ensures Explains(start, [], [], Why(k, timeoutMs))
  { }

  // After the outer loop.
  method WindUp(k: Kernel, b: Books, c: Sockets, u: nat)
    requires c.Valid() && Tied(b.active, c.retired, c.open, c.nextId) && k.Sane() && k.Advances()
    requires b.active == map[] || k.stop(u)
    modifies b`active, c`open, c`retired, c`closed
    ensures c.Valid() && c.open == {}
  {
    hide Kernel.Advances, Tied, Sockets.Valid;
    if k.stop(u) {
      RetireAll(b, c);
    }
    TiedNone(b.active, c.retired, c.open, c.nextId);
    Drain(k, c, u);
  }

  // The step of the next launch.
  lemma {:induction false} Launching(k: Kernel, timeoutMs: int, b: Books, c: Sockets, told: seq<Step>, t: nat)
    returns (steps: seq<Step>)
    requires Told(k, timeoutMs, b, c, told, t) && !k.stop(t) && |b.active| < b.maxInflight
    ensures Explains(
      Start(b.ports, b.maxInflight), b.log + [LaunchEvent(k, t + 1, c.open, c.nextId)], steps, Why(k, timeoutMs))
    ensures Ends(steps) == t + 7
  {
    hide Books.Valid, Sockets.Valid, Tied, KeysFresh, LaunchEvent, Explains, Handles, Replayable, Replay;
    History(b);
    OpenHandles(b.active, c.retired, c.open, c.nextId);
    var e := LaunchEvent(k, t + 1, c.open, c.nextId);
    var s := Step(false, t + 1, t + 7, [e]);
    assert Fits(k, timeoutMs, b.State(), s);
    ExplainMore(Start(b.ports, b.maxInflight), b.log, b.State(), told, s, b.log + [e], Why(k, timeoutMs));
    steps := told + [s];
  }

  lemma {:induction false} LaunchKind(k: Kernel, t: nat, used: set<int>, id: nat)
    ensures LaunchEvent(k, t, used, id).Settle? || LaunchEvent(k, t, used, id).Launch?
  { }

  lemma {:induction false} OpenHandles(active: map<int, Pending>, retired: map<int, Pending>, open: set<int>, n: nat)
    requires Tied(active, retired, open, n)
    ensures Handles(active) == open
  {
    forall s | s in open ensures s in Handles(active) {
      var key :| key in active && active[key].handle == s;
    }
    SameElements(Handles(active), open);
  }

  lemma {:induction false} SameElements<T>(a: set<T>, b: set<T>)
    requires forall x :: x in a <==> x in b
    ensures a == b
  { }

  lemma {:induction false} ToldLater(k: Kernel, timeoutMs: int, b: Books, c: Sockets, steps: seq<Step>, t: nat)
    requires Told(k, timeoutMs, b, c, steps, t)
    ensures Told(k, timeoutMs, b, c, steps, t + 1)
  { }

  lemma {:induction false} LaunchStarted(k: Kernel, t: nat, l: Ledger, used: set<int>, id: nat)
    requires k.Sane() && Started(l.active, k.now(t))
    ensures var e := LaunchEvent(k, t, used, id);
      (e.Settle? || e.Launch?) && (Enabled(l, e) ==> Started(Apply(l, e).active, k.now(t + 6)))
  {
    hide Kernel.Sane, Tally;
    ClockMoves(k, t, t + 1);
    ClockMoves(k, t + 1, t + 6);
  }

  lemma {:induction false} NoneGone(active: map<int, Pending>, retired: map<int, Pending>, id: int)
    ensures id !in active ==> active - {id} == active
    ensures id !in retired ==> retired - {id} == retired
  { }

  // Closing the socket of a connection and taking it out of those in flight,
  // given up or not, leaves the sockets of the others.
  lemma {:induction false} TakeOut(
      active: map<int, Pending>, retired: map<int, Pending>, open: set<int>, n: nat, id: int)
    requires Tied(active, retired, open, n) && id in active
    ensures active[id].handle in open && id !in retired
    ensures Tied(active - {id}, retired, open - {active[id].handle}, n)
    ensures Tied(active - {id}, retired[id := active[id]], open - {active[id].handle}, n)
    ensures retired - {id} == retired
  {
    forall s | s in open - {active[id].handle}
      ensures exists key :: key in active - {id} && (active - {id})[key].handle == s
    {
      var key :| key in active && active[key].handle == s;
      assert key in active - {id};
    }
  }

  lemma {:induction false} Forget(
      active: map<int, Pending>, retired: map<int, Pending>, open: set<int>, n: nat, id: int)
    requires Tied(active, retired, open, n)
    ensures Tied(active, retired - {id}, open, n)
  { }

  lemma {:induction false} SoundStart()
    ensures Tied(map[], map[], {}, 0) && KeysFresh([], 0)
  { }

  lemma {:induction false} GiveUpFresh(n: nat)
    ensures KeysFresh(GiveUp(n), 0)
  {
    if n > 0 {
      GiveUpFresh(n - 1);
      assert GiveUp(n) == GiveUp(n - 1) + [Settle(Failed)];
      KeysStayFresh(GiveUp(n - 1), Settle(Failed), 0);
    } else {
      assert GiveUp(0) == [];
    }
  }

  lemma {:induction false} FinishedOnce(start: Ledger, log: seq<Event>, n: nat)
    requires Replayable(start, log) && start.active == map[] && KeysFresh(log, n)
    ensures forall key :: Finishes(log, key) <= Launches(log, key) <= 1
  {
    forall key ensures Finishes(log, key) <= Launches(log, key) <= 1 { LaunchedThenFinished(start, log, key); }
  }

  lemma {:induction false} TiedNone(active: map<int, Pending>, retired: map<int, Pending>, open: set<int>, n: nat)
    requires active == map[]
    ensures Tied(active, retired, open, n) ==> open == {}
  {
    if Tied(active, retired, open, n) {
      forall s ensures s !in open { }
    }
  }

  lemma {:induction false} AllClosed(c: Sockets)
    requires c.Valid() && c.open == {}
    ensures c.created == c.closed
  { }
}
