/** scan_syn_half_open_linux of tcp_async_scan.cpp. */
module SynScanner {
  import opened Bytes
  import opened Checksum
  import opened InFlight
  import opened Kernel
  import opened ScanBooks
  import opened ScanLedger
  import opened SrcPorts

  // A TCP segment: who sent it, and to which port of this host.
  datatype Segment = Segment(sender: int, port: int, syn: bool, ack: bool, rst: bool)

  function Bit(b: Octet, n: int): bool
    requires n > 0
  {
    (b / n) % 2 == 1
  }

  function HeaderLength(p: seq<Octet>): nat
    requires p != []
  {
    p[0] % 16 * 4
  }

  // A whole IP and TCP header, from the target to this host.
  predicate IsSegment(p: seq<Octet>, target: seq<Octet>, source: seq<Octet>) {
    && |p| >= 40 && p[9] == 6
    && 20 <= HeaderLength(p) <= |p| - 20
    && p[12..16] == target && p[16..20] == source
  }

  // The TCP segment in a received packet.
  function SegmentIn(p: seq<Octet>, target: seq<Octet>, source: seq<Octet>): Option<Segment> {
    if !IsSegment(p, target, source) then None
    else
      var tcp := p[HeaderLength(p)..];
      Some(Segment(Word(tcp[0], tcp[1]), Word(tcp[2], tcp[3]), Bit(tcp[13], 2), Bit(tcp[13], 16), Bit(tcp[13], 4)))
  }

  // The filters of the receive loop; nothing past the received bytes is read.
  method ReadSegment(p: seq<Octet>, target: seq<Octet>, source: seq<Octet>) returns (r: Option<Segment>)
    ensures r == SegmentIn(p, target, source)
  {
    if |p| < 40 { return None; }
    if p[9] != 6 { return None; }
    var hlen: nat := p[0] % 16 * 4;
    if hlen < 20 || |p| < hlen + 20 { return None; }
    if p[12..16] != target || p[16..20] != source { return None; }
    return Some(Segment(
      Word(p[hlen], p[hlen + 1]), Word(p[hlen + 2], p[hlen + 3]),
      Bit(p[hlen + 13], 2), Bit(p[hlen + 13], 16), Bit(p[hlen + 13], 4)));
  }

  function Classified(s: Segment, ms: int): Verdict {
    if s.syn && s.ack then Connected(ms) else if s.rst then Refused else Failed
  }

  // What a run of received packets comes to: the first segment from the target to
  // each pending source port counts, whichever port it comes from; nothing else does.
  function Replies(
      k: Kernel, t: nat, pending: map<int, Pending>, packets: seq<seq<Octet>>, target: seq<Octet>, source: seq<Octet>)
    : seq<Event>
    decreases |packets|
  {
    if packets == [] then []
    else
      match SegmentIn(packets[0], target, source)
      case None => Replies(k, t + 1, pending, packets[1..], target, source)
      case Some(s) =>
        if s.port !in pending then Replies(k, t + 1, pending, packets[1..], target, source)
        else
          [Resolve(s.port, Classified(s, k.now(t) - pending[s.port].started))]
          + Replies(k, t + 1, pending - {s.port}, packets[1..], target, source)
  }

  // The next port is probed from source port `from`, if there is one and the probe can be sent.
  function LaunchEvent(k: Kernel, t: nat, from: int): Event {
    if from == 0 || !k.accept(t) then Settle(Failed) else Launch(from, from, k.now(t + 1))
  }

  // The packet is a segment from the target to source port `port`.
  predicate RepliesTo(p: seq<Octet>, target: seq<Octet>, source: seq<Octet>, port: int) {
    SegmentIn(p, target, source).Some? && SegmentIn(p, target, source).value.port == port
  }

  predicate Replied(packets: seq<seq<Octet>>, target: seq<Octet>, source: seq<Octet>, port: int) {
    exists p :: p in packets && RepliesTo(p, target, source, port)
  }

  // The step is what came: a launch, on a limit not reached, is what allocating a
  // source port and sending the probe gave; a turn is what one run of recvfrom
  // calls received, then the sweep at the clock read after it.
  ghost predicate Fits(k: Kernel, timeoutMs: int, target: seq<Octet>, source: seq<Octet>, l: Ledger, s: Step) {
    if s.turn then
      var packets := k.frames(s.from);
      var read := s.from + 1 + |packets|;
      && s.upto == read + 1
      && AnsweredThenSwept(
           l, s.events, Replies(k, s.from + 1, l.active, packets, target, source), k.now(read), timeoutMs)
    else
      && s.upto == s.from + 2 && |l.active| < l.limit
      && exists from: int :: Allocated(l, from) && s.events == [LaunchEvent(k, s.from, from)]
  }

  // A source port not in use, or none because at least 19999 are.
  predicate Allocated(l: Ledger, from: int) {
    if from == 0 then TRIES - 1 <= |l.active| else 20001 <= from <= 59999 && from !in l.active
  }

  ghost function Why(k: Kernel, timeoutMs: int, target: seq<Octet>, source: seq<Octet>): (Ledger, Step) -> bool {
    (l: Ledger, s: Step) => Fits(k, timeoutMs, target, source, l, s)
  }

  // The launches of the steps take their source ports one after another from the
  // allocator, whose cursor starts at 40000 and now stands at `cursor`.
  ghost predicate Walks(k: Kernel, start: Ledger, log: seq<Event>, steps: seq<Step>, cursor: Cursor)
    decreases |steps|
  {
    if steps == [] then cursor == 40000
    else
      var most, s := steps[..|steps| - 1], steps[|steps| - 1];
      var n := |log| - |s.events|;
      && 0 <= n && Replayable(start, log[..n])
      && if s.turn then Walks(k, start, log[..n], most, cursor)
         else exists before: Cursor ::
           && Walks(k, start, log[..n], most, before)
           && Takes(k, s, Replay(start, log[..n]).active.Keys, before, cursor)
  }

  ghost predicate Takes(k: Kernel, s: Step, used: set<int>, cursor: Cursor, next: Cursor) {
    var (from, after) := FirstFree(cursor, used, TRIES);
    s.events == [LaunchEvent(k, s.from, from)] && next == after
  }

  // The steps account for the books up to tick `t`, and for the cursor.
  ghost predicate Told(
      k: Kernel, timeoutMs: int, target: seq<Octet>, source: seq<Octet>, b: Books, steps: seq<Step>, t: nat,
      cursor: Cursor)
    reads b
  {
    && b.Valid() && Ends(steps) <= t
    && Explains(Start(b.ports, b.maxInflight), b.log, steps, Why(k, timeoutMs, target, source))
    && Walks(k, Start(b.ports, b.maxInflight), b.log, steps, cursor)
  }

  lemma {:induction false} WalkMore(
      k: Kernel, start: Ledger, log: seq<Event>, l: Ledger, steps: seq<Step>, s: Step, after: seq<Event>,
      cursor: Cursor, next: Cursor)
    requires Replayable(start, log) && Replay(start, log) == l && Walks(k, start, log, steps, cursor)
    requires after == log + s.events && if s.turn then next == cursor else Takes(k, s, l.active.Keys, cursor, next)
    ensures Walks(k, start, after, steps + [s], next)
  {
    hide Replay, Replayable, Takes;
    assert (steps + [s])[..|steps|] == steps;
    assert after[..|log|] == log;
  }

  // One turn of the sending loop.
  method LaunchNext(k: Kernel, b: Books, cursor: Cursor, t: nat) returns (next: Cursor, u: nat, ghost from: int)
    requires b.Valid() && b.nextIdx < |b.ports| && |b.active| < b.maxInflight
    modifies b
    ensures b.Valid() && u == t + 2
    ensures var e := LaunchEvent(k, t, from);
      b.log == old(b.log) + [e] && Enabled(old(b.State()), e) && b.State() == Apply(old(b.State()), e)
    ensures Allocated(old(b.State()), from) && (from, next) == FirstFree(cursor, old(b.active.Keys), TRIES)
  {
    hide Books.Valid, Tally, AllUsed, PortOf, After, FirstFree;
    var srcPort;
    ghost var skipped;
    srcPort, next, skipped := Alloc(cursor, b.active.Keys);
    from := srcPort;
    u := t + 2;
    if srcPort == 0 {
      b.Finish(Failed);
    } else if !k.accept(t) {
      b.Finish(Failed);
    } else {
      b.Await(srcPort, srcPort, k.now(t + 1));
    }
  }

  method LaunchBatch(
      k: Kernel, b: Books, cursor: Cursor, t: nat, timeoutMs: int, target: seq<Octet>, source: seq<Octet>,
      ghost told: seq<Step>)
    returns (next: Cursor, u: nat, ghost steps: seq<Step>)
    requires Told(k, timeoutMs, target, source, b, told, t, cursor)
    requires b.nextIdx <= |b.ports| && k.Sane() && Started(b.active, k.now(t))
    modifies b
    ensures Told(k, timeoutMs, target, source, b, steps, u, next)
    ensures t <= u && old(b.nextIdx) <= b.nextIdx <= |b.ports|
    ensures b.nextIdx == old(b.nextIdx) ==> b.active == old(b.active)
    ensures b.nextIdx == |b.ports| || |b.active| >= b.maxInflight
    ensures Launched(old(b.log), b.log, b.nextIdx - old(b.nextIdx))
    ensures Started(b.active, k.now(u))
  {
    hide Books.Valid, LaunchEvent, Kernel.Sane, Started, Explains, Why, Fits, Allocated, Replayable, Replay, Walks,
      Takes;
    next, u, steps := cursor, t, told;
    while b.nextIdx < |b.ports| && |b.active| < b.maxInflight
      invariant Told(k, timeoutMs, target, source, b, steps, u, next)
      invariant t <= u && old(b.nextIdx) <= b.nextIdx <= |b.ports|
      invariant b.nextIdx == old(b.nextIdx) ==> b.active == old(b.active)
      invariant Launched(old(b.log), b.log, b.nextIdx - old(b.nextIdx))
      invariant Started(b.active, k.now(u))
      decreases |b.ports| - b.nextIdx
    {
      History(b);
      ghost var from, l, log, was, at := 0, b.State(), b.log, u, next;
      next, u, from := LaunchNext(k, b, next, u);
      LaunchStarted(k, was, l, from);
      steps := Launching(
        k, timeoutMs, target, source, Start(b.ports, b.maxInflight), log, l, steps, was, from, at, next);
    }
  }

  // The receive loop.
  method HandlePackets(k: Kernel, b: Books, t: nat, packets: seq<seq<Octet>>, target: seq<Octet>, source: seq<Octet>)
    returns (u: nat)
    requires b.Valid()
    modifies b
    ensures b.Valid() && u == t + |packets| && b.nextIdx == old(b.nextIdx)
    ensures b.log == old(b.log) + Replies(k, t, old(b.active), packets, target, source)
    ensures SubMap(b.active, old(b.active))
  {
    hide Books.Valid, Tally, SubMap, SegmentIn;
    u := t;
    SubMapMinus(b.active, {});
    assert b.active - {} == b.active;
    for i := 0 to |packets|
      invariant b.Valid() && u == t + i && b.nextIdx == old(b.nextIdx)
      invariant b.log + Replies(k, u, b.active, packets[i..], target, source)
        == old(b.log) + Replies(k, t, old(b.active), packets, target, source)
      invariant SubMap(b.active, old(b.active))
    {
      assert packets[i..][0] == packets[i] && packets[i..][1..] == packets[i + 1..];
      var segment := ReadSegment(packets[i], target, source);
      if segment.Some? && segment.value.port in b.active {
        var s := segment.value;
        SubMapMinus(b.active, {s.port});
        SubMapTrans(b.active - {s.port}, b.active, old(b.active));
        if s.syn && s.ack {
          b.Complete(s.port, Connected(k.now(u) - b.active[s.port].started));
        } else if s.rst {
          b.Complete(s.port, Refused);
        } else {
          b.Complete(s.port, Failed);
        }
      }
      u := u + 1;
    }
  }

  // One turn of the main loop after the launches.
  method Turn(k: Kernel, b: Books, t: nat, timeoutMs: int, target: seq<Octet>, source: seq<Octet>)
    returns (u: nat, now: int)
    requires b.Valid()
    modifies b
    ensures b.Valid() && b.nextIdx == old(b.nextIdx) && u == t + 2 + |k.frames(t)| && now == k.now(u - 1)
    ensures SubMap(b.active, old(b.active)) && Young(b.active, now, timeoutMs) && old(b.log) <= b.log
    ensures AnsweredThenSwept(
      old(b.State()), b.log[|old(b.log)|..],
      Replies(k, t + 1, old(b.active), k.frames(t), target, source), now, timeoutMs)
  {
    hide Books.Valid, Replies, SubMap, Young, Swept, Replayable, Replay;
    History(b);
    u := HandlePackets(k, b, t + 1, k.frames(t), target, source);
    ghost var answers := Replies(k, t + 1, old(b.active), k.frames(t), target, source);
    Since(b, old(b.log), old(b.State()), answers);
    now := k.now(u);
    ghost var heard, told := b.active, b.log;
    b.ExpireOld(now, timeoutMs);
    SubMapTrans(b.active, heard, old(b.active));
    assert b.log[|old(b.log)|..][|answers|..] == b.log[|told|..];
    u := u + 1;
  }

  // A turn, and its step.
  method NextTurn(
      k: Kernel, b: Books, t: nat, timeoutMs: int, target: seq<Octet>, source: seq<Octet>, ghost told: seq<Step>,
      ghost cursor: Cursor)
    returns (u: nat, ghost steps: seq<Step>)
    requires Told(k, timeoutMs, target, source, b, told, t, cursor)
    modifies b
    ensures Told(k, timeoutMs, target, source, b, steps, u, cursor) && b.nextIdx == old(b.nextIdx) && t < u
    ensures SubMap(b.active, old(b.active)) && Young(b.active, k.now(u - 1), timeoutMs)
  {
    hide Books.Valid, Explains, Walks, AnsweredThenSwept, Replies, SubMap, Young, Replayable, Replay;
    History(b);
    var now;
    u, now := Turn(k, b, t, timeoutMs, target, source);
    ghost var s := Step(true, t, u, b.log[|old(b.log)|..]);
    ExplainMore(
      Start(b.ports, b.maxInflight), old(b.log), old(b.State()), told, s, b.log, Why(k, timeoutMs, target, source));
    WalkMore(k, Start(b.ports, b.maxInflight), old(b.log), old(b.State()), told, s, b.log, cursor, cursor);
    steps := told + [s];
  }

  /** The main loop, until all is done or a signal came. Bounded as in the connect scanners. */
  method Loop(k: Kernel, b: Books, t: nat, timeoutMs: int, target: seq<Octet>, source: seq<Octet>)
    returns (aborted: bool, u: nat, ghost steps: seq<Step>, ghost left: Cursor)
    requires Told(k, timeoutMs, target, source, b, [], t, 40000)
    requires b.active == map[] && b.nextIdx <= |b.ports|
    requires k.Sane() && k.Advances() && b.maxInflight >= 1
    modifies b
    ensures Told(k, timeoutMs, target, source, b, steps, u, left)
    ensures if aborted then k.stop(u) else b.nextIdx == |b.ports| && b.active == map[]
  {
    hide *;
    u, aborted, steps := t, false, [];
    var cursor: Cursor := 40000;
    ghost var due: nat, swept: nat := 0, 0;
    NoneInFlight(b.active, k.now(u), timeoutMs, k.now(due));
    while b.nextIdx < |b.ports| || b.active != map[]
      invariant Told(k, timeoutMs, target, source, b, steps, u, cursor) && b.nextIdx <= |b.ports|
      invariant Started(b.active, k.now(u)) && DueBy(b.active, timeoutMs, k.now(due))
      invariant b.active != map[] ==> swept < due && swept <= u
      decreases |b.ports| - b.nextIdx, due - swept
    {
      if k.stop(u) { return true, u, steps, cursor; }
      ghost var next := b.nextIdx;
      ToldLater(k, timeoutMs, target, source, b, steps, u, cursor);
      ClockMoves(k, u, u + 1);
      StartedLater(b.active, k.now(u), k.now(u + 1));
      cursor, u, steps := LaunchBatch(k, b, cursor, u + 1, timeoutMs, target, source, steps);
      ghost var launched, from := b.active, u;
      u, steps := NextTurn(k, b, u, timeoutMs, target, source, steps, cursor);
      swept := u - 1;
      due := Sweep(k, launched, b.active, from, swept, timeoutMs, due, b.nextIdx != next);
      ClockMoves(k, swept, u);
      StartedLater(b.active, k.now(swept), k.now(u));
    }
    left := cursor;
  }

  /**
    The scanner; None when it cannot be set up, and then it has counted nothing.
    Its result is what a run of ledger events makes of the ports, the run is what
    the kernel sent and received, one launch or turn after another, and unless a
    signal came every port has been counted.
  */
  method ScanSyn(k: Kernel, ports: seq<int>, timeoutMs: int, maxInflight: nat, target: seq<Octet>, source: seq<Octet>)
    returns (r: Option<WorkerResult>, addedScanned: nat, addedOpen: nat, u: nat, ghost log: seq<Event>,
      ghost steps: seq<Step>, ghost cursor: Cursor)
    requires k.Sane() && k.Advances() && maxInflight >= 1
    ensures r == None <==> ports != [] && !k.accept(0)
    ensures r == None ==> addedScanned == addedOpen == 0
    ensures r.Some? ==>
      && Replayable(Start(ports, maxInflight), log)
      && r.value == Replay(Start(ports, maxInflight), log).out.(aborted := r.value.aborted)
      && Explains(Start(ports, maxInflight), log, steps, Why(k, timeoutMs, target, source)) && Ends(steps) <= u
      && Walks(k, Start(ports, maxInflight), log, steps, cursor)
      && if r.value.aborted then k.stop(u) else r.value.scanned == |ports|
    ensures r.Some? ==>
      && Sums(r.value) && r.value.scanned <= |ports| && OpenPorts(r.value.open) <= multiset(ports)
      && addedScanned == r.value.scanned && addedOpen == |r.value.open|
  {
    hide Replayable, Replay, Kernel.Sane, Kernel.Advances, OpenPorts, Why;
    addedScanned, addedOpen, u, log, steps, cursor := 0, 0, 0, [], [], 40000;
    if ports == [] {
      NothingDone(ports, maxInflight);
      return Some(NOTHING), 0, 0, 0, [], [], 40000;
    }
    if !k.accept(0) {
      return None, 0, 0, 0, [], [], 40000;
    }
    var b := new Books(ports, maxInflight);
    var aborted;
    aborted, u, steps, cursor := Loop(k, b, 1, timeoutMs, target, source);
    Summary(b);
    r, addedScanned, addedOpen, log := Some(b.out.(aborted := aborted)), b.addedScanned, b.addedOpen, b.log;
  }

  // The step of a launch.
  lemma {:induction false} Launching(
      k: Kernel, timeoutMs: int, target: seq<Octet>, source: seq<Octet>,
      start: Ledger, log: seq<Event>, l: Ledger, told: seq<Step>, t: nat, from: int,
      cursor: Cursor, next: Cursor)
    returns (steps: seq<Step>)
    requires Replayable(start, log) && Replay(start, log) == l && Ends(told) <= t
    requires Explains(start, log, told, Why(k, timeoutMs, target, source))
    requires Allocated(l, from) && |l.active| < l.limit
    requires Walks(k, start, log, told, cursor) && (from, next) == FirstFree(cursor, l.active.Keys, TRIES)
    ensures Walks(k, start, log + [LaunchEvent(k, t, from)], steps, next)
    ensures Explains(start, log + [LaunchEvent(k, t, from)], steps, Why(k, timeoutMs, target, source))
    ensures Ends(steps) == t + 2
  {
    hide LaunchEvent, Explains, Walks, FirstFree, Allocated, Replayable, Replay;
    var e := LaunchEvent(k, t, from);
    var s := Step(false, t, t + 2, [e]);
    assert Fits(k, timeoutMs, target, source, l, s);
    ExplainMore(start, log, l, told, s, log + [e], Why(k, timeoutMs, target, source));
    WalkMore(k, start, log, l, told, s, log + [e], cursor, next);
    steps := told + [s];
  }

  lemma {:induction false} ToldLater(
      k: Kernel, timeoutMs: int, target: seq<Octet>, source: seq<Octet>, b: Books, steps: seq<Step>, t: nat,
      cursor: Cursor)
    requires Told(k, timeoutMs, target, source, b, steps, t, cursor)
    ensures Told(k, timeoutMs, target, source, b, steps, t + 1, cursor)
  { }

  lemma {:induction false} NothingDone(ports: seq<int>, limit: nat)
    ensures Replayable(Start(ports, limit), []) && Replay(Start(ports, limit), []).out == NOTHING
    ensures OpenPorts([]) <= multiset(ports)
  { }

  lemma {:induction false} LaunchStarted(k: Kernel, t: nat, l: Ledger, from: int)
    requires k.Sane() && Started(l.active, k.now(t))
    ensures var e := LaunchEvent(k, t, from);
      (e.Settle? || e.Launch?) && (Enabled(l, e) ==> Started(Apply(l, e).active, k.now(t + 2)))
  {
    hide Kernel.Sane, Tally;
    ClockMoves(k, t, t + 1);
    ClockMoves(k, t + 1, t + 2);
  }

  /**
    However many segments the target sends to its source port, a probe is counted
    once if it is pending and there is one, and not at all otherwise.
  */
  lemma {:induction false} CountedOnce(
      k: Kernel, t: nat, pending: map<int, Pending>, packets: seq<seq<Octet>>,
      target: seq<Octet>, source: seq<Octet>, port: int)
    ensures Finishes(Replies(k, t, pending, packets, target, source), port) ==
      if port in pending && Replied(packets, target, source, port) then 1 else 0
    decreases |packets|
  {
    hide SegmentIn;
    if packets != [] {
      var p, rest := packets[0], packets[1..];
      assert packets == [p] + rest;
      assert Replied(packets, target, source, port) <==>
        RepliesTo(p, target, source, port) || Replied(rest, target, source, port);
      match SegmentIn(p, target, source) {
        case None => CountedOnce(k, t + 1, pending, rest, target, source, port);
        case Some(s) =>
          if s.port !in pending {
            CountedOnce(k, t + 1, pending, rest, target, source, port);
          } else {
            var e := Resolve(s.port, Classified(s, k.now(t) - pending[s.port].started));
            CountedOnce(k, t + 1, pending - {s.port}, rest, target, source, port);
            FinishesCons(e, Replies(k, t + 1, pending - {s.port}, rest, target, source), port);
          }
      }
    }
  }
}
