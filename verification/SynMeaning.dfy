/** What the results of scan_syn_half_open_linux mean: which octets on the wire they count, and as what. */
module SynMeaning {
  import opened Counting
  import opened Kernel
  import opened Readings
  import opened ScanLedger
  import opened SynScanner

  // Where the TCP header starts, the port it is addressed to, and its flag octet (section 3.1 of RFC 9293).
  function TcpAt(p: seq<Octet>): nat requires p != [] { p[0] % 16 * 4 }

  function PortAddressed(p: seq<Octet>): int
    requires p != [] && TcpAt(p) + 20 <= |p|
  {
    p[TcpAt(p) + 2] as int * 256 + p[TcpAt(p) + 3] as int
  }

  function FlagsIn(p: seq<Octet>): Octet
    requires p != [] && TcpAt(p) + 20 <= |p|
  {
    p[TcpAt(p) + 13]
  }

  // A whole TCP segment of protocol 6 from the target to this host.
  predicate FromTarget(p: seq<Octet>, target: seq<Octet>, source: seq<Octet>) {
    && |p| >= 40 && p[9] == 6 && TcpAt(p) >= 20 && TcpAt(p) + 20 <= |p|
    && p[12..16] == target && p[16..20] == source
  }

  // The flags of the first segment to each pending source port.
  function TurnReads(
      k: Kernel, t: nat, pending: map<int, Pending>, packets: seq<seq<Octet>>, target: seq<Octet>, source: seq<Octet>)
    : seq<Reading>
    decreases |packets|
  {
    if packets == [] then []
    else
      var p, rest := packets[0], packets[1..];
      if FromTarget(p, target, source) && PortAddressed(p) in pending then
        var port := PortAddressed(p);
        [Reading(pending[port].port, Heard(FlagsIn(p)), k.now(t) - pending[port].started)]
        + TurnReads(k, t + 1, pending - {port}, rest, target, source)
      else TurnReads(k, t + 1, pending, rest, target, source)
  }

  lemma {:induction false} SegmentMeans(p: seq<Octet>, target: seq<Octet>, source: seq<Octet>)
    ensures SegmentIn(p, target, source).Some? <==> FromTarget(p, target, source)
    ensures FromTarget(p, target, source) ==>
      var s := SegmentIn(p, target, source).value;
      && s.port == PortAddressed(p)
      && (s.syn && s.ack <==> SaysOpen(Heard(FlagsIn(p))))
      && (!(s.syn && s.ack) && s.rst <==> SaysRefused(Heard(FlagsIn(p))))
  {
    if FromTarget(p, target, source) {
      var tcp := p[HeaderLength(p)..];
      assert tcp[2] == p[TcpAt(p) + 2] && tcp[3] == p[TcpAt(p) + 3] && tcp[13] == p[TcpAt(p) + 13];
      BitsMean(FlagsIn(p));
    }
  }

  lemma {:induction false} BitsMean(b: Octet)
    ensures (Bit(b, 2) <==> b % 4 >= 2) && (Bit(b, 4) <==> b % 8 >= 4) && (Bit(b, 16) <==> b % 32 >= 16)
  {
    BitMeans2(b);
    BitMeans4(b);
    BitMeans16(b);
  }

  lemma {:induction false} BitMeans2(b: Octet)
    ensures Bit(b, 2) <==> b % 4 >= 2
  {
    var q := b / 2;
    assert b == 4 * (q / 2) + (2 * (q % 2) + b % 2);
  }

  lemma {:induction false} BitMeans4(b: Octet)
    ensures Bit(b, 4) <==> b % 8 >= 4
  {
    var q := b / 4;
    assert b == 8 * (q / 2) + (4 * (q % 2) + b % 4);
  }

  lemma {:induction false} BitMeans16(b: Octet)
    ensures Bit(b, 16) <==> b % 32 >= 16
  {
    var q := b / 16;
    assert b == 32 * (q / 2) + (16 * (q % 2) + b % 16);
  }

  lemma {:induction false} TurnResolved(
      k: Kernel, t: nat, before: map<int, Pending>, pending: map<int, Pending>, packets: seq<seq<Octet>>,
      target: seq<Octet>, source: seq<Octet>)
    requires forall key :: key in pending ==> key in before && pending[key] == before[key]
    ensures Resolved(
      before, Replies(k, t, pending, packets, target, source), TurnReads(k, t, pending, packets, target, source))
    decreases |packets|
  {
    hide SegmentIn, FromTarget, SaysOpen, SaysRefused;
    if packets != [] {
      var p, rest := packets[0], packets[1..];
      SegmentMeans(p, target, source);
      if SegmentIn(p, target, source).Some? && SegmentIn(p, target, source).value.port in pending {
        var port := SegmentIn(p, target, source).value.port;
        TurnResolved(k, t + 1, before, pending - {port}, rest, target, source);
      } else {
        TurnResolved(k, t + 1, before, pending, rest, target, source);
      }
    }
  }

  // A launch that came to nothing had no source port or could not be sent.
  ghost function Reads(k: Kernel, target: seq<Octet>, source: seq<Octet>): (Ledger, Step) -> seq<Reading> {
    (l: Ledger, s: Step) =>
      if s.turn then TurnReads(k, s.from + 1, l.active, k.frames(s.from), target, source)
      else if l.next < |l.ports| && |s.events| == 1 && s.events[0].Settle? then
        [Reading(l.ports[l.next], NotSet, 0)]
      else []
  }

  lemma {:induction false} StepFollows(
      k: Kernel, timeoutMs: int, target: seq<Octet>, source: seq<Octet>, l: Ledger, s: Step)
    requires Fits(k, timeoutMs, target, source, l, s) && Replayable(l, s.events)
    ensures Adds(l.out, Replay(l, s.events).out, Reads(k, target, source)(l, s), Expiries(s.events))
  {
    hide Replay, Adds, AnsweredThenSwept, Replies, TurnReads, Resolved, Tally, Allocated;
    if s.turn {
      var packets := k.frames(s.from);
      TurnResolved(k, s.from + 1, l.active, l.active, packets, target, source);
      TurnAdds(
        l, s.events, Replies(k, s.from + 1, l.active, packets, target, source),
        TurnReads(k, s.from + 1, l.active, packets, target, source), k.now(s.upto - 1), timeoutMs);
    } else {
      ReplayOne(l, s.events[0]);
      LaunchAdds(l, s.events[0], Reads(k, target, source)(l, s));
    }
  }

  /**
    Over any run of the scanner: the open ports, with their times, are in order
    those for which SYN and ACK came first, refused counts those for which RST
    did, and other counts every other segment and every probe that was not sent.
  */
  lemma {:induction false} ScannerMeans(
      k: Kernel, timeoutMs: int, target: seq<Octet>, source: seq<Octet>,
      start: Ledger, log: seq<Event>, steps: seq<Step>)
    requires Replayable(start, log) && Explains(start, log, steps, Why(k, timeoutMs, target, source))
    requires start.out == NOTHING
    ensures
      var out := Replay(start, log).out;
      var ds := RunReadings(start, log, steps, Why(k, timeoutMs, target, source), Reads(k, target, source));
      && out.open == Opens(ds)
      && out.refused == Count(ds, RefusedReading()) && out.other == Count(ds, OtherReading())
      && out.timeouts == Expiries(log)
  {
    hide Replayable, Replay, Fits, Reads, Explains, Count;
    forall l: Ledger, s: Step | Why(k, timeoutMs, target, source)(l, s) && Replayable(l, s.events)
      ensures Adds(l.out, Replay(l, s.events).out, Reads(k, target, source)(l, s), Expiries(s.events))
    {
      StepFollows(k, timeoutMs, target, source, l, s);
    }
    RunAdds(start, log, steps, Why(k, timeoutMs, target, source), Reads(k, target, source));
  }
}
