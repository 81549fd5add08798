/**
  Whom scan_syn_half_open_linux credits with a reply. It looks a segment up by
  the port it was sent to and compares neither the port it came from nor the
  acknowledgement number with the probe.
*/
module SynCredits {
  import opened Bytes
  import opened Checksum
  import opened Kernel
  import opened ScanLedger
  import opened SynScanner

  // The port a probe asked, the port whose segment settled it, and whether that
  // segment made it an open one.
  datatype Credit = Credit(asked: int, answered: int, accepted: bool)

  function CreditOf(asked: int, s: Segment): Credit { Credit(asked, s.sender, s.syn && s.ack) }

  // One credit for each event of Replies, in the same order.
  function Credits(pending: map<int, Pending>, packets: seq<seq<Octet>>, target: seq<Octet>, source: seq<Octet>)
    : seq<Credit>
    decreases |packets|
  {
    if packets == [] then []
    else
      match SegmentIn(packets[0], target, source)
      case None => Credits(pending, packets[1..], target, source)
      case Some(s) =>
        if s.port !in pending then Credits(pending, packets[1..], target, source)
        else
          [CreditOf(pending[s.port].port, s)] + Credits(pending - {s.port}, packets[1..], target, source)
  }

  // Packet `i` is the first segment from the target to source port `port`.
  ghost predicate FirstTo(packets: seq<seq<Octet>>, i: nat, target: seq<Octet>, source: seq<Octet>, port: int) {
    && i < |packets| && RepliesTo(packets[i], target, source, port)
    && forall j: nat :: j < i ==> !RepliesTo(packets[j], target, source, port)
  }

  // The event is what the first segment to its source port made of the probe, and so is the credit.
  ghost predicate Settled(
      e: Event, c: Credit, pending: map<int, Pending>, packets: seq<seq<Octet>>, i: nat,
      target: seq<Octet>, source: seq<Octet>)
  {
    && e.Resolve? && e.key in pending && FirstTo(packets, i, target, source, e.key)
    && c == CreditOf(pending[e.key].port, SegmentIn(packets[i], target, source).value)
    && (c.accepted <==> e.verdict.Connected?)
  }

  // Each event and credit is that of some packet.
  ghost predicate AllSettled(
      events: seq<Event>, credits: seq<Credit>, pending: map<int, Pending>, packets: seq<seq<Octet>>,
      target: seq<Octet>, source: seq<Octet>)
  {
    |events| == |credits|
    && forall j :: 0 <= j < |events| ==> SettledIn(events[j], credits[j], pending, packets, target, source)
  }

  ghost predicate SettledIn(
      e: Event, c: Credit, pending: map<int, Pending>, packets: seq<seq<Octet>>,
      target: seq<Octet>, source: seq<Octet>)
  {
    exists i: nat :: Settled(e, c, pending, packets, i, target, source)
  }

  // A packet that is not to the source port only shifts the one that is.
  lemma {:induction false} SettledLater(
      e: Event, c: Credit, pending: map<int, Pending>, now: map<int, Pending>, p: seq<Octet>, rest: seq<seq<Octet>>,
      target: seq<Octet>, source: seq<Octet>)
    requires now.Keys <= pending.Keys && forall key :: key in now ==> now[key] == pending[key]
    requires forall key :: key in now ==> !RepliesTo(p, target, source, key)
    requires SettledIn(e, c, now, rest, target, source)
    ensures SettledIn(e, c, pending, [p] + rest, target, source)
  {
    hide SegmentIn, RepliesTo, CreditOf;
    var i: nat :| Settled(e, c, now, rest, i, target, source);
    var all := [p] + rest;
    assert all[i + 1] == rest[i];
    forall j: nat | j < i + 1 ensures !RepliesTo(all[j], target, source, e.key) {
      if j > 0 { assert all[j] == rest[j - 1]; }
    }
    assert Settled(e, c, pending, all, i + 1, target, source);
  }

  lemma {:induction false} AllSettledLater(
      events: seq<Event>, credits: seq<Credit>, pending: map<int, Pending>, now: map<int, Pending>,
      p: seq<Octet>, rest: seq<seq<Octet>>, target: seq<Octet>, source: seq<Octet>)
    requires now.Keys <= pending.Keys && forall key :: key in now ==> now[key] == pending[key]
    requires forall key :: key in now ==> !RepliesTo(p, target, source, key)
    requires AllSettled(events, credits, now, rest, target, source)
    ensures AllSettled(events, credits, pending, [p] + rest, target, source)
  {
    hide SettledIn, RepliesTo;
    forall j | 0 <= j < |events| ensures SettledIn(events[j], credits[j], pending, [p] + rest, target, source) {
      SettledLater(events[j], credits[j], pending, now, p, rest, target, source);
    }
  }

  /**
    The credits are those of the events that the receive loop records, one each,
    in order: the port asked, the sender of the first segment to its source port,
    and whether the event opens the port.
  */
  lemma {:induction false} CreditsAreReplies(
      k: Kernel, t: nat, pending: map<int, Pending>, packets: seq<seq<Octet>>, target: seq<Octet>, source: seq<Octet>)
    ensures AllSettled(
      Replies(k, t, pending, packets, target, source), Credits(pending, packets, target, source),
      pending, packets, target, source)
    decreases |packets|, 0
  {
    hide SegmentIn, SettledIn, CreditOf, Classified;
    if packets != [] {
      var p, rest := packets[0], packets[1..];
      assert packets == [p] + rest;
      match SegmentIn(p, target, source) {
        case None => RestSettled(k, t, pending, pending, p, rest, target, source);
        case Some(s) =>
          if s.port !in pending {
            RestSettled(k, t, pending, pending, p, rest, target, source);
          } else {
            RestSettled(k, t, pending, pending - {s.port}, p, rest, target, source);
            NowSettled(k.now(t), pending, p, rest, target, source);
          }
      }
    }
  }

  // The events after the first packet.
  lemma {:induction false} RestSettled(
      k: Kernel, t: nat, pending: map<int, Pending>, now: map<int, Pending>, p: seq<Octet>, rest: seq<seq<Octet>>,
      target: seq<Octet>, source: seq<Octet>)
    requires now.Keys <= pending.Keys && forall key :: key in now ==> now[key] == pending[key]
    requires forall key :: key in now ==> !RepliesTo(p, target, source, key)
    ensures AllSettled(
      Replies(k, t + 1, now, rest, target, source), Credits(now, rest, target, source),
      pending, [p] + rest, target, source)
    decreases |rest|, 1
  {
    hide RepliesTo, AllSettled, Replies, Credits;
    CreditsAreReplies(k, t + 1, now, rest, target, source);
    AllSettledLater(
      Replies(k, t + 1, now, rest, target, source), Credits(now, rest, target, source),
      pending, now, p, rest, target, source);
  }

  // The event of the first packet.
  lemma {:induction false} NowSettled(
      now: int, pending: map<int, Pending>, p: seq<Octet>, rest: seq<seq<Octet>>,
      target: seq<Octet>, source: seq<Octet>)
    requires SegmentIn(p, target, source).Some? && SegmentIn(p, target, source).value.port in pending
    ensures var s := SegmentIn(p, target, source).value;
      SettledIn(
        Resolve(s.port, Classified(s, now - pending[s.port].started)), CreditOf(pending[s.port].port, s),
        pending, [p] + rest, target, source)
  {
    hide SegmentIn;
    var s := SegmentIn(p, target, source).value;
    assert ([p] + rest)[0] == p;
    assert Settled(
      Resolve(s.port, Classified(s, now - pending[s.port].started)), CreditOf(pending[s.port].port, s),
      pending, [p] + rest, 0, target, source);
  }

  // The first segment to some pending source port does not come from the port
  // that was probed from there; if `opening`, only SYN and ACK segments matter.
  ghost predicate Astray(
      pending: map<int, Pending>, packets: seq<seq<Octet>>, target: seq<Octet>, source: seq<Octet>, opening: bool)
  {
    exists port, i: nat :: port in pending && Misled(packets, i, target, source, port, pending[port].port, opening)
  }

  ghost predicate Misled(
      packets: seq<seq<Octet>>, i: nat, target: seq<Octet>, source: seq<Octet>, port: int, asked: int, opening: bool)
  {
    && FirstTo(packets, i, target, source, port)
    && !Due(CreditOf(asked, SegmentIn(packets[i], target, source).value), opening)
  }

  // The credit goes to the port that answered; if `opening`, it need only if the port is an open one.
  predicate Due(c: Credit, opening: bool) { c.asked == c.answered || (opening && !c.accepted) }

  ghost predicate Fair(credits: seq<Credit>, opening: bool) { forall c :: c in credits ==> Due(c, opening) }

  // A first packet that is not to `port` changes only where the next one stands.
  lemma {:induction false} MisledLater(
      p: seq<Octet>, rest: seq<seq<Octet>>, target: seq<Octet>, source: seq<Octet>, port: int, asked: int, i: nat,
      opening: bool)
    requires !RepliesTo(p, target, source, port)
    ensures Misled([p] + rest, i + 1, target, source, port, asked, opening) <==>
      Misled(rest, i, target, source, port, asked, opening)
    ensures !Misled([p] + rest, 0, target, source, port, asked, opening)
  {
    hide SegmentIn, RepliesTo, Due, CreditOf;
    var all := [p] + rest;
    assert all[0] == p && forall j: nat :: j < |rest| ==> all[j + 1] == rest[j];
    if FirstTo(all, i + 1, target, source, port) {
      forall j: nat | j < i ensures !RepliesTo(rest[j], target, source, port) {
        assert all[j + 1] == rest[j];
      }
    }
  }

  // The first packet is to no pending source port.
  lemma {:induction false} AstrayLater(
      pending: map<int, Pending>, p: seq<Octet>, rest: seq<seq<Octet>>, target: seq<Octet>, source: seq<Octet>,
      opening: bool)
    requires forall port :: port in pending ==> !RepliesTo(p, target, source, port)
    ensures Astray(pending, [p] + rest, target, source, opening) <==> Astray(pending, rest, target, source, opening)
  {
    hide RepliesTo, Misled;
    if Astray(pending, [p] + rest, target, source, opening) {
      var port, i: nat :| port in pending && Misled([p] + rest, i, target, source, port, pending[port].port, opening);
      MisledLater(p, rest, target, source, port, pending[port].port, if i > 0 then i - 1 else 0, opening);
    }
    if Astray(pending, rest, target, source, opening) {
      var port, i: nat :| port in pending && Misled(rest, i, target, source, port, pending[port].port, opening);
      MisledLater(p, rest, target, source, port, pending[port].port, i, opening);
      assert Misled([p] + rest, i + 1, target, source, port, pending[port].port, opening);
    }
  }

  // The first packet is to the pending source port `port`.
  lemma {:induction false} AstrayNow(
      pending: map<int, Pending>, p: seq<Octet>, rest: seq<seq<Octet>>, target: seq<Octet>, source: seq<Octet>,
      port: int, opening: bool)
    requires port in pending && RepliesTo(p, target, source, port)
    ensures Astray(pending, [p] + rest, target, source, opening) <==>
      || !Due(CreditOf(pending[port].port, SegmentIn(p, target, source).value), opening)
      || Astray(pending - {port}, rest, target, source, opening)
  {
    var others := pending - {port};
    assert ([p] + rest)[0] == p;
    OnlyFirst(p, rest, target, source, port, pending[port].port, opening);
    assert forall q :: q in others ==> !RepliesTo(p, target, source, q);
    AstrayLater(others, p, rest, target, source, opening);
    hide RepliesTo, Misled, SegmentIn, Due, CreditOf;
    if Astray(pending, [p] + rest, target, source, opening) {
      var q, i: nat :| q in pending && Misled([p] + rest, i, target, source, q, pending[q].port, opening);
      assert q != port ==> q in others && others[q] == pending[q];
    }
    if Astray(others, [p] + rest, target, source, opening) {
      var q, i: nat :| q in others && Misled([p] + rest, i, target, source, q, others[q].port, opening);
      assert q in pending && pending[q] == others[q];
    }
  }

  lemma {:induction false} OnlyFirst(
      p: seq<Octet>, rest: seq<seq<Octet>>, target: seq<Octet>, source: seq<Octet>, port: int, asked: int,
      opening: bool)
    requires RepliesTo(p, target, source, port)
    ensures Misled([p] + rest, 0, target, source, port, asked, opening) <==>
      !Due(CreditOf(asked, SegmentIn(p, target, source).value), opening)
    ensures forall i: nat :: i > 0 ==> !Misled([p] + rest, i, target, source, port, asked, opening)
  {
    hide SegmentIn, RepliesTo, Due, CreditOf;
    assert ([p] + rest)[0] == p;
  }

  /**
    Every probe settled by a run of packets is settled by the port it asked if
    and only if the first segment to each pending source port comes from there.
    Every probe that opens a port is settled by that port if and only if this
    holds of the first segments with SYN and ACK.
  */
  lemma {:induction false} CreditedToTheSender(
      pending: map<int, Pending>, packets: seq<seq<Octet>>, target: seq<Octet>, source: seq<Octet>, opening: bool)
    ensures Fair(Credits(pending, packets, target, source), opening) <==>
      !Astray(pending, packets, target, source, opening)
    decreases |packets|
  {
    hide SegmentIn, Astray, Fair, Due, CreditOf;
    if packets == [] {
      NoneAstray(pending, target, source, opening);
      NoCredits(opening);
    } else {
      var p, rest := packets[0], packets[1..];
      assert packets == [p] + rest;
      match SegmentIn(p, target, source) {
        case None =>
          AstrayLater(pending, p, rest, target, source, opening);
          CreditedToTheSender(pending, rest, target, source, opening);
        case Some(s) =>
          if s.port !in pending {
            AstrayLater(pending, p, rest, target, source, opening);
            CreditedToTheSender(pending, rest, target, source, opening);
          } else {
            AstrayNow(pending, p, rest, target, source, s.port, opening);
            CreditedToTheSender(pending - {s.port}, rest, target, source, opening);
            FairCons(
              CreditOf(pending[s.port].port, s), Credits(pending - {s.port}, rest, target, source), opening);
          }
      }
    }
  }

  lemma {:induction false} NoneAstray(pending: map<int, Pending>, target: seq<Octet>, source: seq<Octet>, opening: bool)
    ensures !Astray(pending, [], target, source, opening)
  { }

  lemma {:induction false} NoCredits(opening: bool)
    ensures Fair([], opening)
  { }

  lemma {:induction false} FairCons(c: Credit, credits: seq<Credit>, opening: bool)
    ensures Fair([c] + credits, opening) <==> Due(c, opening) && Fair(credits, opening)
  {
    assert c in [c] + credits;
    assert forall d :: d in credits ==> d in [c] + credits;
  }

  // ------------------------------------------------------------- over a run

  // The credits of a step: those of the packets of a turn.
  ghost function StepCredits(k: Kernel, l: Ledger, s: Step, target: seq<Octet>, source: seq<Octet>): seq<Credit> {
    if s.turn then Credits(l.active, k.frames(s.from), target, source) else []
  }

  // The credits of a run, one turn after another.
  ghost function RunCredits(
      k: Kernel, timeoutMs: int, target: seq<Octet>, source: seq<Octet>,
      start: Ledger, log: seq<Event>, steps: seq<Step>)
    : seq<Credit>
    requires Explains(start, log, steps, Why(k, timeoutMs, target, source))
    decreases |steps|
  {
    if steps == [] then []
    else
      var most, s := steps[..|steps| - 1], steps[|steps| - 1];
      var earlier := log[..|log| - |s.events|];
      RunCredits(k, timeoutMs, target, source, start, earlier, most)
      + StepCredits(k, Replay(start, earlier), s, target, source)
  }

  // In no turn of the run does a pending source port hear first from another
  // port; if `opening`, with SYN and ACK.
  ghost predicate Straight(
      k: Kernel, timeoutMs: int, target: seq<Octet>, source: seq<Octet>,
      start: Ledger, log: seq<Event>, steps: seq<Step>, opening: bool)
    requires Explains(start, log, steps, Why(k, timeoutMs, target, source))
    decreases |steps|
  {
    steps == []
    || var most, s := steps[..|steps| - 1], steps[|steps| - 1];
       var earlier := log[..|log| - |s.events|];
       && Straight(k, timeoutMs, target, source, start, earlier, most, opening)
       && (s.turn ==> !Astray(Replay(start, earlier).active, k.frames(s.from), target, source, opening))
  }

  lemma {:induction false} FairConcat(a: seq<Credit>, b: seq<Credit>, opening: bool)
    ensures Fair(a + b, opening) <==> Fair(a, opening) && Fair(b, opening)
  {
    hide Due;
    assert forall c :: c in a ==> c in a + b;
    assert forall c :: c in b ==> c in a + b;
  }

  /** Over any run, every probe is settled by the port it asked if and only if no turn goes astray. */
  lemma {:induction false} RunCreditedToTheSender(
      k: Kernel, timeoutMs: int, target: seq<Octet>, source: seq<Octet>,
      start: Ledger, log: seq<Event>, steps: seq<Step>, opening: bool)
    requires Explains(start, log, steps, Why(k, timeoutMs, target, source))
    ensures Fair(RunCredits(k, timeoutMs, target, source, start, log, steps), opening) <==>
      Straight(k, timeoutMs, target, source, start, log, steps, opening)
    decreases |steps|
  {
    hide Replayable, Replay, Astray, Fair, Credits, Why;
    NoCredits(opening);
    if steps != [] {
      var most, s := steps[..|steps| - 1], steps[|steps| - 1];
      var earlier := log[..|log| - |s.events|];
      var l := Replay(start, earlier);
      RunCreditedToTheSender(k, timeoutMs, target, source, start, earlier, most, opening);
      if s.turn { CreditedToTheSender(l.active, k.frames(s.from), target, source, opening); }
      FairConcat(
        RunCredits(k, timeoutMs, target, source, start, earlier, most), StepCredits(k, l, s, target, source), opening);
    }
  }

  // The ports that credits open: those asked, and those that answered.
  function Asked(credits: seq<Credit>): seq<int> {
    if credits == [] then []
    else (if credits[0].accepted then [credits[0].asked] else []) + Asked(credits[1..])
  }

  function Answered(credits: seq<Credit>): seq<int> {
    if credits == [] then []
    else (if credits[0].accepted then [credits[0].answered] else []) + Answered(credits[1..])
  }

  function PortsIn(open: seq<TcpOpen>): seq<int> { seq(|open|, i requires 0 <= i < |open| => open[i].port) }

  lemma {:induction false} AskedFirst(a: seq<Credit>)
    requires a != []
    ensures Asked(a) == (if a[0].accepted then [a[0].asked] else []) + Asked(a[1..])
  { }

  lemma {:induction false} AskedConcat(a: seq<Credit>, b: seq<Credit>)
    ensures Asked(a + b) == Asked(a) + Asked(b)
    decreases |a|
  {
    if a == [] {
      assert a + b == b;
    } else {
      assert (a + b)[1..] == a[1..] + b && (a + b)[0] == a[0];
      AskedConcat(a[1..], b);
      AskedFirst(a);
      AskedFirst(a + b);
      hide Asked;
    }
  }

  lemma {:induction false} SameCons<T>(x: T, a: seq<T>, y: T, b: seq<T>)
    ensures [x] + a == [y] + b <==> x == y && a == b
  {
    assert ([x] + a)[0] == x && ([y] + b)[0] == y && ([x] + a)[1..] == a && ([y] + b)[1..] == b;
  }

  lemma {:induction false} FairIsSame(credits: seq<Credit>)
    ensures |Asked(credits)| == |Answered(credits)|
    ensures Fair(credits, true) <==> Asked(credits) == Answered(credits)
    decreases |credits|
  {
    if credits != [] {
      var c, rest := credits[0], credits[1..];
      assert credits == [c] + rest;
      FairCons(c, rest, true);
      FairIsSame(rest);
      SameCons(c.asked, Asked(rest), c.answered, Answered(rest));
      assert Asked(credits) == if c.accepted then [c.asked] + Asked(rest) else Asked(rest);
      assert Answered(credits) == if c.accepted then [c.answered] + Answered(rest) else Answered(rest);
    }
  }

  /**
    Over any run, the ports reported open are those that the credits ask, in
    order, and they are the ports that answered with SYN and ACK if and only if
    no pending source port first heard so from another port.
  */
  lemma {:induction false} OpenAsAnswered(
      k: Kernel, timeoutMs: int, target: seq<Octet>, source: seq<Octet>,
      start: Ledger, log: seq<Event>, steps: seq<Step>)
    requires Replayable(start, log) && Explains(start, log, steps, Why(k, timeoutMs, target, source))
    requires start.out.open == []
    ensures var credits := RunCredits(k, timeoutMs, target, source, start, log, steps);
      && PortsIn(Replay(start, log).out.open) == Asked(credits)
      && (PortsIn(Replay(start, log).out.open) == Answered(credits) <==>
          Straight(k, timeoutMs, target, source, start, log, steps, true))
  {
    hide *;
    OpenIsCredited(k, timeoutMs, target, source, start, log, steps);
    FairIsSame(RunCredits(k, timeoutMs, target, source, start, log, steps));
    RunCreditedToTheSender(k, timeoutMs, target, source, start, log, steps, true);
  }

  lemma {:induction false} OpenIsCredited(
      k: Kernel, timeoutMs: int, target: seq<Octet>, source: seq<Octet>,
      start: Ledger, log: seq<Event>, steps: seq<Step>)
    requires Replayable(start, log) && Explains(start, log, steps, Why(k, timeoutMs, target, source))
    requires start.out.open == []
    ensures PortsIn(Replay(start, log).out.open)
      == Asked(RunCredits(k, timeoutMs, target, source, start, log, steps))
    decreases |steps|
  {
    hide Replayable, Replay, Fits, Asked, StepCredits, PortsIn;
    if steps == [] {
      NothingReplayed(start);
      NothingAsked();
    } else {
      var most, s := steps[..|steps| - 1], steps[|steps| - 1];
      var earlier := log[..|log| - |s.events|];
      var l := Replay(start, earlier);
      OpenIsCredited(k, timeoutMs, target, source, start, earlier, most);
      assert log == earlier + s.events;
      ReplaySplit(start, earlier, s.events);
      StepOpens(k, timeoutMs, target, source, l, s);
      AskedConcat(
        RunCredits(k, timeoutMs, target, source, start, earlier, most), StepCredits(k, l, s, target, source));
    }
  }

  lemma {:induction false} NothingAsked()
    ensures PortsIn([]) == Asked([]) == []
  { }

  // What a step adds to the open ports.
  lemma {:induction false} StepOpens(
      k: Kernel, timeoutMs: int, target: seq<Octet>, source: seq<Octet>, l: Ledger, s: Step)
    requires Fits(k, timeoutMs, target, source, l, s) && Replayable(l, s.events)
    ensures PortsIn(Replay(l, s.events).out.open)
      == PortsIn(l.out.open) + Asked(StepCredits(k, l, s, target, source))
  {
    hide Replayable, Replay, Replies, Credits, Asked, PortsIn, Allocated, AnsweredThenSwept;
    if s.turn {
      TurnOpens(k, timeoutMs, target, source, l, s.from + 1, k.frames(s.from), s.events, k.now(s.upto - 1));
    } else {
      NothingAsked();
      ReplayOne(l, s.events[0]);
    }
  }

  lemma {:induction false} TurnOpens(
      k: Kernel, timeoutMs: int, target: seq<Octet>, source: seq<Octet>,
      l: Ledger, t: nat, packets: seq<seq<Octet>>, events: seq<Event>, now: int)
    requires AnsweredThenSwept(l, events, Replies(k, t, l.active, packets, target, source), now, timeoutMs)
    requires Replayable(l, events)
    ensures PortsIn(Replay(l, events).out.open)
      == PortsIn(l.out.open) + Asked(Credits(l.active, packets, target, source))
  {
    hide Replayable, Replay, Replies, Credits, Asked, PortsIn;
    var answers := Replies(k, t, l.active, packets, target, source);
    RepliesOpen(k, t, l, packets, target, source);
    var sweep := events[|answers|..];
    assert events == answers + sweep;
    ReplaySplit(l, answers, sweep);
    ExpiriesOpenNone(Replay(l, answers), sweep);
  }

  lemma {:induction false} ExpiriesOpenNone(l: Ledger, events: seq<Event>)
    requires Replayable(l, events) && forall e :: e in events ==> e.Expire?
    ensures Replay(l, events).out.open == l.out.open
    decreases |events|
  {
    hide Tally;
    if events == [] {
      NothingReplayed(l);
    } else {
      assert Last(events) in events;
      ExpiriesOpenNone(l, Most(events));
    }
  }

  // What a run of packets adds to the open ports.
  lemma {:induction false} RepliesOpen(
      k: Kernel, t: nat, l: Ledger, packets: seq<seq<Octet>>, target: seq<Octet>, source: seq<Octet>)
    requires Replayable(l, Replies(k, t, l.active, packets, target, source))
    ensures PortsIn(Replay(l, Replies(k, t, l.active, packets, target, source)).out.open)
      == PortsIn(l.out.open) + Asked(Credits(l.active, packets, target, source))
    decreases |packets|
  {
    hide SegmentIn, Replayable, Replay, Asked, PortsIn, CreditOf, Classified, Apply;
    NothingAsked();
    if packets == [] {
      NothingReplayed(l);
    } else {
      match SegmentIn(packets[0], target, source) {
        case None => RepliesOpen(k, t + 1, l, packets[1..], target, source);
        case Some(s) =>
          if s.port !in l.active {
            RepliesOpen(k, t + 1, l, packets[1..], target, source);
          } else {
            var e := Resolve(s.port, Classified(s, k.now(t) - l.active[s.port].started));
            var others := l.active - {s.port};
            ReplaySplit(l, [e], Replies(k, t + 1, others, packets[1..], target, source));
            ReplayOne(l, e);
            OneReplyOpens(k.now(t), l, s);
            RepliesOpen(k, t + 1, Apply(l, e), packets[1..], target, source);
            AskedConcat([CreditOf(l.active[s.port].port, s)], Credits(others, packets[1..], target, source));
          }
      }
    }
  }

  lemma {:induction false} OneReplyOpens(now: int, l: Ledger, s: Segment)
    requires s.port in l.active
    ensures var e := Resolve(s.port, Classified(s, now - l.active[s.port].started));
      && Apply(l, e).active == l.active - {s.port}
      && PortsIn(Apply(l, e).out.open) == PortsIn(l.out.open) + Asked([CreditOf(l.active[s.port].port, s)])
  { }

  // SYN and ACK from `port` of the target.
  predicate Accepts(p: seq<Octet>, target: seq<Octet>, source: seq<Octet>, port: int) {
    match SegmentIn(p, target, source)
    case None => false
    case Some(s) => s.sender == port && s.syn && s.ack
  }

  ghost predicate AcceptedIn(packets: seq<seq<Octet>>, target: seq<Octet>, source: seq<Octet>, port: int) {
    exists p :: p in packets && Accepts(p, target, source, port)
  }

  // Some turn received the port's SYN and ACK.
  ghost predicate HeardFrom(k: Kernel, steps: seq<Step>, target: seq<Octet>, source: seq<Octet>, port: int) {
    exists s :: s in steps && s.turn && AcceptedIn(k.frames(s.from), target, source, port)
  }

  // Whoever answered and accepted a port has sent SYN and ACK.
  lemma {:induction false} AnsweredIsHeard(
      pending: map<int, Pending>, packets: seq<seq<Octet>>, target: seq<Octet>, source: seq<Octet>)
    ensures forall c :: c in Credits(pending, packets, target, source) && c.accepted ==>
      AcceptedIn(packets, target, source, c.answered)
    decreases |packets|
  {
    hide SegmentIn;
    if packets != [] {
      AnsweredIsHeard(pending, packets[1..], target, source);
      match SegmentIn(packets[0], target, source) {
        case None =>
        case Some(s) =>
          AnsweredIsHeard(pending - {s.port}, packets[1..], target, source);
          assert s.syn && s.ack ==> Accepts(packets[0], target, source, s.sender);
      }
    }
  }

  lemma {:induction false} RunIsHeard(
      k: Kernel, timeoutMs: int, target: seq<Octet>, source: seq<Octet>,
      start: Ledger, log: seq<Event>, steps: seq<Step>)
    requires Explains(start, log, steps, Why(k, timeoutMs, target, source))
    ensures forall c :: c in RunCredits(k, timeoutMs, target, source, start, log, steps) && c.accepted ==>
      HeardFrom(k, steps, target, source, c.answered)
    decreases |steps|
  {
    hide Replayable, Replay, Credits, Why, AcceptedIn;
    if steps != [] {
      var most, s := steps[..|steps| - 1], steps[|steps| - 1];
      var earlier := log[..|log| - |s.events|];
      var l := Replay(start, earlier);
      RunIsHeard(k, timeoutMs, target, source, start, earlier, most);
      if s.turn { AnsweredIsHeard(l.active, k.frames(s.from), target, source); }
      assert s in steps && forall r :: r in most ==> r in steps;
    }
  }

  lemma {:induction false} AskedBy(credits: seq<Credit>)
    ensures forall port :: port in Asked(credits) ==> exists c :: c in credits && c.accepted && c.asked == port
    decreases |credits|
  {
    if credits != [] {
      AskedBy(credits[1..]);
      assert credits[0] in credits && forall c :: c in credits[1..] ==> c in credits;
    }
  }

  /** So over a run that meets this condition each port reported open has itself answered with SYN and ACK. */
  lemma {:induction false} OpenHasAnswered(
      k: Kernel, timeoutMs: int, target: seq<Octet>, source: seq<Octet>,
      start: Ledger, log: seq<Event>, steps: seq<Step>)
    requires Replayable(start, log) && Explains(start, log, steps, Why(k, timeoutMs, target, source))
    requires Straight(k, timeoutMs, target, source, start, log, steps, true) && start.out.open == []
    ensures forall o :: o in Replay(start, log).out.open ==> HeardFrom(k, steps, target, source, o.port)
  {
    hide Replayable, Replay, Explains, Why, Straight, RunCredits, HeardFrom, Asked;
    var credits, open := RunCredits(k, timeoutMs, target, source, start, log, steps), Replay(start, log).out.open;
    OpenIsCredited(k, timeoutMs, target, source, start, log, steps);
    RunCreditedToTheSender(k, timeoutMs, target, source, start, log, steps, true);
    RunIsHeard(k, timeoutMs, target, source, start, log, steps);
    AskedBy(credits);
    forall o | o in open ensures HeardFrom(k, steps, target, source, o.port) {
      var i :| 0 <= i < |open| && open[i] == o;
      assert PortsIn(open)[i] == o.port;
      assert o.port in Asked(credits);
      var c :| c in credits && c.accepted && c.asked == o.port;
    }
  }

  // ----------------------------------------------------------------- a witness

  const TARGET: seq<Octet> := [10, 0, 0, 2]
  const SOURCE: seq<Octet> := [10, 0, 0, 1]

  const IP: seq<Octet> := [69, 0, 0, 40, 0, 0, 64, 0, 64, 6, 0, 0]

  // SYN and ACK from port 81 to port 20001.
  const TCP: seq<Octet> := [0, 81, 78, 33, 0, 0, 0, 0, 0, 0, 0, 0, 80, 18, 0, 0, 0, 0, 0, 0]

  const FROM_PORT_81: seq<Octet> := IP + TARGET + SOURCE + TCP

  /** With port 80 asked from there, it is port 80 that is reported open. */
  lemma {:induction false} WrongPortReported(k: Kernel, t: nat, sent: int)
    ensures var pending := map[20001 := Pending(20001, 80, sent)];
      && Replies(k, t, pending, [FROM_PORT_81], TARGET, SOURCE) == [Resolve(20001, Connected(k.now(t) - sent))]
      && Credits(pending, [FROM_PORT_81], TARGET, SOURCE) == [Credit(80, 81, true)]
      && !Fair(Credits(pending, [FROM_PORT_81], TARGET, SOURCE), true)
  {
    var pending := map[20001 := Pending(20001, 80, sent)];
    WrongPortSegment();
    assert [FROM_PORT_81][1..] == [];
    assert Credit(80, 81, true) in Credits(pending, [FROM_PORT_81], TARGET, SOURCE);
  }

  lemma {:induction false} WrongPortSegment()
    ensures SegmentIn(FROM_PORT_81, TARGET, SOURCE) == Some(Segment(81, 20001, true, true, false))
  {
    hide SegmentIn;
    SegmentOf(IP, TARGET, SOURCE, TCP);
    assert Word(0, 81) == 81 && Word(78, 33) == 20001;
    assert Bit(18, 2) && Bit(18, 16) && !Bit(18, 4);
  }

  // A segment behind an IP header without options.
  lemma {:induction false} SegmentOf(ip: seq<Octet>, target: seq<Octet>, source: seq<Octet>, tcp: seq<Octet>)
    requires |ip| == 12 && ip[0] == 69 && ip[9] == 6 && |target| == |source| == 4 && |tcp| == 20
    ensures SegmentIn(ip + target + source + tcp, target, source) ==
      Some(Segment(Word(tcp[0], tcp[1]), Word(tcp[2], tcp[3]), Bit(tcp[13], 2), Bit(tcp[13], 16), Bit(tcp[13], 4)))
  {
    hide Word, Bit;
    var p := ip + target + source + tcp;
    assert p[0] == ip[0] && p[9] == ip[9];
    assert p[12..16] == target && p[16..20] == source && p[20..] == tcp;
  }
}
