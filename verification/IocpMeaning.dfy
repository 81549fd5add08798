/** What the results of scan_connect_worker_iocp mean: which answers of the kernel they count, and as what. */
module IocpMeaning {
  import opened Counting
  import opened IocpWorker
  import opened Kernel
  import opened Readings
  import opened ScanLedger

  // What is said when the next port is launched at tick `t`; nothing if it is
  // left waiting. The sockets in use are those of the connections in flight.
  ghost function LaunchReads(k: Kernel, l: Ledger, t: nat): seq<Reading>
    requires l.next < |l.ports|
  {
    var port := l.ports[l.next];
    var used := set key | key in l.active :: l.active[key].handle;
    if k.socket(t, used) == -1 then [Reading(port, NoSocket, 0)]
    else if !(k.accept(t + 2) && k.accept(t + 3)) then [Reading(port, NotSet, 0)]
    else if k.connect(t + 4) != InProgress then
      [Reading(port, Answer(k.connect(t + 4)), k.now(t + 5) - k.now(t + 1))]
    else []
  }

  // What is said of the connection that the packet names, if it is in flight.
  function PacketReads(k: Kernel, t: nat, active: map<int, Pending>): seq<Reading> {
    if k.packet(t) !in active then []
    else
      var p := active[k.packet(t)];
      [Reading(p.port, Read(k.accept(t), k.error(t + 1)), k.now(t + 2) - p.started)]
  }

  ghost function Reads(k: Kernel): (Ledger, Step) -> seq<Reading> {
    (l: Ledger, s: Step) =>
      if s.turn then PacketReads(k, s.from, l.active)
      else if l.next < |l.ports| then LaunchReads(k, l, s.from)
      else []
  }

  lemma {:induction false} StepFollows(k: Kernel, timeoutMs: int, l: Ledger, s: Step)
    requires Fits(k, timeoutMs, l, s) && Replayable(l, s.events)
    ensures Adds(l.out, Replay(l, s.events).out, Reads(k)(l, s), Expiries(s.events))
  {
    hide Replay, Adds, AnsweredThenSwept, Tally;
    if s.turn {
      TurnAdds(
        l, s.events, Completion(k, s.from, l.active), PacketReads(k, s.from, l.active), k.now(s.from + 3), timeoutMs);
    } else {
      var e := LaunchEvent(k, s.from, Handles(l.active), l.next);
      ReplayOne(l, e);
      LaunchAdds(l, e, LaunchReads(k, l, s.from));
    }
  }

  /**
    Over any run of the worker: the open ports, with their times, are in order
    those connected at once or completed without error, refused counts the
    refusals, and other counts everything else that was said.
  */
  lemma {:induction false} WorkerMeans(k: Kernel, timeoutMs: int, start: Ledger, log: seq<Event>, steps: seq<Step>)
    requires Replayable(start, log) && Explains(start, log, steps, Why(k, timeoutMs)) && start.out == NOTHING
    ensures var out, ds := Replay(start, log).out, RunReadings(start, log, steps, Why(k, timeoutMs), Reads(k));
      && out.open == Opens(ds)
      && out.refused == Count(ds, RefusedReading()) && out.other == Count(ds, OtherReading())
      && out.timeouts == Expiries(log)
  {
    hide Replayable, Replay, Fits, Reads, Explains, Count;
    forall l: Ledger, s: Step | Why(k, timeoutMs)(l, s) && Replayable(l, s.events)
      ensures Adds(l.out, Replay(l, s.events).out, Reads(k)(l, s), Expiries(s.events))
    {
      StepFollows(k, timeoutMs, l, s);
    }
    RunAdds(start, log, steps, Why(k, timeoutMs), Reads(k));
  }
}
