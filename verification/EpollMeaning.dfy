/** What the results of scan_connect_worker_epoll mean: which answers of the kernel they count, and as what. */
module EpollMeaning {
  import opened Counting
  import opened EpollWorker
  import opened Kernel
  import opened Readings
  import opened ScanLedger

  // What is said when the next port is launched at tick `t`; nothing if it is left waiting.
  function LaunchReads(k: Kernel, l: Ledger, t: nat): seq<Reading>
    requires l.next < |l.ports|
  {
    var port := l.ports[l.next];
    if k.socket(t, l.active.Keys) == -1 then [Reading(port, NoSocket, 0)]
    else if k.connect(t + 2) != InProgress then
      [Reading(port, Answer(k.connect(t + 2)), k.now(t + 3) - k.now(t + 1))]
    else if !k.accept(t + 3) then [Reading(port, NotSet, 0)]
    else []
  }

  // What SO_ERROR says of the reported descriptors that are in flight, each the first time.
  function TurnReads(k: Kernel, t: nat, now: int, active: map<int, Pending>, fds: seq<int>): seq<Reading>
    decreases |fds|
  {
    if fds == [] then []
    else if fds[0] !in active then TurnReads(k, t + 1, now, active, fds[1..])
    else
      var p := active[fds[0]];
      [Reading(p.port, Read(true, k.error(t)), now - p.started)]
      + TurnReads(k, t + 1, now, active - {fds[0]}, fds[1..])
  }

  // Descriptor `i` of the report is in flight, reported for the first time, and `d` is what its SO_ERROR says.
  ghost predicate ReadAt(
      k: Kernel, t: nat, now: int, active: map<int, Pending>, fds: seq<int>, i: nat, d: Reading)
  {
    && i < |fds| && fds[i] in active && (forall j :: 0 <= j < i ==> fds[j] != fds[i])
    && d == Reading(active[fds[i]].port, Read(true, k.error(t + i)), now - active[fds[i]].started)
  }

  /** A descriptor is read exactly when it is in flight, the first time that it is reported. */
  lemma {:induction false} TurnReadsMean(
      k: Kernel, t: nat, now: int, active: map<int, Pending>, fds: seq<int>, d: Reading)
    ensures d in TurnReads(k, t, now, active, fds) <==> exists i: nat :: ReadAt(k, t, now, active, fds, i, d)
    decreases |fds|
  {
    if fds != [] {
      var s, rest := fds[0], fds[1..];
      var left, u := active - {s}, t + 1;
      TurnReadsMean(k, u, now, left, rest, d);
      if i: nat :| ReadAt(k, u, now, left, rest, i, d) {
        assert fds[i + 1] == rest[i] && forall j :: 1 <= j <= i ==> fds[j] == rest[j - 1];
        assert ReadAt(k, t, now, active, fds, i + 1, d);
      }
      if i: nat :| ReadAt(k, t, now, active, fds, i, d) {
        if i > 0 {
          assert rest[i - 1] == fds[i] && forall j :: 0 <= j < i - 1 ==> rest[j] == fds[j + 1];
          assert ReadAt(k, u, now, left, rest, i - 1, d);
        }
      }
      if s in active {
        var first := Reading(active[s].port, Read(true, k.error(t)), now - active[s].started);
        assert ReadAt(k, t, now, active, fds, 0, first);
      } else {
        assert active - {s} == active;
      }
    }
  }

  ghost function Reads(k: Kernel): (Ledger, Step) -> seq<Reading> {
    (l: Ledger, s: Step) =>
      if s.turn then TurnReads(k, s.from + 2, k.now(s.from + 1), l.active, k.wait(s.from, l.active.Keys))
      else if l.next < |l.ports| then LaunchReads(k, l, s.from)
      else []
  }

  lemma {:induction false} TurnResolved(
      k: Kernel, t: nat, now: int, before: map<int, Pending>, active: map<int, Pending>, fds: seq<int>)
    requires forall key :: key in active ==> key in before && active[key] == before[key]
    ensures Resolved(before, Completions(k, t, now, active, fds), TurnReads(k, t, now, active, fds))
    decreases |fds|
  {
    if fds != [] {
      if fds[0] in active {
        TurnResolved(k, t + 1, now, before, active - {fds[0]}, fds[1..]);
      } else {
        TurnResolved(k, t + 1, now, before, active, fds[1..]);
      }
    }
  }

  lemma {:induction false} StepFollows(k: Kernel, timeoutMs: int, l: Ledger, s: Step)
    requires Fits(k, timeoutMs, l, s) && Replayable(l, s.events)
    ensures Adds(l.out, Replay(l, s.events).out, Reads(k)(l, s), Expiries(s.events))
  {
    hide Replay, Adds, AnsweredThenSwept, Completions, TurnReads, Resolved, Tally;
    if s.turn {
      var now, fds := k.now(s.from + 1), k.wait(s.from, l.active.Keys);
      TurnResolved(k, s.from + 2, now, l.active, l.active, fds);
      TurnAdds(
        l, s.events, Completions(k, s.from + 2, now, l.active, fds), TurnReads(k, s.from + 2, now, l.active, fds),
        now, timeoutMs);
    } else {
      var e := LaunchEvent(k, s.from, l.active.Keys);
      ReplayOne(l, e);
      LaunchAdds(l, e, LaunchReads(k, l, s.from));
    }
  }

  /**
    Over any run of the worker: the open ports, with their times, are in order
    those connected at once or read without error, refused counts the refusals,
    and other counts everything else that was said.
  */
  lemma {:induction false} WorkerMeans(k: Kernel, timeoutMs: int, start: Ledger, log: seq<Event>, steps: seq<Step>)
    requires Replayable(start, log) && Explains(start, log, steps, Why(k, timeoutMs)) && start.out == NOTHING
    ensures var out, ds := Replay(start, log).out, RunReadings(start, log, steps, Why(k, timeoutMs), Reads(k));
      && out.open == Opens(ds)
      && out.refused == Count(ds, RefusedReading()) && out.other == Count(ds, OtherReading())
      && out.timeouts == Expiries(log)
  {
    hide Replayable, Replay, Fits, Reads, Explains, Count;
    forall l: Ledger, s: Step | Why(k, timeoutMs)(l, s) && Replayable(l, s.events)
      ensures Adds(l.out, Replay(l, s.events).out, Reads(k)(l, s), Expiries(s.events))
    {
      StepFollows(k, timeoutMs, l, s);
    }
    RunAdds(start, log, steps, Why(k, timeoutMs), Reads(k));
  }
}
