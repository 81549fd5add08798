/**
  What the kernel said of a port, uninterpreted, and what a scanner's counters
  have to make of it. The scanners are proved against this, each over its own runs.
*/
module Readings {
  import opened Counting
  import opened Kernel
  import opened ScanLedger

  // No socket or source port; a set-up call that failed; the answer of connect;
  // whether the call that delivers a result succeeded, and SO_ERROR; the flag
  // octet of a TCP segment.
  datatype Said =
    | NoSocket
    | NotSet
    | Answer(c: Connect)
    | Read(ok: bool, e: SocketError)
    | Heard(flags: Octet)

  // What was said of a port, and how many milliseconds after it was started.
  datatype Reading = Reading(port: int, said: Said, ms: int)

  // Connected at once, without error, or SYN and ACK: bits 1 and 4 of the flag octet.
  predicate SaysOpen(s: Said) {
    match s
    case Answer(c) => c == Established
    case Read(ok, e) => ok && e == NoError
    case Heard(f) => f % 4 >= 2 && f % 32 >= 16
    case _ => false
  }

  // Refused, or RST: bit 2 of the flag octet.
  predicate SaysRefused(s: Said) {
    match s
    case Answer(c) => c == Error(true)
    case Read(ok, e) => e == RefusedError
    case Heard(f) => !(f % 4 >= 2 && f % 32 >= 16) && f % 8 >= 4
    case _ => false
  }

  function OpenReading(): Reading -> bool { (d: Reading) => SaysOpen(d.said) }

  function RefusedReading(): Reading -> bool { (d: Reading) => SaysRefused(d.said) }

  function OtherReading(): Reading -> bool { (d: Reading) => !SaysOpen(d.said) && !SaysRefused(d.said) }

  // The ports that the readings say are open, in order.
  function Opens(ds: seq<Reading>): seq<TcpOpen> {
    if ds == [] then []
    else
      var d := ds[|ds| - 1];
      Opens(ds[..|ds| - 1]) + if SaysOpen(d.said) then [TcpOpen(d.port, d.ms)] else []
  }

  /**
    From one result to the other each reading was counted once, by what it says,
    and besides there were so many timeouts.
  */
  ghost predicate Adds(before: WorkerResult, after: WorkerResult, ds: seq<Reading>, expired: nat) {
    && after.open == before.open + Opens(ds)
    && after.refused == before.refused + Count(ds, RefusedReading())
    && after.other == before.other + Count(ds, OtherReading())
    && after.timeouts == before.timeouts + expired
  }

  /** A port is among them exactly when some reading says that it is open. */
  lemma {:induction false} OpensMean(ds: seq<Reading>, o: TcpOpen)
    ensures o in Opens(ds) <==> exists d :: d in ds && SaysOpen(d.said) && o == TcpOpen(d.port, d.ms)
    decreases |ds|
  {
    hide SaysOpen;
    if ds != [] {
      var n := |ds| - 1;
      OpensMean(ds[..n], o);
      assert ds == ds[..n] + [ds[n]];
    }
  }

  lemma {:induction false} OpensConcat(a: seq<Reading>, b: seq<Reading>)
    ensures Opens(a + b) == Opens(a) + Opens(b)
    decreases |b|
  {
    if b == [] {
      assert a + b == a;
    } else {
      assert (a + b)[..|a + b| - 1] == a + b[..|b| - 1];
      OpensConcat(a, b[..|b| - 1]);
    }
  }

  lemma {:induction false} AddsNothing(r: WorkerResult)
    ensures Adds(r, r, [], 0)
  { }

  lemma {:induction false} AddsTrans(
      a: WorkerResult, b: WorkerResult, c: WorkerResult, ds: seq<Reading>, es: seq<Reading>, m: nat, n: nat)
    requires Adds(a, b, ds, m) && Adds(b, c, es, n)
    ensures Adds(a, c, ds + es, m + n)
  {
    hide Opens, Count;
    OpensConcat(ds, es);
    CountConcat(ds, es, RefusedReading());
    CountConcat(ds, es, OtherReading());
  }

  // The verdict is what the reading says.
  predicate Gives(v: Verdict, d: Reading) {
    match v
    case Connected(ms) => SaysOpen(d.said) && ms == d.ms
    case Refused => SaysRefused(d.said)
    case Failed => !SaysOpen(d.said) && !SaysRefused(d.said)
  }

  lemma {:induction false} NotBoth(s: Said)
    ensures !(SaysOpen(s) && SaysRefused(s))
  { }

  lemma {:induction false} TallyAdds(out: WorkerResult, v: Verdict, d: Reading)
    requires Gives(v, d)
    ensures Adds(out, Tally(out, d.port, v), [d], 0)
  {
    hide SaysOpen, SaysRefused;
    NotBoth(d.said);
    assert [d][..0] == [];
    assert Opens([]) == [] && Count([], RefusedReading()) == Count([], OtherReading()) == 0;
  }

  // ----------------------------------------------------- events and readings

  // Resolutions of connections in flight, and what was read of each.
  ghost predicate Resolved(active: map<int, Pending>, events: seq<Event>, ds: seq<Reading>) {
    |events| == |ds| && forall j :: 0 <= j < |events| ==> ResolvedBy(active, events[j], ds[j])
  }

  ghost predicate ResolvedBy(active: map<int, Pending>, e: Event, d: Reading) {
    e.Resolve? && e.key in active && d.port == active[e.key].port && Gives(e.verdict, d)
  }

  lemma {:induction false} ResolvesAdd(l: Ledger, events: seq<Event>, ds: seq<Reading>)
    requires Replayable(l, events) && Resolved(l.active, events, ds)
    ensures Adds(l.out, Replay(l, events).out, ds, 0)
    ensures forall k :: k in Replay(l, events).active ==> k in l.active && Replay(l, events).active[k] == l.active[k]
    decreases |events|
  {
    hide Gives, Adds, Tally;
    if events == [] {
      AddsNothing(l.out);
    } else {
      var n := |events| - 1;
      var m := Replay(l, Most(events));
      assert forall j :: 0 <= j < n ==> Most(events)[j] == events[j];
      ResolvesAdd(l, Most(events), ds[..n]);
      TallyAdds(m.out, events[n].verdict, ds[n]);
      AddsTrans(l.out, m.out, Replay(l, events).out, ds[..n], [ds[n]], 0, 0);
      assert ds == ds[..n] + [ds[n]];
    }
  }

  function Expiries(log: seq<Event>): nat { Count(log, (e: Event) => e.Expire?) }

  lemma {:induction false} ExpiriesAdd(l: Ledger, events: seq<Event>)
    requires Replayable(l, events) && forall e :: e in events ==> e.Expire?
    ensures Adds(l.out, Replay(l, events).out, [], |events|) && Expiries(events) == |events|
    decreases |events|
  {
    if events == [] {
      AddsNothing(l.out);
    } else {
      assert Last(events) in events;
      ExpiriesAdd(l, Most(events));
    }
  }

  lemma {:induction false} NoExpiries(events: seq<Event>)
    requires forall e :: e in events ==> !e.Expire?
    ensures Expiries(events) == 0
    decreases |events|
  {
    if events != [] {
      assert events[|events| - 1] in events;
      NoExpiries(events[..|events| - 1]);
    }
  }

  // A turn: what was read of the connections, then the sweep.
  lemma {:induction false} TurnAdds(
      l: Ledger, events: seq<Event>, answers: seq<Event>, ds: seq<Reading>, now: int, timeoutMs: int)
    requires Replayable(l, events) && AnsweredThenSwept(l, events, answers, now, timeoutMs)
    requires Resolved(l.active, answers, ds)
    ensures Adds(l.out, Replay(l, events).out, ds, Expiries(events))
  {
    hide Replayable, Replay, Adds, ResolvedBy, Count;
    var sweep := events[|answers|..];
    assert events == answers + sweep;
    ReplaySplit(l, answers, sweep);
    ResolvesAdd(l, answers, ds);
    ExpiriesAdd(Replay(l, answers), sweep);
    AddsTrans(l.out, Replay(l, answers).out, Replay(l, events).out, ds, [], 0, |sweep|);
    assert ds + [] == ds;
    forall e | e in answers ensures !e.Expire? {
      var j :| 0 <= j < |answers| && answers[j] == e;
      assert ResolvedBy(l.active, answers[j], ds[j]) ==> answers[j].Resolve? by {
        ResolvedIsResolve(l.active, answers[j], ds[j]);
      }
    }
    NoExpiries(answers);
    CountConcat(answers, sweep, (e: Event) => e.Expire?);
  }

  lemma {:induction false} ResolvedIsResolve(active: map<int, Pending>, e: Event, d: Reading)
    ensures ResolvedBy(active, e, d) ==> e.Resolve?
  { }

  // ------------------------------------------------------------ over a run

  // What the kernel said over a run, step by step.
  ghost function RunReadings(
      start: Ledger, log: seq<Event>, steps: seq<Step>, fits: (Ledger, Step) -> bool,
      read: (Ledger, Step) -> seq<Reading>)
    : seq<Reading>
    requires Explains(start, log, steps, fits)
    decreases |steps|
  {
    if steps == [] then []
    else
      var most, s := steps[..|steps| - 1], steps[|steps| - 1];
      var earlier := log[..|log| - |s.events|];
      RunReadings(start, earlier, most, fits, read) + read(Replay(start, earlier), s)
  }

  // The counters follow what is read in every step that fits.
  ghost predicate Follows(fits: (Ledger, Step) -> bool, read: (Ledger, Step) -> seq<Reading>) {
    forall l: Ledger, s: Step :: fits(l, s) && Replayable(l, s.events) ==>
      Adds(l.out, Replay(l, s.events).out, read(l, s), Expiries(s.events))
  }

  lemma {:induction false} RunAdds(
      start: Ledger, log: seq<Event>, steps: seq<Step>, fits: (Ledger, Step) -> bool,
      read: (Ledger, Step) -> seq<Reading>)
    requires Replayable(start, log) && Explains(start, log, steps, fits) && Follows(fits, read)
    ensures Adds(start.out, Replay(start, log).out, RunReadings(start, log, steps, fits, read), Expiries(log))
    decreases |steps|
  {
    hide Replayable, Replay, Adds, Count, Follows;
    if steps == [] {
      NothingAdded(start);
    } else {
      var most, s := steps[..|steps| - 1], steps[|steps| - 1];
      var earlier := log[..|log| - |s.events|];
      var l := Replay(start, earlier);
      RunAdds(start, earlier, most, fits, read);
      assert log == earlier + s.events;
      ReplaySplit(start, earlier, s.events);
      StepAdds(l, s, fits, read);
      AddsTrans(
        start.out, l.out, Replay(start, log).out,
        RunReadings(start, earlier, most, fits, read), read(l, s), Expiries(earlier), Expiries(s.events));
      CountConcat(earlier, s.events, (e: Event) => e.Expire?);
    }
  }

  lemma {:induction false} NothingAdded(start: Ledger)
    ensures Replayable(start, []) && Adds(start.out, Replay(start, []).out, [], 0) && Expiries([]) == 0
  { }

  lemma {:induction false} StepAdds(
      l: Ledger, s: Step, fits: (Ledger, Step) -> bool, read: (Ledger, Step) -> seq<Reading>)
    requires Follows(fits, read) && fits(l, s) && Replayable(l, s.events)
    ensures Adds(l.out, Replay(l, s.events).out, read(l, s), Expiries(s.events))
  { }

  // A launch of which something was said at once, or nothing.
  lemma {:induction false} LaunchAdds(l: Ledger, e: Event, ds: seq<Reading>)
    requires Replayable(l, [e]) && l.next < |l.ports|
    requires match e
      case Settle(v) => |ds| == 1 && ds[0].port == l.ports[l.next] && Gives(v, ds[0])
      case Launch(_, _, _) => ds == []
      case _ => false
    ensures Adds(l.out, Replay(l, [e]).out, ds, Expiries([e]))
  {
    hide Adds, Gives, Tally;
    assert Most([e]) == [] && Last([e]) == e;
    NoExpiries([e]);
    if e.Settle? {
      TallyAdds(l.out, e.verdict, ds[0]);
      assert ds == [ds[0]];
    } else {
      AddsNothing(l.out);
    }
  }
}
