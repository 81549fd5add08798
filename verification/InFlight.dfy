/** Connections in flight and the clock: what the three scanners' timeouts rest on. */
module InFlight {
  import opened Kernel
  import opened ScanLedger

  // What is left of the connections `b`.
  ghost predicate SubMap(a: map<int, Pending>, b: map<int, Pending>) {
    a.Keys <= b.Keys && forall k :: k in a ==> a[k] == b[k]
  }

  // No connection has timed out.
  ghost predicate Young(active: map<int, Pending>, now: int, timeoutMs: int) {
    forall k :: k in active ==> now - active[k].started < timeoutMs
  }

  // Every connection was started by `now`.
  ghost predicate Started(active: map<int, Pending>, now: int) { forall k :: k in active ==> active[k].started <= now }

  // Every connection has timed out by `deadline`.
  ghost predicate DueBy(active: map<int, Pending>, timeoutMs: int, deadline: int) {
    forall k :: k in active ==> active[k].started + timeoutMs <= deadline
  }

  // The log `after` adds one event for each port started.
  ghost predicate Launched(before: seq<Event>, after: seq<Event>, ports: int) {
    && before <= after && |after| == |before| + ports
    && forall j :: |before| <= j < |after| ==> after[j].Settle? || after[j].Launch?
  }

  lemma {:induction false} NoneLaunched(log: seq<Event>)
    ensures Launched(log, log, 0)
  { }

  lemma {:induction false} OneMoreLaunched(before: seq<Event>, log: seq<Event>, after: seq<Event>, ports: int)
    requires Launched(before, log, ports) && Launched(log, after, 1)
    ensures Launched(before, after, ports + 1)
  { }

  lemma {:induction false} SubMapTrans(a: map<int, Pending>, b: map<int, Pending>, c: map<int, Pending>)
    requires SubMap(a, b) && SubMap(b, c)
    ensures SubMap(a, c)
  { }

  lemma {:induction false} SubMapMinus(a: map<int, Pending>, gone: set<int>)
    ensures SubMap(a - gone, a)
  { }

  lemma {:induction false} NoneInFlight(active: map<int, Pending>, now: int, timeoutMs: int, deadline: int)
    requires active == map[]
    ensures Started(active, now) && DueBy(active, timeoutMs, deadline)
  { }

  lemma {:induction false} StartedLater(active: map<int, Pending>, now: int, later: int)
    requires Started(active, now) && now <= later
    ensures Started(active, later)
  { }

  // A sweep at tick `s` leaves what is not yet due. Unless there were launches
  // (`more`), the tick by which all will have been swept stays what it was.
  lemma {:induction false} Sweep(
      k: Kernel, before: map<int, Pending>, after: map<int, Pending>, from: nat, s: nat, timeoutMs: int, due: nat,
      more: bool)
    returns (due': nat)
    requires k.Sane() && k.Advances() && Started(before, k.now(from)) && from <= s
    requires SubMap(after, before) && Young(after, k.now(s), timeoutMs)
    requires more || DueBy(before, timeoutMs, k.now(due))
    ensures Started(after, k.now(s)) && DueBy(after, timeoutMs, k.now(due'))
    ensures after != map[] ==> s < due'
    ensures !more ==> due' == due
  {
    ClockMoves(k, from, s);
    assert Started(after, k.now(s));
    due' := due;
    if more {
      assert k.Reaches(k.now(s) + timeoutMs);
      due' :| k.now(s) + timeoutMs <= k.now(due');
    }
    NotYetDue(k, after, s, timeoutMs, due');
  }

  lemma {:induction false} NotYetDue(k: Kernel, active: map<int, Pending>, s: nat, timeoutMs: int, due: nat)
    requires k.Sane() && Young(active, k.now(s), timeoutMs) && DueBy(active, timeoutMs, k.now(due))
    ensures active != map[] ==> s < due
  {
    if due <= s { ClockMoves(k, due, s); }
    if exists key :: key in active {
      var key :| key in active;
    }
  }

  lemma {:induction false} ClockMoves(k: Kernel, t: nat, u: nat)
    requires k.Sane() && t <= u
    ensures k.now(t) <= k.now(u)
  { }

  lemma {:induction false} StopStays(k: Kernel, t: nat, u: nat)
    requires k.Sane() && t <= u
    ensures k.stop(t) ==> k.stop(u)
  { }

  lemma {:induction false} FreshSocket(k: Kernel, t: nat, used: set<int>)
    requires k.Sane()
    ensures k.socket(t, used) == -1 || k.socket(t, used) !in used
  { }
}
