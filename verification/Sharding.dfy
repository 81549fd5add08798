/** How run_connect_scan_with_pool of tcp_async_scan.cpp splits the ports over its workers. */
module Sharding {
  function Clamp(x: int, low: int, high: int): int
    requires low <= high
  {
    if x < low then low else if x > high then high else x
  }

  function Max(a: int, b: int): int { if a < b then b else a }

  function Min(a: int, b: int): int { if b < a then b else a }

  // The number of workers, and how many connections each may have in flight.
  method Plan(threads: int, hardware: nat, portCount: nat) returns (inflightTotal: int, workers: nat, inflight: nat)
    requires portCount > 0
    ensures 64 <= inflightTotal <= 16384
    ensures (inflightTotal < threads ==> inflightTotal == 16384) && (threads < inflightTotal ==> inflightTotal == 64)
    ensures 1 <= workers <= portCount && workers <= 2 * (if hardware == 0 then 4 else hardware)
    ensures workers == portCount || workers == 2 * (if hardware == 0 then 4 else hardware)
      || inflightTotal / 256 <= workers
    ensures workers <= Max(2, inflightTotal / 256) && (portCount >= 2048 ==> 2 <= workers)
    ensures 64 <= inflight && inflightTotal <= workers * inflight + workers - 1
    ensures workers * inflight <= Max(inflightTotal, 128)
  {
    inflightTotal := Clamp(threads, 64, 16384);
    var hw := if hardware == 0 then 4 else hardware;
    workers := Clamp(inflightTotal / 256, 1, hw * 2);
    if portCount >= 2048 {
      workers := Max(2, workers);
    }
    workers := Min(workers, portCount);
    inflight := Max(64, inflightTotal / workers);
    PlanFits(inflightTotal, workers);
  }

  lemma {:induction false} PlanFits(total: nat, workers: nat)
    requires 64 <= total && 1 <= workers <= Max(2, total / 256)
    ensures var inflight := Max(64, total / workers);
      total <= workers * inflight + workers - 1 && workers * inflight <= Max(total, 128)
  {
    Quotient(total, workers);
    if total / workers < 64 {
      assert workers * 64 <= Max(total, 128);
      Scale(workers, total / workers, 64);
    }
  }

  lemma {:induction false} Quotient(n: nat, m: nat)
    requires m > 0
    ensures n == m * (n / m) + n % m
    ensures 0 <= n % m < m
  { }

  lemma {:induction false} Scale(m: nat, a: nat, b: nat)
    ensures a <= b ==> m * a <= m * b
    ensures a < b ==> m * a + m <= m * b
  {
    if a < b {
      Distribute(m, a, b - a - 1);
      Distribute(m, b - 1, 1);
    }
  }

  lemma {:induction false} Distribute(m: nat, a: nat, b: nat)
    ensures m * (a + b) == m * a + m * b && 0 <= m * b
  { }

  function Empties(workers: nat): seq<seq<int>> { seq(workers, i => []) }

  // Dealing the ports out in turn.
  function Dealt(ports: seq<int>, workers: nat): (shards: seq<seq<int>>)
    requires workers > 0
    ensures |shards| == workers
  {
    if ports == [] then Empties(workers)
    else
      var i := |ports| - 1;
      var before := Dealt(ports[..i], workers);
      before[i % workers := before[i % workers] + [ports[i]]]
  }

  method Deal(ports: seq<int>, workers: nat) returns (shards: seq<seq<int>>)
    requires workers > 0
    ensures shards == Dealt(ports, workers)
  {
    shards := Empties(workers);
    for i := 0 to |ports|
      invariant shards == Dealt(ports[..i], workers)
    {
      assert ports[..i + 1][..i] == ports[..i];
      shards := shards[i % workers := shards[i % workers] + [ports[i]]];
    }
    assert ports[..|ports|] == ports;
  }

  lemma {:induction false} NextTurn(i: nat, m: nat)
    requires m > 0
    ensures if i % m == m - 1 then (i + 1) % m == 0 && (i + 1) / m == i / m + 1
      else (i + 1) % m == i % m + 1 && (i + 1) / m == i / m
  {
    Quotient(i, m);
    NextOf(i, m, i / m, i % m);
  }

  lemma {:induction false} NextOf(i: nat, m: nat, q: nat, r: nat)
    requires i == m * q + r && r < m
    ensures if r == m - 1 then (i + 1) % m == 0 && (i + 1) / m == q + 1
      else (i + 1) % m == r + 1 && (i + 1) / m == q
  {
    Carry(i, m, q, r);
    if r == m - 1 { Unique(i + 1, m, q + 1, 0); } else { Unique(i + 1, m, q, r + 1); }
  }

  lemma {:induction false} Carry(i: nat, m: nat, q: nat, r: nat)
    requires i == m * q + r
    ensures r == m - 1 ==> i + 1 == m * (q + 1)
    ensures i + 1 == m * q + (r + 1)
  {
    Distribute(m, q, 1);
  }

  lemma {:induction false} Unique(n: nat, m: nat, q: nat, r: nat)
    requires m > 0 && n == m * q + r && r < m
    ensures n / m == q && n % m == r
  {
    Quotient(n, m);
    Scale(m, n / m, q);
    Scale(m, q, n / m);
  }

  // The size of shard `w` of `n` ports.
  function Share(n: nat, workers: nat, w: nat): nat
    requires workers > 0
  {
    n / workers + if w < n % workers then 1 else 0
  }

  lemma {:induction false} ShareStep(i: nat, workers: nat, w: nat)
    requires w < workers
    ensures Share(i + 1, workers, w) == Share(i, workers, w) + if i % workers == w then 1 else 0
    ensures i % workers == w ==> i == w + workers * Share(i, workers, w)
  {
    NextTurn(i, workers);
    Quotient(i, workers);
  }

  /**
    Element `j` of shard `w` is port number w + j * workers, so shards keep the
    order of the ports; their sizes differ by at most one.
  */
  lemma {:induction false} ShardAt(ports: seq<int>, workers: nat, w: nat)
    requires 0 <= w < workers
    ensures |Dealt(ports, workers)[w]| == Share(|ports|, workers, w)
    ensures forall j :: 0 <= j < |Dealt(ports, workers)[w]| ==>
      w + workers * j < |ports| && Dealt(ports, workers)[w][j] == ports[w + workers * j]
    decreases |ports|
  {
    hide Share;
    if ports != [] {
      var i := |ports| - 1;
      ShardAt(ports[..i], workers, w);
      ShareStep(i, workers, w);
    } else {
      NoShare(workers, w);
    }
  }

  lemma {:induction false} NoShare(workers: nat, w: nat)
    requires w < workers
    ensures Share(0, workers, w) == 0
  { }

  /** The shards are all nonempty when there are at least as many ports as workers, and balanced. */
  lemma {:induction false} ShardSizes(ports: seq<int>, workers: nat, v: nat, w: nat)
    requires 0 <= v < workers <= |ports| && 0 <= w < workers
    ensures Dealt(ports, workers)[w] != []
    ensures |Dealt(ports, workers)[v]| <= |Dealt(ports, workers)[w]| + 1
  {
    ShardAt(ports, workers, v);
    ShardAt(ports, workers, w);
    Quotient(|ports|, workers);
    Scale(workers, |ports| / workers, 1);
  }

  function Flatten(shards: seq<seq<int>>): seq<int> {
    if shards == [] then [] else Flatten(shards[..|shards| - 1]) + shards[|shards| - 1]
  }

  lemma {:induction false} FlattenLast(shards: seq<seq<int>>)
    requires shards != []
    ensures multiset(Flatten(shards)) == multiset(Flatten(shards[..|shards| - 1])) + multiset(shards[|shards| - 1])
  { }

  lemma {:induction false} Swap<T>(a: multiset<T>, b: multiset<T>, c: multiset<T>)
    ensures (a + b) + c == (a + c) + b && (a + b) + c == a + (b + c)
  { }

  lemma {:induction false} FlattenAppend(shards: seq<seq<int>>, w: nat, p: int)
    requires w < |shards|
    ensures multiset(Flatten(shards[w := shards[w] + [p]])) == multiset(Flatten(shards)) + multiset{p}
    decreases |shards|
  {
    hide Flatten;
    FlattenLast(shards);
    FlattenLast(shards[w := shards[w] + [p]]);
    Swap(multiset(Flatten(shards[..|shards| - 1])), multiset(shards[|shards| - 1]), multiset{p});
    var n := |shards| - 1;
    var more := shards[w := shards[w] + [p]];
    if w < n {
      assert more[..n] == shards[..n][w := shards[..n][w] + [p]];
      FlattenAppend(shards[..n], w, p);
    } else {
      assert more[..n] == shards[..n];
    }
  }

  lemma {:induction false} FlattenEmpties(workers: nat)
    ensures Flatten(Empties(workers)) == []
  {
    if workers > 0 {
      assert Empties(workers)[..workers - 1] == Empties(workers - 1);
      FlattenEmpties(workers - 1);
    }
  }

  lemma {:induction false} DealtLast(ports: seq<int>, workers: nat)
    requires workers > 0 && ports != []
    ensures var i := |ports| - 1; var before := Dealt(ports[..i], workers);
      Dealt(ports, workers) == before[i % workers := before[i % workers] + [ports[i]]]
  { }

  /** Every port goes to exactly one shard. */
  lemma {:induction false} Partition(ports: seq<int>, workers: nat)
    requires workers > 0
    ensures multiset(Flatten(Dealt(ports, workers))) == multiset(ports)
    decreases |ports|
  {
    hide Flatten, Dealt;
    if ports == [] {
      NoneDealt(workers);
    } else {
      var i := |ports| - 1;
      Partition(ports[..i], workers);
      DealtLast(ports, workers);
      FlattenAppend(Dealt(ports[..i], workers), i % workers, ports[i]);
      assert ports == ports[..i] + [ports[i]];
    }
  }

  lemma {:induction false} NoneDealt(workers: nat)
    requires workers > 0
    ensures Flatten(Dealt([], workers)) == []
  {
    FlattenEmpties(workers);
  }
}
