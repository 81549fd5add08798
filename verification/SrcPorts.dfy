/** alloc_src_port of tcp_async_scan.cpp: source ports handed out by a wrapping 16-bit cursor. */
module SrcPorts {
  type Cursor = c: int | 0 <= c < 65536

  const TRIES := 20000

  // C++ `%`, which rounds towards zero; `/` and `%` here do not for negative operands.
  function TruncMod(a: int, m: int): int
    requires m > 0
  {
    if a >= 0 then a % m else -((-a) % m)
  }

  function PortOf(cursor: Cursor): int { (40000 + TruncMod(cursor - 40000, 20000)) % 65536 }

  function After(cursor: Cursor, n: nat): Cursor { (cursor + n) % 65536 }

  /**
    Every cursor value maps to a port that is neither 0 nor reserved, although the
    remainder goes negative after the wrap.
  */
  lemma {:induction false} PortRange(cursor: Cursor)
    ensures 20001 <= PortOf(cursor) <= 59999
    ensures PortOf(cursor) ==
      if cursor == 0 || cursor == 20000 then 40000
      else if cursor < 20000 then cursor + 20000
      else if cursor < 60000 then cursor
      else cursor - 20000
  { }

  // The ports that the next `n` cursor values stand for.
  ghost function Ports(cursor: Cursor, n: nat): set<int> {
    if n == 0 then {} else Ports(cursor, n - 1) + {PortOf(After(cursor, n - 1))}
  }

  lemma {:induction false} InPorts(cursor: Cursor, n: nat, p: int)
    ensures p in Ports(cursor, n) <==> exists i :: 0 <= i < n && PortOf(After(cursor, i)) == p
  {
    if n > 0 { InPorts(cursor, n - 1, p); }
  }

  /** Within 20000 steps two cursor values share a port only when they are 60000 and 0. */
  lemma {:induction false} SamePort(cursor: Cursor, i: nat, j: nat)
    requires i < j < TRIES
    ensures PortOf(After(cursor, i)) == PortOf(After(cursor, j)) <==> After(cursor, i) == 60000 && After(cursor, j) == 0
  {
    PortRange(After(cursor, i));
    PortRange(After(cursor, j));
  }

  // Whether `n` steps from the cursor pass 60000 and then, 5536 steps on, 0.
  predicate Wraps(cursor: Cursor, n: nat) { (60000 - cursor) % 65536 + 5536 < n }

  lemma {:induction false} LastStep(cursor: Cursor, n: nat)
    requires n < TRIES
    ensures PortOf(After(cursor, n)) in Ports(cursor, n) <==> Wraps(cursor, n + 1) && !Wraps(cursor, n)
  {
    hide PortOf, Ports;
    var p := PortOf(After(cursor, n));
    InPorts(cursor, n, p);
    var first := (60000 - cursor) % 65536;
    if Wraps(cursor, n + 1) && !Wraps(cursor, n) {
      SamePort(cursor, first, n);
    }
    forall i | 0 <= i < n && PortOf(After(cursor, i)) == p ensures Wraps(cursor, n + 1) && !Wraps(cursor, n) {
      SamePort(cursor, i, n);
    }
  }

  /** Up to 20000 consecutive cursor values, wherever they start, stand for as many ports, or for one port fewer. */
  lemma {:induction false} PortCount(cursor: Cursor, n: nat)
    requires n <= TRIES
    ensures |Ports(cursor, n)| == if Wraps(cursor, n) then n - 1 else n
  {
    hide PortOf;
    if n > 0 {
      PortCount(cursor, n - 1);
      LastStep(cursor, n - 1);
      AddOne(Ports(cursor, n - 1), PortOf(After(cursor, n - 1)));
    }
  }

  lemma {:induction false} SubsetSize<T>(a: set<T>, b: set<T>)
    requires a <= b
    ensures |a| <= |b|
  {
    assert b == a + (b - a);
  }

  lemma {:induction false} AddOne<T>(s: set<T>, x: T)
    ensures |s + {x}| == if x in s then |s| else |s| + 1
  {
    if x in s { assert s + {x} == s; }
  }

  // The first `n` ports from the cursor are all in use.
  predicate AllUsed(cursor: Cursor, used: set<int>, n: nat) {
    forall i :: 0 <= i < n ==> PortOf(After(cursor, i)) in used
  }

  // The first free port within `n` steps from the cursor, or 0, and where the cursor is then.
  function FirstFree(cursor: Cursor, used: set<int>, n: nat): (int, Cursor)
    decreases n
  {
    if n == 0 then (0, cursor)
    else if PortOf(cursor) !in used then (PortOf(cursor), After(cursor, 1))
    else FirstFree(After(cursor, 1), used, n - 1)
  }

  /**
    The allocator: the first port not in use, found after `skipped` others, and
    where it leaves the cursor; 0 exactly when 20000 steps find none, which
    takes at least 19999 ports in use.
  */
  method Alloc(cursor: Cursor, used: set<int>) returns (port: int, next: Cursor, ghost skipped: nat)
    ensures port != 0 <==> !AllUsed(cursor, used, TRIES)
    ensures port != 0 ==> skipped < TRIES && AllUsed(cursor, used, skipped) && next == After(cursor, skipped + 1)
    ensures port != 0 ==> port == PortOf(After(cursor, skipped)) && port !in used && 20001 <= port <= 59999
    ensures port == 0 ==> next == After(cursor, TRIES)
    ensures (port, next) == FirstFree(cursor, used, TRIES)
    ensures |used| < TRIES - 1 ==> port != 0
  {
    hide PortOf, After, AllUsed;
    next := cursor;
    AfterSteps(cursor, 0);
    UsedMore(cursor, used, 0);
    EnoughPorts(cursor, used);
    for i := 0 to TRIES
      invariant next == After(cursor, i) && AllUsed(cursor, used, i)
      invariant FirstFree(cursor, used, TRIES) == FirstFree(next, used, TRIES - i)
    {
      port, skipped := PortOf(next), i;
      PortRange(next);
      AfterSteps(cursor, i);
      UsedMore(cursor, used, i);
      next := After(next, 1);
      if port !in used {
        NotAllUsed(cursor, used, i);
        return;
      }
    }
    port, skipped := 0, 0;
  }

  lemma {:induction false} AfterSteps(cursor: Cursor, n: nat)
    ensures After(cursor, 0) == cursor && After(After(cursor, n), 1) == After(cursor, n + 1)
  { }

  lemma {:induction false} UsedMore(cursor: Cursor, used: set<int>, n: nat)
    ensures AllUsed(cursor, used, 0)
    ensures AllUsed(cursor, used, n + 1) <==> AllUsed(cursor, used, n) && PortOf(After(cursor, n)) in used
  {
    hide PortOf, After;
  }

  lemma {:induction false} NotAllUsed(cursor: Cursor, used: set<int>, i: nat)
    requires i < TRIES && PortOf(After(cursor, i)) !in used
    ensures !AllUsed(cursor, used, TRIES)
  {
    hide PortOf, After;
  }

  /** It takes at least 19999 ports in use to exhaust the allocator. */
  lemma {:induction false} EnoughPorts(cursor: Cursor, used: set<int>)
    ensures AllUsed(cursor, used, TRIES) <==> Ports(cursor, TRIES) <= used
    ensures AllUsed(cursor, used, TRIES) ==> TRIES - 1 <= |used|
  {
    hide PortOf, After;
    forall p ensures p in Ports(cursor, TRIES) <==> exists i :: 0 <= i < TRIES && PortOf(After(cursor, i)) == p {
      InPorts(cursor, TRIES, p);
    }
    if Ports(cursor, TRIES) <= used {
      PortCount(cursor, TRIES);
      SubsetSize(Ports(cursor, TRIES), used);
    }
  }
}
