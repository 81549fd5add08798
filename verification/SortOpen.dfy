/** The library's sort of the open ports, as scan_tcp_async of tcp_async_scan.cpp uses it. */
module SortOpen {
  import opened ScanLedger

  predicate SortedByPort(open: seq<TcpOpen>) { forall i, j :: 0 <= i < j < |open| ==> open[i].port <= open[j].port }

  function Most(open: seq<TcpOpen>): seq<TcpOpen> requires open != [] { open[..|open| - 1] }

  function Last(open: seq<TcpOpen>): TcpOpen requires open != [] { open[|open| - 1] }

  function Inserted(o: TcpOpen, open: seq<TcpOpen>): seq<TcpOpen>
    decreases |open|
  {
    if open == [] || Last(open).port <= o.port then open + [o] else Inserted(o, Most(open)) + [Last(open)]
  }

  function SortByPort(open: seq<TcpOpen>): seq<TcpOpen>
    decreases |open|
  {
    if open == [] then [] else Inserted(Last(open), SortByPort(Most(open)))
  }

  lemma {:induction false} Append(open: seq<TcpOpen>, o: TcpOpen)
    ensures multiset(open + [o]) == multiset(open) + multiset{o}
    ensures OpenPorts(open + [o]) == OpenPorts(open) + multiset{o.port}
  {
    assert (open + [o])[..|open|] == open;
  }

  lemma {:induction false} Swap<T>(a: multiset<T>, b: multiset<T>, c: multiset<T>)
    ensures a + b + c == a + c + b
  { }

  lemma {:induction false} InsertedContents(o: TcpOpen, open: seq<TcpOpen>)
    ensures multiset(Inserted(o, open)) == multiset(open) + multiset{o}
    ensures OpenPorts(Inserted(o, open)) == OpenPorts(open) + multiset{o.port}
    decreases |open|
  {
    hide OpenPorts;
    Append(open, o);
    if open != [] && Last(open).port > o.port {
      var rest, last := Most(open), Last(open);
      assert open == rest + [last];
      InsertedContents(o, rest);
      Append(Inserted(o, rest), last);
      Append(rest, last);
      Swap(multiset(rest), multiset{o}, multiset{last});
      Swap(OpenPorts(rest), multiset{o.port}, multiset{last.port});
    }
  }

  predicate Below(open: seq<TcpOpen>, m: int) { forall i :: 0 <= i < |open| ==> open[i].port <= m }

  lemma {:induction false} InsertedBelow(o: TcpOpen, open: seq<TcpOpen>, m: int)
    requires Below(open, m) && o.port <= m
    ensures Below(Inserted(o, open), m)
    decreases |open|
  {
    if open != [] && Last(open).port > o.port { InsertedBelow(o, Most(open), m); }
  }

  lemma {:induction false} InsertedSorted(o: TcpOpen, open: seq<TcpOpen>)
    requires SortedByPort(open)
    ensures SortedByPort(Inserted(o, open))
    decreases |open|
  {
    if open != [] && Last(open).port > o.port {
      InsertedSorted(o, Most(open));
      InsertedBelow(o, Most(open), Last(open).port);
    }
  }

  /** The same open ports, in order. */
  lemma {:induction false} SortSorts(open: seq<TcpOpen>)
    ensures SortedByPort(SortByPort(open))
    ensures multiset(SortByPort(open)) == multiset(open)
    ensures OpenPorts(SortByPort(open)) == OpenPorts(open) && |SortByPort(open)| == |open|
    decreases |open|
  {
    hide OpenPorts, Inserted, SortedByPort;
    if open == [] {
      NoneSorted();
    } else {
      var rest, last := Most(open), Last(open);
      SortSorts(rest);
      InsertedSorted(last, SortByPort(rest));
      InsertedContents(last, SortByPort(rest));
      assert open == rest + [last];
      Append(rest, last);
    }
    assert |multiset(SortByPort(open))| == |SortByPort(open)| && |multiset(open)| == |open|;
  }

  lemma {:induction false} NoneSorted()
    ensures SortedByPort([])
  { }
}
