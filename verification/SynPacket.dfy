/**
  send_syn_packet of tcp_async_scan.cpp: the frame handed to sendto, and whether
  its checksums verify. Linux fills in the IP checksum of a raw packet itself on
  the way out (raw(7), IP_HDRINCL), so of the two it is the TCP checksum that
  reaches a receiver as stored here.
*/
module SynPacket {
  import opened Checksum
  import opened Kernel

  // A 16-bit value with its high byte first, as htons lays it out.
  function Short(x: int): (s: seq<Octet>)
    requires 0 <= x < 65536
    ensures |s| == 2
  {
    [x / 256, x % 256]
  }

  function Long(x: int): (s: seq<Octet>)
    requires 0 <= x < UINT32
    ensures |s| == 4
  {
    Short(x / 65536) + Short(x % 65536)
  }

  predicate Address(a: seq<Octet>) { |a| == 4 }

  const SYN: Octet := 2

  // The IP header with its checksum field, at byte 10, still zero.
  function IpHeader(source: seq<Octet>, target: seq<Octet>, seqNo: int): (h: seq<Octet>)
    requires Address(source) && Address(target) && 0 <= seqNo < UINT32
    ensures |h| == 20 && h[10] == 0 && h[11] == 0
  {
    [0x45, 0] + Short(40) + Short(seqNo % 65536) + [0, 0] + [64, 6] + [0, 0] + source + target
  }

  // The TCP header with its checksum field, at byte 16, still zero.
  function TcpHeader(srcPort: int, dstPort: int, seqNo: int): (h: seq<Octet>)
    requires 0 <= srcPort < 65536 && 0 <= dstPort < 65536 && 0 <= seqNo < UINT32
    ensures |h| == 20 && h[16] == 0 && h[17] == 0
  {
    Short(srcPort) + Short(dstPort) + Long(seqNo) + Long(0) + [0x50, SYN] + Short(64240) + [0, 0] + [0, 0]
  }

  function PseudoHeader(source: seq<Octet>, target: seq<Octet>): (h: seq<Octet>)
    requires Address(source) && Address(target)
    ensures |h| == 12
  {
    source + target + [0, 6] + Short(20)
  }

  // The bytes that assigning `c` to a 16-bit field leaves in memory.
  function Assigned(c: int, littleEndian: bool): (s: seq<Octet>)
    requires 0 <= c < 65536
    ensures |s| == 2
  {
    if littleEndian then [c % 256, c / 256] else [c / 256, c % 256]
  }

  // The frame handed to sendto.
  method BuildFrame(source: seq<Octet>, target: seq<Octet>, srcPort: int, dstPort: int, seqNo: int, littleEndian: bool)
    returns (frame: seq<Octet>)
    requires Address(source) && Address(target)
    requires 0 <= srcPort < 65536 && 0 <= dstPort < 65536 && 0 <= seqNo < UINT32
    ensures |frame| == 40
    ensures var c := Complement(OnesSum(IpHeader(source, target, seqNo)));
      0 <= c < 65536 && frame[..20] == Stored(IpHeader(source, target, seqNo), 10, c, littleEndian)
    ensures var c := Complement(OnesSum(PseudoHeader(source, target) + TcpHeader(srcPort, dstPort, seqNo)));
      0 <= c < 65536 && frame[20..] == Stored(TcpHeader(srcPort, dstPort, seqNo), 16, c, littleEndian)
  {
    hide OnesSum, IpHeader, TcpHeader, PseudoHeader;
    var ip := IpHeader(source, target, seqNo);
    var c := Checksum16(ip);
    ip := Stored(ip, 10, c, littleEndian);
    var tcp := TcpHeader(srcPort, dstPort, seqNo);
    var d := Checksum16(PseudoHeader(source, target) + tcp);
    tcp := Stored(tcp, 16, d, littleEndian);
    frame := ip + tcp;
  }

  function Stored(h: seq<Octet>, at: nat, c: int, littleEndian: bool): (s: seq<Octet>)
    requires at + 1 < |h| && 0 <= c < 65536
    ensures |s| == |h|
  {
    Store(h, at, Assigned(c, littleEndian)[0], Assigned(c, littleEndian)[1])
  }

  // What a receiver checks, of the headers as they are in the frame.
  predicate IpVerifies(header: seq<Octet>) { Verify(header) == 0 }

  predicate TcpVerifies(pseudo: seq<Octet>, header: seq<Octet>) { Verify(pseudo + header) == 0 }

  /**
    On a big-endian host both headers of every frame verify. On a little-endian
    host a header verifies exactly when its words sum to a multiple of 257.
  */
  lemma {:induction false} ProbeAccepted(
      source: seq<Octet>, target: seq<Octet>, srcPort: int, dstPort: int, seqNo: int, littleEndian: bool, c: int,
      d: int)
    requires Address(source) && Address(target)
    requires 0 <= srcPort < 65536 && 0 <= dstPort < 65536 && 0 <= seqNo < UINT32
    requires 0 <= c < 65536 && c == Complement(OnesSum(IpHeader(source, target, seqNo)))
    requires 0 <= d < 65536
      && d == Complement(OnesSum(PseudoHeader(source, target) + TcpHeader(srcPort, dstPort, seqNo)))
    ensures IpVerifies(Stored(IpHeader(source, target, seqNo), 10, c, littleEndian))
      <==> !littleEndian || WordSum(IpHeader(source, target, seqNo)) % 257 == 0
    ensures TcpVerifies(PseudoHeader(source, target), Stored(TcpHeader(srcPort, dstPort, seqNo), 16, d, littleEndian))
      <==> !littleEndian || WordSum(PseudoHeader(source, target) + TcpHeader(srcPort, dstPort, seqNo)) % 257 == 0
  {
    hide OnesSum, WordSum, IpHeader, TcpHeader, PseudoHeader, Verify;
    var ip := IpHeader(source, target, seqNo);
    StoredVerifies(ip, 10);
    HostOrderVerifies(ip, 10);
    var pseudo, tcp := PseudoHeader(source, target), TcpHeader(srcPort, dstPort, seqNo);
    StoredVerifies(pseudo + tcp, 28);
    HostOrderVerifies(pseudo + tcp, 28);
    assert pseudo + Stored(tcp, 16, d, littleEndian) == Stored(pseudo + tcp, 28, d, littleEndian);
  }

  // ------------------------------------------------------------- one probe

  lemma {:induction false} SumConcat(a: seq<Octet>, b: seq<Octet>)
    requires |a| % 2 == 0
    ensures WordSum(a + b) == WordSum(a) + WordSum(b)
    decreases |a|
  {
    if a == [] {
      assert a + b == b;
    } else {
      assert (a + b)[2..] == a[2..] + b;
      SumConcat(a[2..], b);
    }
  }

  lemma {:induction false} SumTwo(a: Octet, b: Octet)
    ensures WordSum([a, b]) == a * 256 + b
  {
    assert [a, b][2..] == [];
  }

  lemma {:induction false} SumFour(a: Octet, b: Octet, c: Octet, d: Octet)
    ensures WordSum([a, b, c, d]) == a * 256 + b + c * 256 + d
  {
    assert [a, b, c, d] == [a, b] + [c, d];
    SumConcat([a, b], [c, d]);
    SumTwo(a, b);
    SumTwo(c, d);
  }

  lemma {:induction false} SumShort(x: int)
    requires 0 <= x < 65536
    ensures WordSum(Short(x)) == x
  {
    SumTwo(x / 256, x % 256);
  }

  // The probe of port 80 of 10.0.0.2 from port 40000 of 10.0.0.1.
  const SOURCE: seq<Octet> := [10, 0, 0, 1]
  const TARGET: seq<Octet> := [10, 0, 0, 2]

  lemma {:induction false} ProbeIpSum()
    ensures WordSum(IpHeader(SOURCE, TARGET, 0)) == 39217
  {
    hide WordSum, Short;
    var a: seq<Octet>, b: seq<Octet>, c: seq<Octet>, d: seq<Octet> := [0x45, 0], [0, 0], [64, 6], [0, 0];
    SumTwo(0x45, 0);
    SumTwo(64, 6);
    SumTwo(0, 0);
    SumShort(40);
    SumShort(0);
    SumFour(10, 0, 0, 1);
    SumFour(10, 0, 0, 2);
    SumConcat(a, Short(40));
    SumConcat(a + Short(40), Short(0));
    SumConcat(a + Short(40) + Short(0), b);
    SumConcat(a + Short(40) + Short(0) + b, c);
    SumConcat(a + Short(40) + Short(0) + b + c, d);
    SumConcat(a + Short(40) + Short(0) + b + c + d, SOURCE);
    SumConcat(a + Short(40) + Short(0) + b + c + d + SOURCE, TARGET);
  }

  lemma {:induction false} ProbeTcpSum()
    ensures WordSum(PseudoHeader(SOURCE, TARGET) + TcpHeader(40000, 80, 0)) == 129951
  {
    PseudoSum();
    TcpSum();
    hide WordSum, PseudoHeader, TcpHeader;
    SumConcat(PseudoHeader(SOURCE, TARGET), TcpHeader(40000, 80, 0));
  }

  lemma {:induction false} PseudoSum()
    ensures WordSum(PseudoHeader(SOURCE, TARGET)) == 5149
  {
    hide WordSum, Short;
    SumFour(10, 0, 0, 1);
    SumFour(10, 0, 0, 2);
    SumTwo(0, 6);
    SumShort(20);
    SumConcat(SOURCE, TARGET);
    SumConcat(SOURCE + TARGET, [0, 6]);
    SumConcat(SOURCE + TARGET + [0, 6], Short(20));
  }

  lemma {:induction false} TcpSum()
    ensures WordSum(TcpHeader(40000, 80, 0)) == 124802
  {
    hide WordSum, Short;
    var a: seq<Octet>, b: seq<Octet> := [0x50, SYN], [0, 0];
    SumShort(40000);
    SumShort(80);
    SumShort(0);
    SumShort(64240);
    SumTwo(0x50, SYN);
    SumTwo(0, 0);
    SumConcat(Short(0), Short(0));
    SumConcat(Short(40000), Short(80));
    SumConcat(Short(40000) + Short(80), Long(0));
    SumConcat(Short(40000) + Short(80) + Long(0), Long(0));
    SumConcat(Short(40000) + Short(80) + Long(0) + Long(0), a);
    SumConcat(Short(40000) + Short(80) + Long(0) + Long(0) + a, Short(64240));
    SumConcat(Short(40000) + Short(80) + Long(0) + Long(0) + a + Short(64240), b);
    SumConcat(Short(40000) + Short(80) + Long(0) + Long(0) + a + Short(64240) + b, b);
  }

  // The value of the two octets from `at` on, high octet first.
  function Field(h: seq<Octet>, at: nat): int
    requires at + 1 < |h|
  {
    h[at] as int * 256 + h[at + 1] as int
  }

  /**
    The fields of the two headers (section 3.1 of RFC 791 and of RFC 9293):
    version 4 and five words of header, 40 octets in all, protocol 6, and a
    segment of five words without data that has the SYN flag and no other.
  */
  lemma {:induction false} FrameFields(
      source: seq<Octet>, target: seq<Octet>, srcPort: int, dstPort: int, seqNo: int, c: int, d: int,
      littleEndian: bool)
    requires Address(source) && Address(target) && 0 <= c < 65536 && 0 <= d < 65536
    requires 0 <= srcPort < 65536 && 0 <= dstPort < 65536 && 0 <= seqNo < UINT32
    ensures var ip := Stored(IpHeader(source, target, seqNo), 10, c, littleEndian);
      && ip[0] / 16 == 4 && ip[0] % 16 == 5 && Field(ip, 2) == 40 && ip[9] == 6
      && ip[12..16] == source && ip[16..20] == target
    ensures var tcp := Stored(TcpHeader(srcPort, dstPort, seqNo), 16, d, littleEndian);
      && Field(tcp, 0) == srcPort && Field(tcp, 2) == dstPort
      && Field(tcp, 4) * 65536 + Field(tcp, 6) == seqNo && Field(tcp, 8) == Field(tcp, 10) == 0
      && tcp[12] == 5 * 16 && tcp[13] == 2
  {
    hide Assigned;
    ShortValue(srcPort);
    ShortValue(dstPort);
    ShortValue(seqNo / 65536);
    ShortValue(seqNo % 65536);
  }

  lemma {:induction false} ShortValue(x: int)
    requires 0 <= x < 65536
    ensures Field(Short(x), 0) == x
  { }

  /** On a little-endian host neither header of this frame verifies as it is handed to sendto. */
  method RejectedProbe() returns (frame: seq<Octet>)
    ensures |frame| == 40 && frame[12..16] == SOURCE && frame[16..20] == TARGET
    ensures !IpVerifies(frame[..20]) && !TcpVerifies(PseudoHeader(SOURCE, TARGET), frame[20..])
  {
    hide OnesSum, WordSum, IpHeader, TcpHeader, PseudoHeader, Verify;
    frame := BuildFrame(SOURCE, TARGET, 40000, 80, 0, true);
    ghost var c := Complement(OnesSum(IpHeader(SOURCE, TARGET, 0)));
    ghost var d := Complement(OnesSum(PseudoHeader(SOURCE, TARGET) + TcpHeader(40000, 80, 0)));
    ProbeIpSum();
    ProbeTcpSum();
    ProbeAccepted(SOURCE, TARGET, 40000, 80, 0, true, c, d);
    AddressesKept(SOURCE, TARGET, c);
    assert frame[12..16] == frame[..20][12..16] && frame[16..20] == frame[..20][16..20];
  }

  lemma {:induction false} AddressesKept(source: seq<Octet>, target: seq<Octet>, c: int)
    requires Address(source) && Address(target) && 0 <= c < 65536
    ensures var h := Stored(IpHeader(source, target, 0), 10, c, true); h[12..16] == source && h[16..20] == target
  { }
}
