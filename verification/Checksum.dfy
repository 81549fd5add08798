/** checksum16 of tcp_async_scan.cpp against the Internet checksum of RFC 1071, section 1. */
module Checksum {
  import opened Kernel

  const UINT32: int := 0x1_0000_0000

  function Word(high: Octet, low: Octet): int {
    var h: int := high;
    h * 256 + low
  }

  // The first 16-bit word of the data, an odd last byte padded with zero, and what follows it.
  function FirstWord(data: seq<Octet>): (w: int)
    requires data != []
    ensures 0 <= w < 65536
  {
    Word(data[0], if |data| == 1 then 0 else data[1])
  }

  function Rest(data: seq<Octet>): seq<Octet>
    requires data != []
  {
    if |data| == 1 then [] else data[2..]
  }

  // One's complement addition of 16-bit words: a carry out of the top is added back at the bottom.
  function OnesAdd(a: int, b: int): int { if a + b < 65536 then a + b else a + b - 65535 }

  function OnesSum(data: seq<Octet>): int
    decreases |data|
  {
    if data == [] then 0 else OnesAdd(FirstWord(data), OnesSum(Rest(data)))
  }

  // The plain sum of the words.
  function WordSum(data: seq<Octet>): nat
    decreases |data|
  {
    if data == [] then 0 else FirstWord(data) + WordSum(Rest(data))
  }

  function Words(n: nat): nat { (n + 1) / 2 }

  lemma {:induction false} SumBound(data: seq<Octet>)
    ensures WordSum(data) <= 65535 * Words(|data|)
    decreases |data|
  {
    if data != [] { SumBound(Rest(data)); }
  }

  // The 16-bit value that folding the carries of `t` back in ends with.
  function Folded(t: nat): (r: nat)
    ensures r < 65536
  {
    if t == 0 then 0 else 1 + (t - 1) % 65535
  }

  lemma {:induction false} FoldStep(t: nat)
    ensures Folded(t % 65536 + t / 65536) == Folded(t)
    ensures t < 65536 ==> Folded(t) == t
  {
    var q := t / 65536;
    assert t == (t % 65536 + q) + 65535 * q;
    if t > 0 { ModPlus((t % 65536 + q) - 1, q); }
  }

  lemma {:induction false} ModPlus(a: nat, q: nat)
    ensures (a + 65535 * q) % 65535 == a % 65535
  {
    if q > 0 { ModPlus(a, q - 1); }
  }

  lemma {:induction false} FoldedAdds(w: nat, t: nat)
    requires w < 65536
    ensures OnesAdd(w, Folded(t)) == Folded(w + t)
  {
    if t > 0 && w > 0 {
      var q := (t - 1) / 65535;
      assert t == Folded(t) + 65535 * q;
      ModPlus(w + Folded(t) - 1, q);
    }
  }

  /** The fast form, one plain sum folded at the end, is the one's complement sum. */
  lemma {:induction false} FoldedSum(data: seq<Octet>)
    ensures OnesSum(data) == Folded(WordSum(data))
    decreases |data|
  {
    hide Folded;
    if data == [] {
      FoldStep(0);
    } else {
      FoldedSum(Rest(data));
      FoldedAdds(FirstWord(data), WordSum(Rest(data)));
    }
  }

  function Complement(w: int): int { 65535 - w }

  lemma {:induction false} SumFrom(data: seq<Octet>, i: nat)
    requires i <= |data|
    ensures i + 1 < |data| ==>
      WordSum(data[i..]) == Word(data[i], data[i + 1]) + WordSum(data[i + 2..]) && 0 <= Word(data[i], data[i + 1])
    ensures i + 1 == |data| ==> WordSum(data[i..]) == Word(data[i], 0) && 0 <= Word(data[i], 0)
    ensures i == |data| ==> WordSum(data[i..]) == 0
  {
    if i + 1 < |data| { assert data[i..][2..] == data[i + 2..]; }
  }

  /**
    checksum16. Its 32-bit sum does not wrap for up to 65537 words, and then it
    is the complement of the one's complement sum.
  */
  method Checksum16(data: seq<Octet>) returns (r: int)
    ensures 0 <= r < 65536
    ensures Words(|data|) <= 65537 ==> r == Complement(OnesSum(data))
  {
    hide WordSum, Word, OnesSum, Folded;
    var sum, i, len := 0, 0, |data|;
    SumBound(data);
    FoldedSum(data);
    assert data[0..] == data;
    while len > 1
      invariant 0 <= i && 0 <= len && i + len == |data| && 0 <= sum < UINT32
      invariant Words(|data|) <= 65537 ==> sum + WordSum(data[i..]) == WordSum(data)
    {
      SumFrom(data, i);
      sum := (sum + Word(data[i], data[i + 1])) % UINT32;
      i, len := i + 2, len - 2;
    }
    SumFrom(data, i);
    if len == 1 {
      sum := (sum + Word(data[i], 0)) % UINT32;
    }
    ghost var whole := sum;
    while sum / 65536 != 0
      invariant 0 <= sum < UINT32 && Folded(sum) == Folded(whole)
      decreases sum
    {
      FoldStep(sum);
      sum := sum % 65536 + sum / 65536;
    }
    FoldStep(sum);
    r := Complement(sum);
  }

  /** 65537 words is the most that is safe: one more word of all ones and the 32-bit sum wraps. */
  lemma {:induction false} AllOnes(data: seq<Octet>)
    requires |data| % 2 == 0 && forall i :: 0 <= i < |data| ==> data[i] == 255
    ensures WordSum(data) == 65535 * (|data| / 2)
    ensures WordSum(data) < UINT32 <==> |data| / 2 <= 65537
    decreases |data|
  {
    if data != [] { AllOnes(data[2..]); }
  }

  // ------------------------------------------------- storing the checksum

  // The checksum as stored in the two bytes at `at`.
  function Store(data: seq<Octet>, at: nat, high: Octet, low: Octet): seq<Octet>
    requires at + 1 < |data|
  {
    data[at := high][at + 1 := low]
  }

  lemma {:induction false} StoreAdds(data: seq<Octet>, at: nat, high: Octet, low: Octet)
    requires at % 2 == 0 && at + 1 < |data| && data[at] == 0 && data[at + 1] == 0
    ensures WordSum(Store(data, at, high, low)) == WordSum(data) + Word(high, low)
    decreases |data|
  {
    var stored := Store(data, at, high, low);
    if at == 0 {
      assert stored[2..] == data[2..];
    } else {
      assert stored[2..] == Store(data[2..], at - 2, high, low);
      StoreAdds(data[2..], at - 2, high, low);
    }
  }

  // What a receiver computes over data that carries its checksum: 0 if it is right.
  function Verify(data: seq<Octet>): int { Complement(OnesSum(data)) }

  lemma {:induction false} VerifyIs(data: seq<Octet>)
    ensures Verify(data) == 0 <==> WordSum(data) > 0 && WordSum(data) % 65535 == 0
  {
    FoldedSum(data);
    var t := WordSum(data);
    if t > 0 { LastOfCycle(t - 1); }
  }

  lemma {:induction false} LastOfCycle(a: nat)
    ensures a % 65535 == 65534 <==> (a + 1) % 65535 == 0
  { }

  /** Stored high byte first in a zeroed field at an even offset, the checksum verifies. */
  lemma {:induction false} StoredVerifies(data: seq<Octet>, at: nat)
    requires at % 2 == 0 && at + 1 < |data| && data[at] == 0 && data[at + 1] == 0
    ensures var c := Complement(OnesSum(data)); 0 <= c < 65536 && Verify(Store(data, at, c / 256, c % 256)) == 0
  {
    hide WordSum, OnesSum, Folded, Verify, Store, Complement;
    FoldedSum(data);
    var c := Complement(OnesSum(data));
    var n := ComplementFills(WordSum(data));
    StoreAdds(data, at, c / 256, c % 256);
    ModPlus(0, n);
    VerifyIs(Store(data, at, c / 256, c % 256));
  }

  // What the complement of a folded sum lacks.
  lemma {:induction false} ComplementFills(t: nat) returns (n: nat)
    ensures 0 <= Complement(Folded(t)) < 65536 && n > 0 && t + Complement(Folded(t)) == 65535 * n
  {
    var q := if t == 0 then 0 else (t - 1) / 65535;
    n := q + 1;
    assert t == Folded(t) + 65535 * q;
  }

  lemma {:induction false} Divides257(c: nat)
    requires c < 65536
    ensures c / 256 == c % 256 <==> c % 257 == 0
  {
    var h, l := c / 256, c % 256;
    assert c == 257 * h + (l - h);
  }

  /**
    Stored in the order of a little-endian host, low byte first, it verifies
    only when the words sum to a multiple of 257, which is when the two bytes
    of the checksum are equal.
  */
  lemma {:induction false} HostOrderVerifies(data: seq<Octet>, at: nat)
    requires at % 2 == 0 && at + 1 < |data| && data[at] == 0 && data[at + 1] == 0
    ensures var c := Complement(OnesSum(data));
      && 0 <= c < 65536
      && (Verify(Store(data, at, c % 256, c / 256)) == 0 <==> WordSum(data) % 257 == 0)
      && (WordSum(data) % 257 == 0 <==> c / 256 == c % 256)
  {
    FoldedSum(data);
    var c := Complement(OnesSum(data));
    var t := WordSum(data);
    StoreAdds(data, at, c % 256, c / 256);
    VerifyIs(Store(data, at, c % 256, c / 256));
    SwappedSum(t, c);
    Divides257(c);
  }

  lemma {:induction false} Below257(a: int, b: int)
    requires -257 < b < 257
    ensures (257 * a + b) % 257 == 0 <==> b == 0
  { }

  lemma {:induction false} SwappedSum(t: nat, c: nat)
    requires c == Complement(Folded(t)) && 0 <= c < 65536
    ensures var sum := t + (c % 256 * 256 + c / 256);
      && (sum > 0 && sum % 65535 == 0 <==> t % 257 == 0)
      && (t % 257 == 0 <==> c % 257 == 0)
  {
    hide Folded, Complement;
    var n := ComplementFills(t);
    var h, l := c / 256, c % 256;
    SwapResidue(h, l, n - 1);
    Below257(255 * n - h, h - l);
    Below257(h, l - h);
    assert t + (h * 256 + l) == 65535 * n;
  }

  lemma {:induction false} SwapResidue(h: nat, l: nat, q: nat)
    requires h < 256 && l < 256
    ensures var sum := 65535 * (q + 1) - (h * 256 + l) + (l * 256 + h);
      sum > 0 && sum % 65535 == 0 <==> h == l
  {
    var d := 255 * (l - h);
    assert 65535 * (q + 1) - (h * 256 + l) + (l * 256 + h) == 65535 * (q + 1) + d;
    if d >= 0 { ModPlus(d, q + 1); } else { ModPlus(65535 + d, q); }
  }

  lemma {:induction false} SumFirst(a: Octet, b: Octet, rest: seq<Octet>)
    ensures OnesSum([a, b] + rest) == OnesAdd(Word(a, b), OnesSum(rest))
  {
    assert ([a, b] + rest)[2..] == rest;
  }

  /** The example of section 3 of RFC 1071. */
  lemma {:induction false} StandardExample()
    ensures OnesSum([0x00, 0x01, 0xF2, 0x03, 0xF4, 0xF5, 0xF6, 0xF7]) == 0xDDF2
  {
    var d: seq<Octet> := [0xF6, 0xF7];
    var c: seq<Octet> := [0xF4, 0xF5] + d;
    var b: seq<Octet> := [0xF2, 0x03] + c;
    SumFirst(0xF6, 0xF7, []);
    SumFirst(0xF4, 0xF5, d);
    SumFirst(0xF2, 0x03, c);
    SumFirst(0x00, 0x01, b);
    assert d == [0xF6, 0xF7] + [];
    assert [0x00, 0x01] + b == [0x00, 0x01, 0xF2, 0x03, 0xF4, 0xF5, 0xF6, 0xF7];
  }
}
