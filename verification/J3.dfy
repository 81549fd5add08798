/** j3_analyze of j3_probes.cpp: what a server's answers to junk have in common. */
module J3 {
  import opened Counting
  import opened Text

  datatype Probe = Probe(name: string, responded: bool, bytes: int, firstLine: string)

  datatype Entry = Entry(line: string, bytes: int, name: string)

  datatype Analysis = Analysis(
    silent: nat, resp: nat, httpReal: nat, httpBadVersion: nat, rawNonHttp: nat,
    cannedIdentical: nat, cannedLine: string, cannedBytes: int)

  // Whether the line looks like an HTTP response, and whether its version is none that exists.
  function LooksLikeHttpLine(line: string): (bool, bool) {
    if |line| < 9 || !StartsWith(line, "HTTP/") || line[6] != '.' then (false, false)
    else (true, !((line[5] == '1' && (line[7] == '0' || line[7] == '1')) || (line[5] == '2' && line[7] == '0')))
  }

  predicate IsValidHttpProbe(name: string) { Contains(name, "HTTP GET /") || Contains(name, "HTTP abs-URI") }

  predicate Silent(p: Probe) { !p.responded }

  predicate Responded(p: Probe) { p.responded }

  // A status line of an HTTP version that exists.
  predicate RealStatus(line: string) {
    |line| >= 9 && (StartsWith(line, "HTTP/1.0") || StartsWith(line, "HTTP/1.1") || StartsWith(line, "HTTP/2.0"))
  }

  predicate StatusShape(line: string) { |line| >= 9 && StartsWith(line, "HTTP/") && line[6] == '.' }

  predicate RealHttp(p: Probe) { p.responded && RealStatus(p.firstLine) }

  predicate BadVersion(p: Probe) { p.responded && StatusShape(p.firstLine) && !RealStatus(p.firstLine) }

  predicate RawReply(p: Probe) { p.responded && !StatusShape(p.firstLine) }

  lemma {:induction false} LineKinds(line: string)
    ensures LooksLikeHttpLine(line).0 <==> StatusShape(line)
    ensures LooksLikeHttpLine(line).1 <==> StatusShape(line) && !RealStatus(line)
    ensures RealStatus(line) ==> StatusShape(line)
  {
    if |line| >= 9 {
      assert line[..8] == line[..5] + [line[5], line[6], line[7]];
      assert "HTTP/1.0" == "HTTP/" + "1.0" && "HTTP/1.1" == "HTTP/" + "1.1" && "HTTP/2.0" == "HTTP/" + "2.0";
      StartsAre(line, "HTTP/1.0");
      StartsAre(line, "HTTP/1.1");
      StartsAre(line, "HTTP/2.0");
    }
  }

  lemma {:induction false} StartsAre(line: string, status: string)
    requires |line| >= 9 && |status| == 8 && status[..5] == "HTTP/" && status[6] == '.'
    ensures StartsWith(line, status) <==>
      StartsWith(line, "HTTP/") && line[6] == '.' && line[5] == status[5] && line[7] == status[7]
  {
    assert line[..8] == line[..5] + [line[5], line[6], line[7]];
    assert status == status[..5] + [status[5], status[6], status[7]];
  }

  function EntryOf(p: Probe): Entry { Entry(p.firstLine, p.bytes, p.name) }

  function Keys(probes: seq<Probe>): seq<Entry> {
    if probes == [] then []
    else
      var n := |probes| - 1;
      Keys(probes[..n]) + if probes[n].responded then [EntryOf(probes[n])] else []
  }

  // The answers that are the same as `e`, and those of them that are to a proper HTTP request.
  function SameAs(e: Entry): Entry -> bool { (x: Entry) => x.line == e.line && x.bytes == e.bytes }

  function ValidAs(e: Entry): Entry -> bool {
    (x: Entry) => x.line == e.line && x.bytes == e.bytes && IsValidHttpProbe(x.name)
  }

  predicate Canned(keys: seq<Entry>, e: Entry) {
    Count(keys, SameAs(e)) >= 2 && |e.line| > 3 && Count(keys, ValidAs(e)) > 0
  }

  // The first loop's counters.
  ghost predicate Counted(probes: seq<Probe>, a: Analysis) {
    && a.silent == Count(probes, Silent)
    && a.resp == Count(probes, Responded)
    && a.httpReal == Count(probes, RealHttp)
    && a.httpBadVersion == Count(probes, BadVersion)
    && a.rawNonHttp == Count(probes, RawReply)
  }

  // The earliest canned class, if there is one.
  ghost predicate FirstCanned(keys: seq<Entry>, a: Analysis) {
    || (a.cannedIdentical == 0 && a.cannedLine == "" && a.cannedBytes == 0
        && forall i :: 0 <= i < |keys| ==> !Canned(keys, keys[i]))
    || (exists i :: 0 <= i < |keys| && CannedFirstAt(keys, i) && Reports(a, keys, keys[i]))
  }

  predicate Reports(a: Analysis, keys: seq<Entry>, e: Entry) {
    a.cannedIdentical == Count(keys, SameAs(e)) && a.cannedLine == e.line && a.cannedBytes == e.bytes
  }

  predicate CannedFirstAt(keys: seq<Entry>, i: nat)
    requires i < |keys|
  {
    Canned(keys, keys[i]) && forall j :: 0 <= j < i ==> !Canned(keys, keys[j])
  }

  method Analyze(probes: seq<Probe>) returns (a: Analysis)
    ensures Counted(probes, a) && FirstCanned(Keys(probes), a)
  {
    hide LooksLikeHttpLine, IsValidHttpProbe, Count, Canned, SameAs, ValidAs, RealStatus, StatusShape;
    a := Analysis(0, 0, 0, 0, 0, 0, "", 0);
    var keys: seq<Entry> := [];
    CountsEmpty();
    for i := 0 to |probes|
      invariant Counted(probes[..i], a) && keys == Keys(probes[..i])
      invariant a.cannedIdentical == 0 && a.cannedLine == "" && a.cannedBytes == 0
    {
      var p := probes[i];
      CountsNext(probes, i);
      if p.responded {
        a := a.(resp := a.resp + 1);
        keys := keys + [EntryOf(p)];
        var (isHttp, badVersion) := LooksLikeHttpLine(p.firstLine);
        LineKinds(p.firstLine);
        if isHttp && !badVersion {
          a := a.(httpReal := a.httpReal + 1);
        } else if isHttp && badVersion {
          a := a.(httpBadVersion := a.httpBadVersion + 1);
        } else {
          a := a.(rawNonHttp := a.rawNonHttp + 1);
        }
      } else {
        a := a.(silent := a.silent + 1);
      }
    }
    assert probes[..|probes|] == probes;
    a := FindCanned(keys, a);
  }

  method FindCanned(keys: seq<Entry>, a0: Analysis) returns (a: Analysis)
    requires a0.cannedIdentical == 0 && a0.cannedLine == "" && a0.cannedBytes == 0
    ensures FirstCanned(keys, a)
    ensures a == a0.(cannedIdentical := a.cannedIdentical, cannedLine := a.cannedLine, cannedBytes := a.cannedBytes)
  {
    hide SameAs, ValidAs, Count, IsValidHttpProbe;
    a := a0;
    for i := 0 to |keys|
      invariant a == a0 && forall j :: 0 <= j < i ==> !Canned(keys, keys[j])
    {
      var count, hasValidHttp := ClassOf(keys, keys[i]);
      if count >= 2 && |keys[i].line| > 3 && hasValidHttp {
        a := a.(cannedIdentical := count, cannedLine := keys[i].line, cannedBytes := keys[i].bytes);
        assert CannedFirstAt(keys, i);
        return;
      }
    }
  }

  // The inner loop.
  method ClassOf(keys: seq<Entry>, e: Entry) returns (count: nat, hasValidHttp: bool)
    ensures count == Count(keys, SameAs(e)) && (hasValidHttp <==> Count(keys, ValidAs(e)) > 0)
  {
    hide Count, IsValidHttpProbe;
    count, hasValidHttp := 0, false;
    NoCount(keys, SameAs(e));
    NoCount(keys, ValidAs(e));
    for j := 0 to |keys|
      invariant count == Count(keys[..j], SameAs(e)) && (hasValidHttp <==> Count(keys[..j], ValidAs(e)) > 0)
    {
      CountNext(keys, j, SameAs(e));
      CountNext(keys, j, ValidAs(e));
      if keys[j].line == e.line && keys[j].bytes == e.bytes {
        count := count + 1;
        if IsValidHttpProbe(keys[j].name) {
          hasValidHttp := true;
        }
      }
    }
    assert keys[..|keys|] == keys;
  }

  lemma {:induction false} NoCount(keys: seq<Entry>, p: Entry -> bool)
    ensures Count(keys[..0], p) == 0
  { }

  lemma {:induction false} CountsEmpty()
    ensures Counted([], Analysis(0, 0, 0, 0, 0, 0, "", 0))
  { }

  lemma {:induction false} CountsNext(probes: seq<Probe>, i: nat)
    requires i < |probes|
    ensures Count(probes[..i + 1], Silent) == Count(probes[..i], Silent) + if Silent(probes[i]) then 1 else 0
    ensures Count(probes[..i + 1], Responded) == Count(probes[..i], Responded) + if Responded(probes[i]) then 1 else 0
    ensures Count(probes[..i + 1], RealHttp) == Count(probes[..i], RealHttp) + if RealHttp(probes[i]) then 1 else 0
    ensures Count(probes[..i + 1], BadVersion) ==
      Count(probes[..i], BadVersion) + if BadVersion(probes[i]) then 1 else 0
    ensures Count(probes[..i + 1], RawReply) == Count(probes[..i], RawReply) + if RawReply(probes[i]) then 1 else 0
    ensures Keys(probes[..i + 1]) == Keys(probes[..i]) + if probes[i].responded then [EntryOf(probes[i])] else []
  {
    hide Count, RealStatus, StatusShape;
    CountNext(probes, i, Silent);
    CountNext(probes, i, Responded);
    CountNext(probes, i, RealHttp);
    CountNext(probes, i, BadVersion);
    CountNext(probes, i, RawReply);
    assert probes[..i + 1][..i] == probes[..i];
  }

  // ------------------------------------------------------------ consequences

  /**
    Each probe is silent or answered, and each answer is real HTTP, HTTP of a
    version that does not exist, or neither.
  */
  lemma {:induction false} CountsAddUp(probes: seq<Probe>)
    ensures Count(probes, Silent) + Count(probes, Responded) == |probes|
    ensures Count(probes, RealHttp) + Count(probes, BadVersion) + Count(probes, RawReply) == Count(probes, Responded)
    ensures |Keys(probes)| == Count(probes, Responded)
    decreases |probes|
  {
    hide LooksLikeHttpLine, RealStatus, StatusShape;
    if probes != [] {
      var n := |probes| - 1;
      CountsAddUp(probes[..n]);
      LineKinds(probes[n].firstLine);
    }
  }

  // Some class of answers, given by line and length, is canned.
  ghost predicate AnyCanned(keys: seq<Entry>) { exists i :: 0 <= i < |keys| && Canned(keys, keys[i]) }

  /** A canned class is reported exactly when there is one. */
  lemma {:induction false} CannedReported(keys: seq<Entry>, a: Analysis)
    requires FirstCanned(keys, a)
    ensures a.cannedIdentical > 0 <==> AnyCanned(keys)
    ensures a.cannedIdentical > 0 ==> a.cannedIdentical >= 2 && |a.cannedLine| > 3
  {
    hide Count, SameAs, ValidAs;
  }

  lemma {:induction false} KeysPermute(ps: seq<Probe>, qs: seq<Probe>)
    requires multiset(ps) == multiset(qs)
    ensures multiset(Keys(ps)) == multiset(Keys(qs))
    decreases |ps|
  {
    hide Keys, EntriesOf;
    assert |multiset(ps)| == |ps| && |multiset(qs)| == |qs|;
    if ps == [] {
      assert ps == qs;
    } else {
      var n := |ps| - 1;
      assert ps[n] in multiset(qs);
      var i :| 0 <= i < |qs| && qs[i] == ps[n];
      Without(qs, i);
      Without(ps, n);
      assert ps[..n] + ps[n + 1..] == ps[..n];
      Cancel(multiset(ps[..n]), multiset(qs[..i] + qs[i + 1..]), multiset{ps[n]});
      KeysWithout(qs, i);
      KeysWithout(ps, n);
      KeysPermute(ps[..n], qs[..i] + qs[i + 1..]);
    }
  }

  function EntriesOf(p: Probe): multiset<Entry> { if p.responded then multiset{EntryOf(p)} else multiset{} }

  lemma {:induction false} KeysConcat(ps: seq<Probe>, qs: seq<Probe>)
    ensures Keys(ps + qs) == Keys(ps) + Keys(qs)
    decreases |qs|
  {
    if qs == [] {
      assert ps + qs == ps;
    } else {
      assert (ps + qs)[..|ps + qs| - 1] == ps + qs[..|qs| - 1];
      KeysConcat(ps, qs[..|qs| - 1]);
    }
  }

  lemma {:induction false} KeysWithout(qs: seq<Probe>, i: nat)
    requires i < |qs|
    ensures multiset(Keys(qs)) == multiset(Keys(qs[..i] + qs[i + 1..])) + EntriesOf(qs[i])
  {
    assert qs == (qs[..i] + [qs[i]]) + qs[i + 1..];
    KeysConcat(qs[..i] + [qs[i]], qs[i + 1..]);
    KeysConcat(qs[..i], [qs[i]]);
    KeysConcat(qs[..i], qs[i + 1..]);
    assert [qs[i]][..0] == [];
  }

  lemma {:induction false} CannedPermutes(keys: seq<Entry>, more: seq<Entry>)
    requires multiset(keys) == multiset(more) && AnyCanned(keys)
    ensures AnyCanned(more)
  {
    hide Count, SameAs, ValidAs;
    var i :| 0 <= i < |keys| && Canned(keys, keys[i]);
    var e := keys[i];
    assert e in multiset(more);
    CountPermutes(keys, more, SameAs(e));
    CountPermutes(keys, more, ValidAs(e));
    var j :| 0 <= j < |more| && more[j] == e;
  }

  lemma {:induction false} NothingReported(keys: seq<Entry>, a: Analysis)
    requires FirstCanned(keys, a) && !AnyCanned(keys)
    ensures a.cannedIdentical == 0 && a.cannedLine == "" && a.cannedBytes == 0
  {
    hide Count, Canned;
  }

  // All canned answers are of one class.
  predicate OneCannedClass(keys: seq<Entry>) {
    forall i, j :: 0 <= i < |keys| && 0 <= j < |keys| && Canned(keys, keys[i]) && Canned(keys, keys[j]) ==>
      keys[i].line == keys[j].line && keys[i].bytes == keys[j].bytes
  }

  lemma {:induction false} OneClassPermutes(keys: seq<Entry>, more: seq<Entry>, a: Analysis, b: Analysis)
    requires multiset(keys) == multiset(more) && FirstCanned(keys, a) && FirstCanned(more, b)
    requires OneCannedClass(keys) && AnyCanned(keys) && AnyCanned(more)
    ensures a.cannedIdentical == b.cannedIdentical && a.cannedLine == b.cannedLine && a.cannedBytes == b.cannedBytes
  {
    hide Count, SameAs, ValidAs;
    var i :| 0 <= i < |keys| && CannedFirstAt(keys, i) && Reports(a, keys, keys[i]);
    var j :| 0 <= j < |more| && CannedFirstAt(more, j) && Reports(b, more, more[j]);
    var d, e := keys[i], more[j];
    assert e in multiset(keys);
    CountPermutes(more, keys, SameAs(e));
    CountPermutes(more, keys, ValidAs(e));
    var k :| 0 <= k < |keys| && keys[k] == e;
    SameClass(keys, d, e);
  }

  lemma {:induction false} SameClass(keys: seq<Entry>, d: Entry, e: Entry)
    requires d.line == e.line && d.bytes == e.bytes
    ensures Count(keys, SameAs(d)) == Count(keys, SameAs(e))
  {
    CountSame(keys, SameAs(d), SameAs(e));
  }

  /** The order of the probes decides nothing but which of several canned classes is reported. */
  lemma {:induction false} AnalysisPermutes(ps: seq<Probe>, qs: seq<Probe>, a: Analysis, b: Analysis)
    requires multiset(ps) == multiset(qs)
    requires Counted(ps, a) && FirstCanned(Keys(ps), a) && Counted(qs, b) && FirstCanned(Keys(qs), b)
    ensures a.silent == b.silent && a.resp == b.resp
    ensures a.httpReal == b.httpReal && a.httpBadVersion == b.httpBadVersion && a.rawNonHttp == b.rawNonHttp
    ensures a.cannedIdentical >= 2 <==> b.cannedIdentical >= 2
    ensures OneCannedClass(Keys(ps)) ==>
      a.cannedIdentical == b.cannedIdentical && a.cannedLine == b.cannedLine && a.cannedBytes == b.cannedBytes
  {
    hide Count, FirstCanned, AnyCanned, Keys, OneCannedClass;
    CountPermutes(ps, qs, Silent);
    CountPermutes(ps, qs, Responded);
    CountPermutes(ps, qs, RealHttp);
    CountPermutes(ps, qs, BadVersion);
    CountPermutes(ps, qs, RawReply);
    KeysPermute(ps, qs);
    CannedReported(Keys(ps), a);
    CannedReported(Keys(qs), b);
    if AnyCanned(Keys(ps)) { CannedPermutes(Keys(ps), Keys(qs)); }
    if AnyCanned(Keys(qs)) { CannedPermutes(Keys(qs), Keys(ps)); }
    if AnyCanned(Keys(ps)) && OneCannedClass(Keys(ps)) { OneClassPermutes(Keys(ps), Keys(qs), a, b); }
    if !AnyCanned(Keys(ps)) {
      NothingReported(Keys(ps), a);
      NothingReported(Keys(qs), b);
    }
  }

  // ------------------------------------------------ what a canned class means

  // Both probes were answered, with the same line and the same number of bytes.
  predicate SameAnswer(p: Probe, q: Probe) {
    p.responded && q.responded && p.firstLine == q.firstLine && p.bytes == q.bytes
  }

  // Two probes got the same answer, of more than three characters, and so did
  // one that was a proper HTTP request.
  ghost predicate CannedAmong(probes: seq<Probe>, p: Probe) {
    && |p.firstLine| > 3
    && (exists i, j :: 0 <= i < j < |probes| && SameAnswer(p, probes[i]) && SameAnswer(p, probes[j]))
    && exists k :: 0 <= k < |probes| && SameAnswer(p, probes[k]) && ProperRequest(probes[k].name)
  }

  predicate ProperRequest(name: string) { Contains(name, "HTTP GET /") || Contains(name, "HTTP abs-URI") }

  lemma {:induction false} KeysCount(probes: seq<Probe>, q: Entry -> bool, p: Probe -> bool)
    requires forall x :: p(x) == (x.responded && q(EntryOf(x)))
    ensures Count(Keys(probes), q) == Count(probes, p)
    decreases |probes|
  {
    if probes != [] {
      var n := |probes| - 1;
      KeysCount(probes[..n], q, p);
      if probes[n].responded {
        assert (Keys(probes[..n]) + [EntryOf(probes[n])])[..|Keys(probes[..n])|] == Keys(probes[..n]);
      } else {
        assert Keys(probes[..n]) + [] == Keys(probes[..n]);
      }
    }
  }

  lemma {:induction false} EntryMeans(probes: seq<Probe>, p: Probe)
    requires p.responded
    ensures Canned(Keys(probes), EntryOf(p)) <==> CannedAmong(probes, p)
  {
    hide Count, Keys, Contains;
    var e := EntryOf(p);
    var same := (x: Probe) => SameAnswer(p, x);
    var valid := (x: Probe) => SameAnswer(p, x) && ProperRequest(x.name);
    KeysCount(probes, SameAs(e), same);
    KeysCount(probes, ValidAs(e), valid);
    CountTwo(probes, same);
    CountOne(probes, valid);
  }

  lemma {:induction false} KeysAre(probes: seq<Probe>, e: Entry)
    ensures e in Keys(probes) <==> exists i :: 0 <= i < |probes| && probes[i].responded && EntryOf(probes[i]) == e
    decreases |probes|
  {
    if probes != [] {
      var n := |probes| - 1;
      KeysAre(probes[..n], e);
      assert forall i :: 0 <= i < n ==> probes[..n][i] == probes[i];
    }
  }

  /** A canned class is reported exactly when some answered probe's answer is canned among them all. */
  lemma {:induction false} CannedMeans(probes: seq<Probe>, a: Analysis)
    requires FirstCanned(Keys(probes), a)
    ensures a.cannedIdentical > 0 <==>
      exists i :: 0 <= i < |probes| && probes[i].responded && CannedAmong(probes, probes[i])
  {
    hide Count, Keys, Canned, CannedAmong, FirstCanned;
    var keys := Keys(probes);
    CannedReported(keys, a);
    if AnyCanned(keys) {
      var j :| 0 <= j < |keys| && Canned(keys, keys[j]);
      KeysAre(probes, keys[j]);
      var i :| 0 <= i < |probes| && probes[i].responded && EntryOf(probes[i]) == keys[j];
      EntryMeans(probes, probes[i]);
    }
    if i :| 0 <= i < |probes| && probes[i].responded && CannedAmong(probes, probes[i]) {
      KeysAre(probes, EntryOf(probes[i]));
      EntryMeans(probes, probes[i]);
      assert EntryOf(probes[i]) in keys;
      var j :| 0 <= j < |keys| && keys[j] == EntryOf(probes[i]);
    }
  }
}
